/**
 * Instance-owner extraction: the leftmost match of the pattern
 *   (hidden|friends|private|group)\(([^\)]+)\)
 * in a location identifier, and its second group (the owner token).
 *
 * The declarative part (MatchAt, LeftmostMatch) says what a leftmost match
 * is; the executable part (KeywordAt, FirstClose, TokenAt, ScanFrom) is an
 * explicit scanner, and the lemmas show that the scanner returns exactly the
 * owner of the leftmost match, or "" when there is none.
 */
module InstanceOwner {
  import opened Wrappers

  /** One of the four visibility tags of the pattern. */
  predicate IsKeyword(w: string)
  {
    w == "hidden" || w == "friends" || w == "private" || w == "group"
  }

  /** w occurs in s starting at index i. */
  predicate OccursAt(s: string, i: int, w: string)
  {
    0 <= i && i + |w| <= |s| && s[i..i + |w|] == w
  }

  /** The pattern matches s starting at index i, with owner as its second group. */
  ghost predicate MatchAt(s: string, i: int, owner: string)
  {
    && owner != []
    && ')' !in owner
    && exists kw :: IsKeyword(kw) && OccursAt(s, i, kw + "(" + owner + ")")
  }

  /** Some match of the pattern starts at index i. */
  ghost predicate MatchesAt(s: string, i: int)
  {
    exists owner :: MatchAt(s, i, owner)
  }

  /** The match at i is the leftmost one: no match starts before i. */
  ghost predicate LeftmostMatch(s: string, i: int, owner: string)
  {
    MatchAt(s, i, owner) && forall k :: 0 <= k < i ==> !MatchesAt(s, k)
  }

  /** The keyword that begins at s[i], if any (the four keywords differ in their first letter). */
  function KeywordAt(s: string, i: nat): (r: Option<string>)
    ensures r.Some? ==> IsKeyword(r.value) && OccursAt(s, i, r.value)
  {
    if OccursAt(s, i, "hidden") then Some("hidden")
    else if OccursAt(s, i, "friends") then Some("friends")
    else if OccursAt(s, i, "private") then Some("private")
    else if OccursAt(s, i, "group") then Some("group")
    else None
  }

  /** An occurrence of a + b is an occurrence of a followed by one of b. */
  lemma OccursConcat(s: string, i: int, a: string, b: string)
    ensures OccursAt(s, i, a + b) <==> OccursAt(s, i, a) && OccursAt(s, i + |a|, b)
  {
    if OccursAt(s, i, a + b) {
      assert s[i..i + |a|] == (a + b)[..|a|];
      assert s[i + |a|..i + |a| + |b|] == (a + b)[|a|..];
    }
    if OccursAt(s, i, a) && OccursAt(s, i + |a|, b) {
      assert s[i..i + |a| + |b|] == s[i..i + |a|] + s[i + |a|..i + |a| + |b|];
    }
  }

  /** KeywordAt misses no keyword: each starts with its own letter, so at most one occurs at i. */
  lemma KeywordAtComplete(s: string, i: nat, kw: string)
    requires IsKeyword(kw) && OccursAt(s, i, kw)
    ensures KeywordAt(s, i) == Some(kw)
  {
    assert s[i] == kw[0];
    match KeywordAt(s, i)
    case None =>
    case Some(other) =>
      assert s[i] == other[0];
  }

  /** The index of the first ')' at or after k, or |s| when there is none. */
  function FirstClose(s: string, k: nat): (e: nat)
    requires k <= |s|
    ensures k <= e <= |s|
    ensures e < |s| ==> s[e] == ')'
    ensures forall j :: k <= j < e ==> s[j] != ')'
    decreases |s| - k
  {
    if k == |s| || s[k] == ')' then k else FirstClose(s, k + 1)
  }

  /**
   * The owner token of a match starting exactly at i: a keyword, '(', a
   * non-empty run of characters other than ')' (which is greedy and so
   * ends at the first ')'), and ')'.
   */
  function TokenAt(s: string, i: nat): (r: Option<string>)
    requires i <= |s|
    ensures r.Some? ==> MatchAt(s, i, r.value)
  {
    match KeywordAt(s, i)
    case None => None
    case Some(kw) =>
      var k := i + |kw|;
      if k < |s| && s[k] == '(' then
        var e := FirstClose(s, k + 1);
        if k + 1 < e < |s| then
          PartsMatch(s, i, kw, e);
          Some(s[k + 1..e])
        else None
      else None
  }

  /** The pieces of an occurrence of kw + "(" + owner + ")" at i. */
  lemma MatchParts(s: string, i: nat, kw: string, owner: string)
    requires OccursAt(s, i, kw + "(" + owner + ")")
    ensures OccursAt(s, i, kw)
    ensures i + |kw| + 1 + |owner| < |s|
    ensures s[i + |kw|] == '('
    ensures s[i + |kw| + 1..i + |kw| + 1 + |owner|] == owner
    ensures s[i + |kw| + 1 + |owner|] == ')'
  {
    var k := i + |kw|;
    var e := k + 1 + |owner|;
    OccursConcat(s, i, kw + "(" + owner, ")");
    OccursConcat(s, i, kw + "(", owner);
    OccursConcat(s, i, kw, "(");
    assert s[k] == s[k..k + 1][0];
    assert s[e] == s[e..e + 1][0];
  }

  /** The converse of MatchParts: kw at i, then '(', a run, and ')' at e form an occurrence. */
  lemma PartsMatch(s: string, i: nat, kw: string, e: nat)
    requires OccursAt(s, i, kw)
    requires i + |kw| < e < |s| && s[i + |kw|] == '(' && s[e] == ')'
    ensures OccursAt(s, i, kw + "(" + s[i + |kw| + 1..e] + ")")
  {
    var k := i + |kw|;
    assert s[k..k + 1] == "(";
    assert s[e..e + 1] == ")";
    OccursConcat(s, i, kw, "(");
    OccursConcat(s, i, kw + "(", s[k + 1..e]);
    OccursConcat(s, i, kw + "(" + s[k + 1..e], ")");
  }

  /** FirstClose stops at the ')' that ends a run equal to owner, which holds no ')'. */
  lemma FirstCloseAfterOwner(s: string, k: nat, owner: string)
    requires k + |owner| < |s| && s[k + |owner|] == ')'
    requires s[k..k + |owner|] == owner && ')' !in owner
    ensures FirstClose(s, k) == k + |owner|
  {
    var e := k + |owner|;
    forall j | k <= j < e
      ensures s[j] != ')'
    {
      assert s[j] == owner[j - k];
    }
  }

  /** Every match at i is the one TokenAt finds: the owner at a given start is unique. */
  lemma TokenAtComplete(s: string, i: nat, owner: string)
    requires i <= |s|
    requires MatchAt(s, i, owner)
    ensures TokenAt(s, i) == Some(owner)
  {
    var kw :| IsKeyword(kw) && OccursAt(s, i, kw + "(" + owner + ")");
    MatchParts(s, i, kw, owner);
    KeywordAtComplete(s, i, kw);
    FirstCloseAfterOwner(s, i + |kw| + 1, owner);
  }

  /** The scanner: the owner of the leftmost match at or after index i, or "". */
  function ScanFrom(s: string, i: nat): (r: string)
    requires i <= |s|
    ensures r == "" <==> forall j :: i <= j < |s| ==> !MatchesAt(s, j)
    ensures r != "" ==> exists j :: i <= j < |s| && MatchAt(s, j, r) && forall k :: i <= k < j ==> !MatchesAt(s, k)
    decreases |s| - i
  {
    if i == |s| then ""
    else match TokenAt(s, i)
      case Some(owner) =>
        assert MatchesAt(s, i);
        owner
      case None =>
        NoTokenNoMatch(s, i);
        var r := ScanFrom(s, i + 1);
        ScanSkip(s, i, r);
        r
  }

  /** TokenAt finding nothing at i means that no match starts at i. */
  lemma NoTokenNoMatch(s: string, i: nat)
    requires i <= |s| && TokenAt(s, i).None?
    ensures !MatchesAt(s, i)
  {
    if MatchesAt(s, i) {
      var owner :| MatchAt(s, i, owner);
      TokenAtComplete(s, i, owner);
    }
  }

  /** The scanner's result from i + 1 is also its result from i when no match starts at i. */
  lemma ScanSkip(s: string, i: nat, r: string)
    requires i < |s| && !MatchesAt(s, i)
    requires r == "" <==> forall j :: i + 1 <= j < |s| ==> !MatchesAt(s, j)
    requires r != "" ==> exists j :: i + 1 <= j < |s| && MatchAt(s, j, r) && forall k :: i + 1 <= k < j ==> !MatchesAt(s, k)
    ensures r == "" <==> forall j :: i <= j < |s| ==> !MatchesAt(s, j)
    ensures r != "" ==> exists j :: i <= j < |s| && MatchAt(s, j, r) && forall k :: i <= k < j ==> !MatchesAt(s, k)
  {
    if r != "" {
      var j :| i + 1 <= j < |s| && MatchAt(s, j, r) && forall k :: i + 1 <= k < j ==> !MatchesAt(s, k);
      assert MatchesAt(s, j);
    }
  }

  /**
   * ParseInstanceOwner (event.go) and parseInstanceOwner (cmd/delivery/main.go):
   * the second group of the leftmost match, or "" when the pattern does not match.
   */
  function ParseInstanceOwner(instanceID: string): (owner: string)
    ensures owner == "" <==> forall i :: 0 <= i < |instanceID| ==> !MatchesAt(instanceID, i)
    ensures owner != "" ==>
      exists i :: 0 <= i < |instanceID| && MatchAt(instanceID, i, owner) && forall k :: 0 <= k < i ==> !MatchesAt(instanceID, k)
  {
    ScanFrom(instanceID, 0)
  }

  /**
   * The leftmost match determines the result completely: whenever the match
   * starting at i is leftmost, ParseInstanceOwner returns its owner.
   */
  lemma ParseInstanceOwnerIsLeftmost(s: string, i: nat, owner: string)
    requires LeftmostMatch(s, i, owner)
    ensures ParseInstanceOwner(s) == owner
  {
    assert i < |s|;
    assert MatchesAt(s, i);
    var r := ParseInstanceOwner(s);
    assert r != "";
    var j :| 0 <= j < |s| && MatchAt(s, j, r) && forall k :: 0 <= k < j ==> !MatchesAt(s, k);
    assert MatchesAt(s, j);
    assert i == j;
    TokenAtComplete(s, i, owner);
    TokenAtComplete(s, i, r);
  }

  /**
   * The shape of a non-empty result: it contains no ')', and some keyword
   * followed by "(" + owner + ")" occurs in the input.
   */
  lemma OwnerShape(s: string)
    ensures var owner := ParseInstanceOwner(s);
      owner != "" ==>
        && ')' !in owner
        && exists kw, i :: IsKeyword(kw) && OccursAt(s, i, kw + "(" + owner + ")")
  {
    var owner := ParseInstanceOwner(s);
    if owner != "" {
      var i :| 0 <= i < |s| && MatchAt(s, i, owner);
      var kw :| IsKeyword(kw) && OccursAt(s, i, kw + "(" + owner + ")");
    }
  }

  /** A match can start only at the first letter of a keyword. */
  lemma MatchStartsWithTagLetter(s: string, k: int)
    requires MatchesAt(s, k)
    ensures 0 <= k < |s| && IsTagLetter(s[k])
  {
    var owner :| MatchAt(s, k, owner);
    var kw :| IsKeyword(kw) && OccursAt(s, k, kw + "(" + owner + ")");
    assert kw + "(" + owner + ")" == kw + ("(" + owner + ")");
    OccursConcat(s, k, kw, "(" + owner + ")");
    assert s[k] == s[k..k + |kw|][0] == kw[0];
  }

  /** c is the first letter of a keyword. */
  predicate IsTagLetter(c: char)
  {
    c == 'h' || c == 'f' || c == 'p' || c == 'g'
  }

  /** No character of w is the first letter of a keyword. */
  predicate NoTagLetter(w: string)
  {
    forall i :: 0 <= i < |w| ==> !IsTagLetter(w[i])
  }

  lemma NoTagLetterConcat(a: string, b: string)
    requires NoTagLetter(a) && NoTagLetter(b)
    ensures NoTagLetter(a + b)
  {
    forall i | 0 <= i < |a + b|
      ensures !IsTagLetter((a + b)[i])
    {
      if i >= |a| {
        assert (a + b)[i] == b[i - |a|];
      }
    }
  }

  /**
   * An instance identifier made of a prefix without keyword letters, a
   * keyword, a parenthesised owner and any suffix yields that owner.
   */
  lemma OwnerAfterPlainPrefix(p: string, kw: string, owner: string, rest: string)
    requires NoTagLetter(p)
    requires IsKeyword(kw) && owner != [] && ')' !in owner
    ensures ParseInstanceOwner(p + (kw + "(" + owner + ")") + rest) == owner
  {
    var w := kw + "(" + owner + ")";
    var s := p + w + rest;
    assert s[|p|..|p| + |w|] == w;
    assert MatchAt(s, |p|, owner);
    forall k | 0 <= k < |p|
      ensures !MatchesAt(s, k)
    {
      assert s[k] == p[k];
      if MatchesAt(s, k) {
        MatchStartsWithTagLetter(s, k);
      }
    }
    ParseInstanceOwnerIsLeftmost(s, |p|, owner);
  }

  /** The world and instance-number parts of the two test inputs hold no keyword letter. */
  lemma HiddenExampleWorldIsPlain(w: string)
    requires w == "wrld_aaaaaaaa-8175-vvvv-"
    ensures NoTagLetter(w)
  {
  }

  lemma HiddenExampleInstanceIsPlain(w: string)
    requires w == "cccc-qqqqqqqqqqqq:69931~"
    ensures NoTagLetter(w)
  {
  }

  lemma GroupExampleWorldIsPlain(w: string)
    requires w == "wrld_b4494444-9444-4444-"
    ensures NoTagLetter(w)
  {
  }

  lemma GroupExampleInstanceIsPlain(w: string)
    requires w == "bb0d-ddddd38d9ddd:77673~"
    ensures NoTagLetter(w)
  {
  }

  /**
   * Test case "hidden instance" of cmd/delivery/vrc_test.go. The input is
   * written in pieces (world, instance number, hidden tag, region tag) and
   * given as a parameter, which keeps the verifier from unfolding the
   * scanner over one long literal.
   */
  lemma HiddenInstanceExample(instanceID: string)
    requires instanceID == "wrld_aaaaaaaa-8175-vvvv-" + "cccc-qqqqqqqqqqqq:69931~"
                           + ("hidden" + "(" + "usr_23dbxxxx-e8xx-xxxx-yyyy-zzzzzzzzzzzz" + ")")
                           + "~region(jp)"
    ensures ParseInstanceOwner(instanceID) == "usr_23dbxxxx-e8xx-xxxx-yyyy-zzzzzzzzzzzz"
  {
    HiddenExampleWorldIsPlain("wrld_aaaaaaaa-8175-vvvv-");
    HiddenExampleInstanceIsPlain("cccc-qqqqqqqqqqqq:69931~");
    NoTagLetterConcat("wrld_aaaaaaaa-8175-vvvv-", "cccc-qqqqqqqqqqqq:69931~");
    OwnerAfterPlainPrefix("wrld_aaaaaaaa-8175-vvvv-" + "cccc-qqqqqqqqqqqq:69931~", "hidden",
                          "usr_23dbxxxx-e8xx-xxxx-yyyy-zzzzzzzzzzzz", "~region(jp)");
  }

  /** Test case "group instance" of cmd/delivery/vrc_test.go, written the same way. */
  lemma GroupInstanceExample(instanceID: string)
    requires instanceID == "wrld_b4494444-9444-4444-" + "bb0d-ddddd38d9ddd:77673~"
                           + ("group" + "(" + "grp_xxxxxxx-1111-4444-8888-8aa3cc832b33" + ")")
                           + "~groupAccessType(members)~region(jp)"
    ensures ParseInstanceOwner(instanceID) == "grp_xxxxxxx-1111-4444-8888-8aa3cc832b33"
  {
    GroupExampleWorldIsPlain("wrld_b4494444-9444-4444-");
    GroupExampleInstanceIsPlain("bb0d-ddddd38d9ddd:77673~");
    NoTagLetterConcat("wrld_b4494444-9444-4444-", "bb0d-ddddd38d9ddd:77673~");
    OwnerAfterPlainPrefix("wrld_b4494444-9444-4444-" + "bb0d-ddddd38d9ddd:77673~", "group",
                          "grp_xxxxxxx-1111-4444-8888-8aa3cc832b33", "~groupAccessType(members)~region(jp)");
  }

  /** An identifier without any keyword letter has owner "". */
  lemma NoTagMeansEmptyOwner(instanceID: string)
    requires NoTagLetter(instanceID)
    ensures ParseInstanceOwner(instanceID) == ""
  {
    forall i | 0 <= i < |instanceID|
      ensures !MatchesAt(instanceID, i)
    {
      if MatchesAt(instanceID, i) {
        MatchStartsWithTagLetter(instanceID, i);
      }
    }
  }

  /** A trailing "~private" tag without parentheses adds no match: the owner stays "". */
  lemma NoTagLetterSuffixPrivate(world: string)
    requires NoTagLetter(world)
    ensures ParseInstanceOwner(world + "~private") == ""
  {
    var s := world + "~private";
    forall i | 0 <= i < |s|
      ensures !MatchesAt(s, i)
    {
      if i < |world| {
        assert s[i] == world[i];
        NoMatchAtPlainLetter(s, i);
      } else if i == |world| + 1 {
        if MatchesAt(s, i) {
          PrivateMatchNeedsRoom(s, i);
        }
      } else {
        assert s[i] == "~private"[i - |world|];
        NoMatchAtPlainLetter(s, i);
      }
    }
  }

  /** No match starts at a character that is not the first letter of a keyword. */
  lemma NoMatchAtPlainLetter(s: string, i: int)
    requires 0 <= i < |s| && !IsTagLetter(s[i])
    ensures !MatchesAt(s, i)
  {
    if MatchesAt(s, i) {
      MatchStartsWithTagLetter(s, i);
    }
  }

  /** A match at a 'p' needs "private(", an owner and ")": at least ten characters. */
  lemma PrivateMatchNeedsRoom(s: string, i: int)
    requires MatchesAt(s, i) && 0 <= i < |s| && s[i] == 'p'
    ensures i + 10 <= |s|
  {
    var owner :| MatchAt(s, i, owner);
    var kw :| IsKeyword(kw) && OccursAt(s, i, kw + "(" + owner + ")");
    assert s[i] == (kw + "(" + owner + ")")[0] == kw[0];
  }

  /** The shortest match, "group(" + one character + ")", has eight characters. */
  lemma MatchNeedsRoom(s: string, i: int)
    requires MatchesAt(s, i)
    ensures 0 <= i && i + 8 <= |s|
  {
    var owner :| MatchAt(s, i, owner);
    var kw :| IsKeyword(kw) && OccursAt(s, i, kw + "(" + owner + ")");
  }

  /** The sentinel locations "private" and "traveling" carry no owner. */
  lemma PrivateSentinelHasNoOwner(s: string)
    requires s == "private"
    ensures ParseInstanceOwner(s) == ""
  {
    forall i | 0 <= i < |s|
      ensures !MatchesAt(s, i)
    {
      if MatchesAt(s, i) {
        MatchNeedsRoom(s, i);
      }
    }
  }

  lemma TravelingSentinelHasNoOwner(s: string)
    requires s == "traveling"
    ensures ParseInstanceOwner(s) == ""
  {
    forall i | 0 <= i < |s|
      ensures !MatchesAt(s, i)
    {
      if i < 2 {
        NoMatchAtPlainLetter(s, i);
      } else if MatchesAt(s, i) {
        MatchNeedsRoom(s, i);
      }
    }
  }
}
