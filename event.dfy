/**
 * The forwarding policy built by PredicateBuilder in event.go: which decoded
 * events about friends are forwarded, given an allowed user id and a list
 * of allowed instance owners.
 */
module Event {
  import opened Wrappers
  import opened Payload
  import InstanceOwner

  const TypeKey := "message.type"
  const UserIdKey := "message.content.user.id"
  const LocationKey := "message.content.location"
  const TravelingToKey := "message.content.travelingToLocation"
  const OfflineUserIdKey := "message.content.userId"

  /** The user check of a friend-location event: an absent or non-string id is no constraint. */
  predicate UserAllowed(allowUserID: string, p: Payload)
  {
    match GetString(p, UserIdKey)
    case Some(id) => id == allowUserID
    case None => true
  }

  /** The location that is checked: "traveling" is replaced by the destination when that is a string. */
  function EffectiveLocation(location: string, p: Payload): (r: string)
    ensures location != "traveling" ==> r == location
    ensures location == "traveling" && GetString(p, TravelingToKey).Some? ==> r == GetString(p, TravelingToKey).value
    ensures location == "traveling" && GetString(p, TravelingToKey).None? ==> r == "traveling"
  {
    if location == "traveling" then
      match GetString(p, TravelingToKey)
      case Some(destination) => destination
      case None => location
    else location
  }

  /** The closure returned by PredicateBuilder(allowUserID, allowInstanceOwnerID), applied to p. */
  function Forward(allowUserID: string, allowInstanceOwnerID: seq<string>, p: Payload): (forward: bool)
    ensures forward ==> GetString(p, TypeKey) in {Some("friend-location"), Some("friend-offline")}
    ensures forward && GetString(p, TypeKey) == Some("friend-location") ==>
              UserAllowed(allowUserID, p) && GetString(p, LocationKey).Some?
    ensures forward && GetString(p, TypeKey) == Some("friend-offline") ==>
              GetString(p, OfflineUserIdKey) == Some(allowUserID)
  {
    match GetString(p, TypeKey)
    case None => false
    case Some(eventType) =>
      if eventType == "friend-location" then
        if !UserAllowed(allowUserID, p) then false
        else
          match GetString(p, LocationKey)
          case None => false
          case Some(instanceID) =>
            if instanceID == "private" then true
            else InstanceOwner.ParseInstanceOwner(EffectiveLocation(instanceID, p)) in allowInstanceOwnerID
      else if eventType == "friend-offline" then
        match GetString(p, OfflineUserIdKey)
        case Some(id) => id == allowUserID
        case None => false
      else false
  }

  /**
   * PredicateBuilder: the policy as a predicate, ready to be put in a chain.
   * It forwards a friend-location event whose user check passes and whose
   * location is "private" or has an allowed (destination-substituted) owner,
   * and a friend-offline event about the allowed user; nothing else.
   */
  function PredicateBuilder(allowUserID: string, allowInstanceOwnerID: seq<string>): (pred: Payload -> bool)
    ensures forall p :: pred(p) <==>
      || (&& GetString(p, TypeKey) == Some("friend-location")
          && UserAllowed(allowUserID, p)
          && GetString(p, LocationKey).Some?
          && (|| GetString(p, LocationKey).value == "private"
              || InstanceOwner.ParseInstanceOwner(EffectiveLocation(GetString(p, LocationKey).value, p))
                   in allowInstanceOwnerID))
      || (&& GetString(p, TypeKey) == Some("friend-offline")
          && GetString(p, OfflineUserIdKey) == Some(allowUserID))
  {
    p => Forward(allowUserID, allowInstanceOwnerID, p)
  }

  /** Events without a string type, and of any type but the two friend events, are dropped. */
  lemma UnknownTypeDropped(allowUserID: string, allowInstanceOwnerID: seq<string>, p: Payload)
    requires GetString(p, TypeKey) != Some("friend-location") && GetString(p, TypeKey) != Some("friend-offline")
    ensures !Forward(allowUserID, allowInstanceOwnerID, p)
  {
  }

  /** friend-location: a string user id other than the allowed one rejects the event. */
  lemma OtherUserRejected(allowUserID: string, allowInstanceOwnerID: seq<string>, p: Payload)
    requires GetString(p, TypeKey) == Some("friend-location")
    requires GetString(p, UserIdKey).Some? && GetString(p, UserIdKey).value != allowUserID
    ensures !Forward(allowUserID, allowInstanceOwnerID, p)
  {
  }

  /**
   * friend-location: the complete rule once the type is known. The event
   * passes iff the user check passes and the location is a string that is
   * either "private" or whose (destination-substituted) owner is allowed.
   */
  lemma FriendLocationRule(allowUserID: string, allowInstanceOwnerID: seq<string>, p: Payload)
    requires GetString(p, TypeKey) == Some("friend-location")
    ensures Forward(allowUserID, allowInstanceOwnerID, p) <==>
      && UserAllowed(allowUserID, p)
      && GetString(p, LocationKey).Some?
      && var location := GetString(p, LocationKey).value;
         || location == "private"
         || InstanceOwner.ParseInstanceOwner(EffectiveLocation(location, p)) in allowInstanceOwnerID
  {
  }

  /** friend-location: the user id is no constraint when it is absent or not a string. */
  lemma AbsentUserIsNoConstraint(allowUserID: string, otherUserID: string, allowInstanceOwnerID: seq<string>, p: Payload)
    requires GetString(p, TypeKey) == Some("friend-location")
    requires GetString(p, UserIdKey).None?
    ensures Forward(allowUserID, allowInstanceOwnerID, p) == Forward(otherUserID, allowInstanceOwnerID, p)
  {
  }

  /** friend-location: the location "private" always passes, whatever the owner list. */
  lemma PrivateLocationForwarded(allowUserID: string, allowInstanceOwnerID: seq<string>, p: Payload)
    requires GetString(p, TypeKey) == Some("friend-location") && UserAllowed(allowUserID, p)
    requires GetString(p, LocationKey) == Some("private")
    ensures Forward(allowUserID, allowInstanceOwnerID, p)
  {
  }

  /** friend-location: a traveling event is judged by the owner of its string destination. */
  lemma TravelingUsesDestination(allowUserID: string, allowInstanceOwnerID: seq<string>, p: Payload, destination: string)
    requires GetString(p, TypeKey) == Some("friend-location") && UserAllowed(allowUserID, p)
    requires GetString(p, LocationKey) == Some("traveling")
    requires GetString(p, TravelingToKey) == Some(destination)
    ensures Forward(allowUserID, allowInstanceOwnerID, p) <==>
              InstanceOwner.ParseInstanceOwner(destination) in allowInstanceOwnerID
  {
  }

  /** friend-location: an absent or non-string location rejects the event. */
  lemma MissingLocationRejected(allowUserID: string, allowInstanceOwnerID: seq<string>, p: Payload)
    requires GetString(p, TypeKey) == Some("friend-location")
    requires GetString(p, LocationKey).None?
    ensures !Forward(allowUserID, allowInstanceOwnerID, p)
  {
  }

  /**
   * friend-offline: forwarded iff the string userId equals the allowed id;
   * an absent id rejects the event even when the allowed id is "".
   */
  lemma FriendOfflineRule(allowUserID: string, allowInstanceOwnerID: seq<string>, p: Payload)
    requires GetString(p, TypeKey) == Some("friend-offline")
    ensures Forward(allowUserID, allowInstanceOwnerID, p) <==> GetString(p, OfflineUserIdKey) == Some(allowUserID)
  {
  }

  /**
   * friend-location with a location whose owner is tagged: forwarded iff
   * that owner is on the allow list (group(g1) with g1 allowed passes,
   * hidden(u9) with u9 not allowed is dropped).
   */
  lemma TaggedOwnerDecides(allowUserID: string, allowInstanceOwnerID: seq<string>, p: Payload,
                           prefix: string, kw: string, owner: string, rest: string)
    requires GetString(p, TypeKey) == Some("friend-location") && UserAllowed(allowUserID, p)
    requires InstanceOwner.NoTagLetter(prefix)
    requires InstanceOwner.IsKeyword(kw) && owner != [] && ')' !in owner
    requires GetString(p, LocationKey) == Some(prefix + (kw + "(" + owner + ")") + rest)
    ensures Forward(allowUserID, allowInstanceOwnerID, p) <==> owner in allowInstanceOwnerID
  {
    var location := prefix + (kw + "(" + owner + ")") + rest;
    assert location != "private" && location != "traveling" by {
      assert |location| >= |kw| + 3;
      assert location[|prefix|] == kw[0];
    }
    InstanceOwner.OwnerAfterPlainPrefix(prefix, kw, owner, rest);
  }

  /**
   * A location that merely ends in "~private" (no parentheses) is not the
   * "private" sentinel: its owner is "", so it passes only when "" is on
   * the allow list.
   */
  lemma PrivateSuffixIsNotSentinel(allowUserID: string, allowInstanceOwnerID: seq<string>, p: Payload, world: string)
    requires GetString(p, TypeKey) == Some("friend-location") && UserAllowed(allowUserID, p)
    requires InstanceOwner.NoTagLetter(world)
    requires GetString(p, LocationKey) == Some(world + "~private")
    ensures Forward(allowUserID, allowInstanceOwnerID, p) <==> "" in allowInstanceOwnerID
  {
    var location := world + "~private";
    assert location != "private" && location != "traveling" by {
      assert |location| >= 8 && location[|location| - 8] == '~';
    }
    InstanceOwner.NoTagLetterSuffixPrivate(world);
  }

  /** friend-location: "traveling" without a string destination has owner "" and passes only if "" is allowed. */
  lemma TravelingWithoutDestination(allowUserID: string, allowInstanceOwnerID: seq<string>, p: Payload)
    requires GetString(p, TypeKey) == Some("friend-location") && UserAllowed(allowUserID, p)
    requires GetString(p, LocationKey) == Some("traveling")
    requires GetString(p, TravelingToKey).None?
    ensures Forward(allowUserID, allowInstanceOwnerID, p) <==> "" in allowInstanceOwnerID
  {
    InstanceOwner.TravelingSentinelHasNoOwner("traveling");
  }

  /** A friend-location event of user u1 at location world + tag, as a decoded payload. */
  function FriendLocationEvent(userID: string, location: string): (p: Payload)
    ensures GetString(p, TypeKey) == Some("friend-location")
    ensures GetString(p, UserIdKey) == Some(userID)
    ensures GetString(p, LocationKey) == Some(location)
  {
    map[TypeKey := Str("friend-location"), UserIdKey := Str(userID), LocationKey := Str(location)]
  }

  /** u1 at wrld_x:1~group(g1) is forwarded when g1 is an allowed owner. */
  lemma AllowedGroupForwarded()
    ensures Forward("u1", ["g1"], FriendLocationEvent("u1", "wrld_x:1~" + ("group" + "(" + "g1" + ")") + ""))
  {
    var p := FriendLocationEvent("u1", "wrld_x:1~" + ("group" + "(" + "g1" + ")") + "");
    TaggedOwnerDecides("u1", ["g1"], p, "wrld_x:1~", "group", "g1", "");
  }

  /** u1 at wrld_x:1~hidden(u9) is dropped when u9 is not an allowed owner. */
  lemma UnlistedHiddenOwnerDropped()
    ensures !Forward("u1", ["g1"], FriendLocationEvent("u1", "wrld_x:1~" + ("hidden" + "(" + "u9" + ")") + ""))
  {
    var p := FriendLocationEvent("u1", "wrld_x:1~" + ("hidden" + "(" + "u9" + ")") + "");
    TaggedOwnerDecides("u1", ["g1"], p, "wrld_x:1~", "hidden", "u9", "");
  }
}
