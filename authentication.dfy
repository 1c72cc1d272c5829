/**
 * The token check in front of the websocket endpoint. Two versions exist:
 * authenticationMiddleware in server.go and cmd/delivery/server.go reads
 * only the authToken query parameter; AuthenticationMiddleware in
 * middleware/authentication.go takes the first non-empty of authToken and
 * auth (getQueryParamAny). The request's query is a map from parameter name
 * to its first value.
 */
module Authentication {

  type Query = map<string, string>

  /** url.Values.Get: the value of key, or "" when it is absent. */
  function Get(q: Query, key: string): (v: string)
    ensures key !in q ==> v == ""
    ensures key in q ==> v == q[key]
  {
    if key in q then q[key] else ""
  }

  /** The value of the first key, in order, whose query value is non-empty; "" if there is none. */
  function FirstNonEmpty(q: Query, keys: seq<string>): string
  {
    if keys == [] then ""
    else if Get(q, keys[0]) != "" then Get(q, keys[0])
    else FirstNonEmpty(q, keys[1..])
  }

  /**
   * FirstNonEmpty is "" iff every key is missing or empty; otherwise it is
   * the value of some key all of whose predecessors are missing or empty.
   */
  lemma {:induction false} FirstNonEmptySpec(q: Query, keys: seq<string>)
    ensures FirstNonEmpty(q, keys) == "" <==> forall i :: 0 <= i < |keys| ==> Get(q, keys[i]) == ""
    ensures FirstNonEmpty(q, keys) != "" ==>
      exists i :: 0 <= i < |keys| && Get(q, keys[i]) == FirstNonEmpty(q, keys)
                  && forall j :: 0 <= j < i ==> Get(q, keys[j]) == ""
  {
    if keys != [] && Get(q, keys[0]) == "" {
      FirstNonEmptySpec(q, keys[1..]);
      var v := FirstNonEmpty(q, keys);
      if v != "" {
        var i :| 0 <= i < |keys[1..]| && Get(q, keys[1..][i]) == v
                 && forall j :: 0 <= j < i ==> Get(q, keys[1..][j]) == "";
        assert Get(q, keys[i + 1]) == v;
        forall j | 0 <= j < i + 1
          ensures Get(q, keys[j]) == ""
        {
          if j > 0 {
            assert keys[j] == keys[1..][j - 1];
          }
        }
      }
      forall i | 0 <= i < |keys[1..]|
        ensures keys[1..][i] == keys[i + 1]
      {
      }
    }
  }

  /**
   * getQueryParamAny: look the keys up in order and return the first
   * non-empty value, or "" when every key is missing or empty.
   */
  method GetQueryParamAny(q: Query, keys: seq<string>) returns (v: string)
    ensures v == FirstNonEmpty(q, keys)
    ensures v == "" <==> forall i :: 0 <= i < |keys| ==> Get(q, keys[i]) == ""
    ensures v != "" ==>
      exists i :: 0 <= i < |keys| && Get(q, keys[i]) == v && forall j :: 0 <= j < i ==> Get(q, keys[j]) == ""
  {
    FirstNonEmptySpec(q, keys);
    var n := 0;
    while n < |keys|
      invariant n <= |keys|
      invariant forall j :: 0 <= j < n ==> Get(q, keys[j]) == ""
      invariant FirstNonEmpty(q, keys) == FirstNonEmpty(q, keys[n..])
    {
      var value := Get(q, keys[n]);
      if value != "" {
        return value;
      }
      assert keys[n..][1..] == keys[n + 1..];
      n := n + 1;
    }
    return "";
  }

  /** When authToken and auth are both given, authToken wins. */
  lemma AuthTokenPreferred(q: Query)
    requires Get(q, "authToken") != "" && Get(q, "auth") != ""
    ensures FirstNonEmpty(q, ["authToken", "auth"]) == Get(q, "authToken")
  {
    FirstOfTwo(q, "authToken", "auth");
  }

  /** Looking up two keys: the first one's value unless it is empty, then the second one's. */
  lemma FirstOfTwo(q: Query, a: string, b: string)
    ensures FirstNonEmpty(q, [a, b]) == if Get(q, a) != "" then Get(q, a) else Get(q, b)
  {
    var tail := [a, b][1..];
    assert tail == [b];
    var empty := tail[1..];
    assert empty == [];
    assert FirstNonEmpty(q, empty) == "";
    assert FirstNonEmpty(q, tail) == Get(q, b);
  }

  /** With no keys to look up the result is "". */
  lemma NoKeysGiveEmpty(q: Query)
    ensures FirstNonEmpty(q, []) == ""
  {
  }

  /** What a middleware does with a request: call next, or answer with a status and a body. */
  datatype Decision = Next | Reject(status: int, body: string)

  const StatusUnauthorized := 401
  const UnauthorizedBody := "{\"message\":\"unauthorized\"}"

  const Unauthorized := Reject(StatusUnauthorized, UnauthorizedBody)

  /** authenticationMiddleware(acceptToken) in server.go and cmd/delivery/server.go. */
  function TokenCheck(acceptToken: string, q: Query): (d: Decision)
    ensures d == Next <==> Get(q, "authToken") == acceptToken
    ensures d != Next ==> d == Reject(401, "{\"message\":\"unauthorized\"}")
  {
    if Get(q, "authToken") != acceptToken then Unauthorized else Next
  }

  /** AuthenticationMiddleware(acceptToken) in middleware/authentication.go. */
  function AuthenticationMiddleware(acceptToken: string, q: Query): (d: Decision)
    ensures d == Next <==> FirstNonEmpty(q, ["authToken", "auth"]) == acceptToken
    ensures d != Next ==> d == Reject(401, "{\"message\":\"unauthorized\"}")
  {
    if FirstNonEmpty(q, ["authToken", "auth"]) != acceptToken then Unauthorized else Next
  }

  /** The middleware version passes a request that carries the token under auth only. */
  lemma AuthAloneAccepted(acceptToken: string, q: Query)
    requires acceptToken != "" && Get(q, "authToken") == "" && Get(q, "auth") == acceptToken
    ensures AuthenticationMiddleware(acceptToken, q) == Next
    ensures TokenCheck(acceptToken, q) != Next
  {
    FirstOfTwo(q, "authToken", "auth");
  }

  /** With an empty accepted token, a request with neither parameter passes both checks. */
  lemma EmptyAcceptTokenAcceptsBareRequest(q: Query)
    requires Get(q, "authToken") == "" && Get(q, "auth") == ""
    ensures AuthenticationMiddleware("", q) == Next
    ensures TokenCheck("", q) == Next
  {
    FirstOfTwo(q, "authToken", "auth");
  }
}
