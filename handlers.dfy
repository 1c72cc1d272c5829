/**
 * Handler composition: newHandlerBuilder (server.go and cmd/delivery/server.go)
 * wraps a final handler in a list of middlewares so that the first one in
 * the list is the outermost. A handler is modelled as the stack of
 * middlewares in front of the websocket handler, and serving a request as
 * walking that stack from the outside in.
 */
module Handlers {
  import opened Authentication

  /** The middlewares that the servers put in front of the websocket handler. */
  datatype Middleware =
    | RequestLog                   // requestLogMiddleware: logs and calls next
    | TokenAuth(acceptToken: string)  // authenticationMiddleware in the two servers
    | QueryAuth(acceptToken: string)  // AuthenticationMiddleware in middleware/authentication.go

  /** A handler: the final (websocket) handler, or a middleware applied to an inner handler. */
  datatype Handler = Final | Wrap(layer: Middleware, inner: Handler)

  /** The middlewares a request meets before the final handler, outermost first. */
  function Layers(h: Handler): seq<Middleware>
  {
    match h
    case Final => []
    case Wrap(m, inner) => [m] + Layers(inner)
  }

  /** ms[0](ms[1](...ms[|ms|-1](final)...)). */
  function Nest(ms: seq<Middleware>, final: Handler): Handler
  {
    if ms == [] then final else Wrap(ms[0], Nest(ms[1..], final))
  }

  /**
   * The closure returned by newHandlerBuilder(middlewares...), applied to
   * final: wraps from the last middleware to the first.
   */
  method NewHandlerBuilder(ms: seq<Middleware>, final: Handler) returns (h: Handler)
    ensures h == Nest(ms, final)
    ensures Layers(h) == ms + Layers(final)
    ensures ms == [] ==> h == final
  {
    h := final;
    var i := 0;
    while i < |ms|
      invariant i <= |ms|
      invariant h == Nest(ms[|ms| - i..], final)
    {
      assert ms[|ms| - i - 1..][1..] == ms[|ms| - i..];
      h := Wrap(ms[|ms| - i - 1], h);
      i := i + 1;
    }
    assert ms[|ms| - i..] == ms;
    NestLayers(ms, final);
  }

  /** Nesting puts the middlewares in front of the final handler in list order, first outermost. */
  lemma {:induction false} NestLayers(ms: seq<Middleware>, final: Handler)
    ensures Layers(Nest(ms, final)) == ms + Layers(final)
  {
    if ms != [] {
      NestLayers(ms[1..], final);
      assert [ms[0]] + ms[1..] == ms;
    }
  }

  /** Building twice composes: the outer list goes in front of the inner one. */
  lemma {:induction false} NestAppend(a: seq<Middleware>, b: seq<Middleware>, final: Handler)
    ensures Nest(a + b, final) == Nest(a, Nest(b, final))
  {
    if a == [] {
      assert a + b == b;
    } else {
      assert (a + b)[1..] == a[1..] + b;
      NestAppend(a[1..], b, final);
    }
  }

  /** A builder with one middleware wraps the final handler once. */
  lemma NestOne(m: Middleware, final: Handler)
    ensures Nest([m], final) == Wrap(m, final)
  {
    var rest := [m][1..];
    assert rest == [];
    assert Nest(rest, final) == final;
  }

  /** What a middleware decides for a request with query q. */
  function Decide(m: Middleware, q: Query): (d: Decision)
    ensures m.RequestLog? ==> d == Next
    ensures m.TokenAuth? ==> d == TokenCheck(m.acceptToken, q)
    ensures m.QueryAuth? ==> d == AuthenticationMiddleware(m.acceptToken, q)
  {
    match m
    case RequestLog => Next
    case TokenAuth(t) => TokenCheck(t, q)
    case QueryAuth(t) => AuthenticationMiddleware(t, q)
  }

  /** The response to a request: the final handler runs, or some middleware answers. */
  datatype Outcome = Reached | Rejected(status: int, body: string)

  function Serve(h: Handler, q: Query): Outcome
  {
    match h
    case Final => Reached
    case Wrap(m, inner) =>
      match Decide(m, q)
      case Next => Serve(inner, q)
      case Reject(status, body) => Rejected(status, body)
  }

  /** Every middleware in ls calls next for q. */
  predicate AllPass(ls: seq<Middleware>, q: Query)
  {
    forall i :: 0 <= i < |ls| ==> Decide(ls[i], q) == Next
  }

  /** ls[i] is the first middleware in ls that rejects q. */
  predicate FirstReject(ls: seq<Middleware>, q: Query, i: int)
  {
    0 <= i < |ls| && Decide(ls[i], q).Reject? && forall j :: 0 <= j < i ==> Decide(ls[j], q) == Next
  }

  lemma AllPassCons(m: Middleware, ls: seq<Middleware>, q: Query)
    ensures AllPass([m] + ls, q) <==> Decide(m, q) == Next && AllPass(ls, q)
  {
    var ms := [m] + ls;
    assert ms[0] == m;
    assert forall i :: 0 <= i < |ls| ==> ms[i + 1] == ls[i];
  }

  lemma FirstRejectCons(m: Middleware, ls: seq<Middleware>, q: Query, i: int)
    requires Decide(m, q) == Next && FirstReject(ls, q, i)
    ensures FirstReject([m] + ls, q, i + 1)
  {
    var ms := [m] + ls;
    assert ms[i + 1] == ls[i];
    forall j | 0 <= j < i + 1
      ensures Decide(ms[j], q) == Next
    {
      if j > 0 {
        assert ms[j] == ls[j - 1];
      }
    }
  }

  /**
   * A request reaches the final handler iff every middleware in front of it
   * calls next; otherwise the answer is the first rejecting one's.
   */
  lemma {:induction false} ServeReachedIffAllPass(h: Handler, q: Query)
    ensures Serve(h, q) == Reached <==> AllPass(Layers(h), q)
    ensures Serve(h, q) != Reached ==>
      exists i :: FirstReject(Layers(h), q, i)
         && Serve(h, q) == Rejected(Decide(Layers(h)[i], q).status, Decide(Layers(h)[i], q).body)
  {
    match h
    case Final =>
    case Wrap(m, inner) =>
      ServeReachedIffAllPass(inner, q);
      AllPassCons(m, Layers(inner), q);
      assert Layers(h) == [m] + Layers(inner);
      if Decide(m, q).Reject? {
        assert FirstReject(Layers(h), q, 0);
      } else if Serve(inner, q) != Reached {
        var i :| FirstReject(Layers(inner), q, i)
                 && Serve(inner, q) == Rejected(Decide(Layers(inner)[i], q).status, Decide(Layers(inner)[i], q).body);
        FirstRejectCons(m, Layers(inner), q, i);
        assert Layers(h)[i + 1] == Layers(inner)[i];
      }
  }

  /** The handler of serve in cmd/delivery/server.go: newHandlerBuilder(authenticationMiddleware(t)). */
  function DeliveryStack(acceptToken: string): Handler
  {
    Nest([TokenAuth(acceptToken)], Final)
  }

  /** The handler of Serve in server.go: newHandlerBuilder(requestLog)(authenticationMiddleware(t)(ws)). */
  function ServerStack(acceptToken: string): Handler
  {
    Nest([RequestLog], Wrap(TokenAuth(acceptToken), Final))
  }

  /** Both servers let a request through to the websocket handler iff its authToken is the accepted token. */
  lemma StacksAdmitExactlyTheToken(acceptToken: string, q: Query)
    ensures Serve(DeliveryStack(acceptToken), q) == Reached <==> Get(q, "authToken") == acceptToken
    ensures Serve(ServerStack(acceptToken), q) == Reached <==> Get(q, "authToken") == acceptToken
    ensures Serve(DeliveryStack(acceptToken), q) != Reached ==>
              Serve(DeliveryStack(acceptToken), q) == Rejected(401, "{\"message\":\"unauthorized\"}")
    ensures Serve(ServerStack(acceptToken), q) != Reached ==>
              Serve(ServerStack(acceptToken), q) == Rejected(401, "{\"message\":\"unauthorized\"}")
  {
    NestOne(TokenAuth(acceptToken), Final);
    NestOne(RequestLog, Wrap(TokenAuth(acceptToken), Final));
  }

  /** The request log is transparent: putting it in front never changes the outcome. */
  lemma RequestLogTransparent(h: Handler, q: Query)
    ensures Serve(Wrap(RequestLog, h), q) == Serve(h, q)
  {
  }
}
