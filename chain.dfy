/**
 * BuildPredicateChain (event.go) and buildPredicateChain
 * (cmd/delivery/main.go): the ordered, short-circuiting OR of a list of
 * predicates over a decoded payload.
 */
module PredicateChain {
  import opened Payload

  /** The value of the chain: some predicate, tried in order, holds. */
  function ChainHolds(predicates: seq<Payload -> bool>, p: Payload): bool
  {
    predicates != [] && (predicates[0](p) || ChainHolds(predicates[1..], p))
  }

  /** The chain holds exactly when one of its predicates holds; an empty chain is false. */
  lemma {:induction false} ChainHoldsIffSome(predicates: seq<Payload -> bool>, p: Payload)
    ensures ChainHolds(predicates, p) <==> exists i :: 0 <= i < |predicates| && predicates[i](p)
  {
    if predicates != [] {
      ChainHoldsIffSome(predicates[1..], p);
      if exists i :: 0 <= i < |predicates| && predicates[i](p) {
        var i :| 0 <= i < |predicates| && predicates[i](p);
        if i > 0 {
          assert predicates[1..][i - 1](p);
        }
      }
    }
  }

  /** Chaining two lists is the OR of the two chains. */
  lemma {:induction false} ChainAppend(a: seq<Payload -> bool>, b: seq<Payload -> bool>, p: Payload)
    ensures ChainHolds(a + b, p) == (ChainHolds(a, p) || ChainHolds(b, p))
  {
    if a != [] {
      assert (a + b)[1..] == a[1..] + b;
      ChainAppend(a[1..], b, p);
    } else {
      assert a + b == b;
    }
  }

  /**
   * The loop of the chain's closure: call the predicates in order and
   * return true at the first that holds. `called` is how many predicates
   * were called: up to and including the first true one, or all of them.
   */
  method EvaluateChain(predicates: seq<Payload -> bool>, p: Payload) returns (result: bool, called: nat)
    ensures result == ChainHolds(predicates, p)
    ensures result <==> exists i :: 0 <= i < |predicates| && predicates[i](p)
    ensures called <= |predicates|
    ensures result ==> 0 < called && predicates[called - 1](p)
    ensures !result ==> called == |predicates|
    ensures forall k :: 0 <= k < called - 1 ==> !predicates[k](p)
  {
    ChainHoldsIffSome(predicates, p);
    called := 0;
    while called < |predicates|
      invariant called <= |predicates|
      invariant forall k :: 0 <= k < called ==> !predicates[k](p)
    {
      var pred := predicates[called];
      called := called + 1;
      if pred(p) {
        return true, called;
      }
    }
    return false, called;
  }
}
