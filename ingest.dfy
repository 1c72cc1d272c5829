/**
 * One ingestion step: ConnectToSource (event.go) and connectToSource
 * (cmd/delivery/main.go) turn the results of following the log into
 * messages for the broadcaster. The follower's results are given as a
 * sequence, and JSON decoding as a function from a line to a decode result.
 */
module Ingest {
  import opened Wrappers
  import opened Payload

  /** One result of the log follower: a line, or a read error. */
  datatype TailResult = Line(body: string) | TailError

  /** The outcome of decoding one line as a JSON object. */
  datatype Decoded = Decoded(payload: Payload) | DecodeError

  /** Which step failed: following the log ("tail: ...") or decoding a line ("parse event: ..."). */
  datatype ErrorKind = TailFailed | ParseFailed

  /** Message[string]: a forwarded body, or an error. */
  datatype Message = Body(body: string) | Err(kind: ErrorKind)

  /** What one tail result contributes to the output: at most one message. */
  function Step(v: TailResult, decode: string -> Decoded, accept: Payload -> bool): (out: seq<Message>)
    ensures |out| <= 1
    ensures v.TailError? ==> out == [Err(TailFailed)]
    ensures v.Line? && decode(v.body).DecodeError? ==> out == [Err(ParseFailed)]
    ensures v.Line? && decode(v.body).Decoded? ==>
      var payload := decode(v.body).payload;
      out == if accept(payload) && GetString(payload, "raw").Some? then [Body(GetString(payload, "raw").value)] else []
  {
    match v
    case TailError => [Err(TailFailed)]
    case Line(body) =>
      match decode(body)
      case DecodeError => [Err(ParseFailed)]
      case Decoded(payload) =>
        if accept(payload) then
          match GetString(payload, "raw")
          case Some(raw) => [Body(raw)]
          case None => []
        else []
  }

  /** The output stream for a finite prefix of the follower's results. */
  function ConnectToSource(results: seq<TailResult>, decode: string -> Decoded, accept: Payload -> bool): (out: seq<Message>)
  {
    if results == [] then []
    else Step(results[0], decode, accept) + ConnectToSource(results[1..], decode, accept)
  }

  /** The loop of the goroutine: handle each tail result in turn, sending what it yields. */
  method Run(results: seq<TailResult>, decode: string -> Decoded, accept: Payload -> bool) returns (sent: seq<Message>)
    ensures sent == ConnectToSource(results, decode, accept)
  {
    sent := [];
    var i := 0;
    while i < |results|
      invariant i <= |results|
      invariant sent == ConnectToSource(results[..i], decode, accept)
    {
      ConnectToSourceAppend(results[..i], [results[i]], decode, accept);
      assert results[..i + 1] == results[..i] + [results[i]];
      sent := sent + Step(results[i], decode, accept);
      i := i + 1;
    }
    assert results[..i] == results;
  }

  /** The output of a concatenation is the concatenation of the outputs: order is preserved. */
  lemma {:induction false} ConnectToSourceAppend(a: seq<TailResult>, b: seq<TailResult>,
                                                 decode: string -> Decoded, accept: Payload -> bool)
    ensures ConnectToSource(a + b, decode, accept)
         == ConnectToSource(a, decode, accept) + ConnectToSource(b, decode, accept)
  {
    if a == [] {
      assert a + b == b;
    } else {
      assert (a + b)[1..] == a[1..] + b;
      ConnectToSourceAppend(a[1..], b, decode, accept);
    }
  }

  /** A failing result yields one error message and processing goes on with the rest. */
  lemma ErrorDoesNotStop(v: TailResult, rest: seq<TailResult>, decode: string -> Decoded, accept: Payload -> bool)
    requires v.TailError? || decode(v.body).DecodeError?
    ensures ConnectToSource([v] + rest, decode, accept)
         == [Err(if v.TailError? then TailFailed else ParseFailed)] + ConnectToSource(rest, decode, accept)
  {
    assert ([v] + rest)[1..] == rest;
  }

  /** Whether a tail result fails to give a payload. */
  predicate Fails(v: TailResult, decode: string -> Decoded)
  {
    v.TailError? || decode(v.body).DecodeError?
  }

  function CountFailures(results: seq<TailResult>, decode: string -> Decoded): nat
  {
    if results == [] then 0 else (if Fails(results[0], decode) then 1 else 0) + CountFailures(results[1..], decode)
  }

  function CountErrors(out: seq<Message>): nat
  {
    if out == [] then 0 else (if out[0].Err? then 1 else 0) + CountErrors(out[1..])
  }

  lemma {:induction false} CountErrorsAppend(a: seq<Message>, b: seq<Message>)
    ensures CountErrors(a + b) == CountErrors(a) + CountErrors(b)
  {
    if a == [] {
      assert a + b == b;
    } else {
      assert (a + b)[1..] == a[1..] + b;
      CountErrorsAppend(a[1..], b);
    }
  }

  /** One error message per tail error or decode failure, and none for anything else. */
  lemma {:induction false} ErrorPerFailure(results: seq<TailResult>, decode: string -> Decoded, accept: Payload -> bool)
    ensures CountErrors(ConnectToSource(results, decode, accept)) == CountFailures(results, decode)
  {
    if results != [] {
      ErrorPerFailure(results[1..], decode, accept);
      CountErrorsAppend(Step(results[0], decode, accept), ConnectToSource(results[1..], decode, accept));
    }
  }

  /** Every forwarded body is the raw string of a decoded payload that the predicate accepted. */
  lemma {:induction false} BodiesComeFromAcceptedPayloads(results: seq<TailResult>, decode: string -> Decoded,
                                                          accept: Payload -> bool, k: int)
    requires 0 <= k < |ConnectToSource(results, decode, accept)|
    requires ConnectToSource(results, decode, accept)[k].Body?
    ensures exists i :: 0 <= i < |results| && results[i].Line? && decode(results[i].body).Decoded?
              && accept(decode(results[i].body).payload)
              && GetString(decode(results[i].body).payload, "raw")
                 == Some(ConnectToSource(results, decode, accept)[k].body)
  {
    var head := Step(results[0], decode, accept);
    var out := ConnectToSource(results, decode, accept);
    if k < |head| {
      assert out[k] == head[k];
      assert results[0].Line?;
    } else {
      BodiesComeFromAcceptedPayloads(results[1..], decode, accept, k - |head|);
      var i :| 0 <= i < |results[1..]| && results[1..][i].Line? && decode(results[1..][i].body).Decoded?
               && accept(decode(results[1..][i].body).payload)
               && GetString(decode(results[1..][i].body).payload, "raw")
                  == Some(ConnectToSource(results[1..], decode, accept)[k - |head|].body);
      assert results[i + 1] == results[1..][i];
    }
  }

  /** The output is never longer than the input. */
  lemma {:induction false} OutputBounded(results: seq<TailResult>, decode: string -> Decoded, accept: Payload -> bool)
    ensures |ConnectToSource(results, decode, accept)| <= |results|
  {
    if results != [] {
      OutputBounded(results[1..], decode, accept);
    }
  }
}
