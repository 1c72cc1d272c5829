/**
 * The registry behind newBroadcasterBuilder (server.go, and the identical
 * copy in cmd/delivery/server.go): a map of live subscriber channels that
 * registration adds to and cleanup removes from, and the fan-out loop that
 * copies the live set and then sends each inbox value to every copied
 * channel.
 *
 * Channels are numbered by registration order. The model runs one operation
 * at a time: it records which channels are live, which were closed, the order
 * of the close calls, and what each channel has received so far.
 */
module Broadcaster {
  import opened Wrappers

  class Registry {
    /** The keys of the map m: the channels currently registered. */
    var live: set<nat>
    /** The channels that cleanup has closed. */
    var closed: set<nat>
    /** Every close(ch) call, in order. */
    var closeLog: seq<nat>
    /** Channels 0 .. nextId - 1 have been handed out by registration. */
    var nextId: nat
    /** The values each handed-out channel has received, in order. */
    var delivered: map<nat, seq<string>>

    /**
     * The registry invariant: live channels were handed out; a channel is
     * closed iff it was handed out and is no longer live; each channel was
     * closed at most once.
     */
    ghost predicate Valid()
      reads this
    {
      && (forall c: nat :: c in live ==> c < nextId)
      && (forall c: nat :: c in closed <==> c < nextId && c !in live)
      && (forall c: nat :: c in delivered <==> c < nextId)
      && NoDuplicates(closeLog)
      && (forall c :: c in closeLog <==> c in closed)
    }

    /** newBroadcasterBuilder: an empty registry. */
    constructor ()
      ensures Valid()
      ensures live == {} && closed == {} && closeLog == [] && nextId == 0 && delivered == map[]
    {
      live, closed, closeLog, nextId, delivered := {}, {}, [], 0, map[];
    }

    /** Registration: make a new channel and add it to the registry. */
    method Register() returns (ch: nat)
      requires Valid()
      modifies this
      ensures Valid()
      ensures ch !in old(live) && ch !in old(closed) && ch !in old(delivered)
      ensures live == old(live) + {ch}
      ensures closed == old(closed) && closeLog == old(closeLog)
      ensures delivered == old(delivered)[ch := []]
      ensures nextId == old(nextId) + 1
    {
      ch := nextId;
      nextId := nextId + 1;
      live := live + {ch};
      delivered := delivered[ch := []];
    }

    /**
     * The cleanup function returned with ch: the first call deletes ch from
     * the registry and closes it; any later call finds ch missing and returns.
     */
    method Cleanup(ch: nat)
      requires Valid() && ch < nextId
      modifies this
      ensures Valid()
      ensures old(ch in live) ==>
        live == old(live) - {ch} && closed == old(closed) + {ch} && closeLog == old(closeLog) + [ch]
      ensures old(ch !in live) ==>
        live == old(live) && closed == old(closed) && closeLog == old(closeLog)
      ensures nextId == old(nextId) && delivered == old(delivered)
    {
      if ch !in live {
        // already cleaned up: closing again would panic
        return;
      }
      assert ch !in closed && ch !in closeLog;
      live := live - {ch};
      closed := closed + {ch};
      closeLog := closeLog + [ch];
    }

    /** The copy taken under the lock: every live channel, each once, in map order. */
    method TakeSnapshot() returns (living: seq<nat>)
      requires Valid()
      ensures NoDuplicates(living)
      ensures forall c :: c in living <==> c in live
    {
      living := [];
      var rest := live;
      while rest != {}
        invariant rest <= live
        invariant forall c :: c in living <==> c in live && c !in rest
        invariant NoDuplicates(living)
        decreases |rest|
      {
        var c :| c in rest;
        living := living + [c];
        rest := rest - {c};
      }
    }

    /**
     * The send loop over the copy: each copied channel receives v once. The
     * copied channels must still be live: in Go a send on a channel that
     * cleanup closed in the meantime panics.
     */
    method SendAll(living: seq<nat>, v: string)
      requires Valid() && NoDuplicates(living)
      requires forall c :: c in living ==> c in live
      modifies this
      ensures Valid()
      ensures live == old(live) && closed == old(closed) && closeLog == old(closeLog) && nextId == old(nextId)
      ensures delivered.Keys == old(delivered).Keys
      ensures forall c :: c in delivered ==>
        delivered[c] == if c in living then old(delivered)[c] + [v] else old(delivered)[c]
    {
      var i := 0;
      while i < |living|
        invariant i <= |living|
        invariant Valid()
        invariant live == old(live) && closed == old(closed) && closeLog == old(closeLog) && nextId == old(nextId)
        invariant delivered.Keys == old(delivered).Keys
        invariant forall c :: c in delivered ==>
          delivered[c] == if c in living[..i] then old(delivered)[c] + [v] else old(delivered)[c]
      {
        var c := living[i];
        assert c in living && c in live && c !in living[..i];
        delivered := delivered[c := delivered[c] + [v]];
        assert living[..i + 1] == living[..i] + [c];
        i := i + 1;
      }
      assert living[..i] == living;
    }

    /** One iteration of the fan-out loop: snapshot, then send v to every channel in it. */
    method Broadcast(v: string)
      requires Valid()
      modifies this
      ensures Valid()
      ensures live == old(live) && closed == old(closed) && closeLog == old(closeLog) && nextId == old(nextId)
      ensures delivered.Keys == old(delivered).Keys
      ensures forall c :: c in delivered ==>
        delivered[c] == if c in live then old(delivered)[c] + [v] else old(delivered)[c]
    {
      var living := TakeSnapshot();
      SendAll(living, v);
    }

    /**
     * The fan-out goroutine over a finite inbox, with no registration in
     * between: every live channel receives the whole inbox in order, and
     * every other channel receives nothing.
     */
    method Run(inbox: seq<string>)
      requires Valid()
      modifies this
      ensures Valid()
      ensures live == old(live) && closed == old(closed) && closeLog == old(closeLog) && nextId == old(nextId)
      ensures delivered.Keys == old(delivered).Keys
      ensures forall c :: c in delivered ==>
        delivered[c] == if c in live then old(delivered)[c] + inbox else old(delivered)[c]
    {
      var i := 0;
      while i < |inbox|
        invariant i <= |inbox|
        invariant Valid()
        invariant live == old(live) && closed == old(closed) && closeLog == old(closeLog) && nextId == old(nextId)
        invariant delivered.Keys == old(delivered).Keys
        invariant forall c :: c in delivered ==>
          delivered[c] == if c in live then old(delivered)[c] + inbox[..i] else old(delivered)[c]
      {
        Broadcast(inbox[i]);
        assert inbox[..i + 1] == inbox[..i] + [inbox[i]];
        i := i + 1;
      }
      assert inbox[..i] == inbox;
    }
  }

  /**
   * A registration between the snapshot and the sends: the new channel is
   * live when the sends happen but is not in the copy, so it receives nothing.
   */
  method LateRegistrationMissesValue(r: Registry, v: string) returns (late: nat)
    requires r.Valid()
    modifies r
    ensures r.Valid()
    ensures late !in old(r.live) && late in r.live && r.delivered[late] == []
    ensures forall c :: c in old(r.live) ==> c in r.delivered && r.delivered[c] == old(r.delivered)[c] + [v]
  {
    var living := r.TakeSnapshot();
    late := r.Register();
    r.SendAll(living, v);
  }

  /** Calling cleanup twice has the effect of calling it once: one close, no error. */
  method CleanupTwice(r: Registry, ch: nat)
    requires r.Valid() && ch in r.live
    modifies r
    ensures r.Valid()
    ensures r.live == old(r.live) - {ch} && r.closed == old(r.closed) + {ch}
    ensures r.closeLog == old(r.closeLog) + [ch]
    ensures r.delivered == old(r.delivered)
  {
    r.Cleanup(ch);
    r.Cleanup(ch);
  }
}
