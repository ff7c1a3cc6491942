/** What every interleaving of enqueue, drop, completion and close keeps: exact byte accounts, a ready list without
    duplicates or losses, and turns. */
module FairSenderRuns {
  import opened Prelude
  import opened FairSender

  // ---- Byte totals -----------------------------------------------------------------------------

  ghost function Total(queues: map<string, Queue>): int {
    if queues == map[] then 0
    else
      var id :| id in queues;
      queues[id].bytes + Total(queues - {id})
  }

  lemma {:induction false} TotalSplit(queues: map<string, Queue>, id: string)
    requires id in queues
    ensures Total(queues) == queues[id].bytes + Total(queues - {id})
    decreases |queues|
  {
    var first :| first in queues && Total(queues) == queues[first].bytes + Total(queues - {first});
    if first != id {
      TotalSplit(queues - {first}, id);
      TotalSplit(queues - {id}, first);
      assert queues - {first} - {id} == queues - {id} - {first};
    }
  }

  lemma TotalUpdate(queues: map<string, Queue>, id: string, queue: Queue)
    ensures Total(queues[id := queue]) == Total(queues) + queue.bytes - (if id in queues then queues[id].bytes else 0)
  {
    TotalSplit(queues[id := queue], id);
    if id in queues {
      TotalSplit(queues, id);
      assert queues[id := queue] - {id} == queues - {id};
    } else {
      assert queues[id := queue] - {id} == queues;
    }
  }

  lemma {:induction false} SumBytesAppend(items: seq<Item>, more: seq<Item>)
    ensures SumBytes(items + more) == SumBytes(items) + SumBytes(more)
  {
    if more == [] {
      assert items + more == items;
    } else {
      var n := |more| - 1;
      assert (items + more)[..|items + more| - 1] == items + more[..n];
      SumBytesAppend(items, more[..n]);
    }
  }

  lemma SumBytesFirst(items: seq<Item>)
    requires items != []
    ensures SumBytes(items) == items[0].bytes + SumBytes(items[1..])
  {
    assert [items[0]] + items[1..] == items;
    assert [items[0]][..0] == [];
    SumBytesAppend([items[0]], items[1..]);
  }

  lemma {:induction false} SumBytesNonNegative(items: seq<Item>)
    ensures SumBytes(items) >= 0
  {
    if items != [] { SumBytesNonNegative(items[..|items| - 1]); }
  }

  lemma {:induction false} TotalAtLeast(queues: map<string, Queue>, id: string)
    requires id in queues && forall k :: k in queues ==> queues[k].bytes >= 0
    ensures Total(queues) >= queues[id].bytes
    decreases |queues|
  {
    TotalSplit(queues, id);
    if queues - {id} != map[] {
      var k :| k in queues - {id} && Total(queues - {id}) == (queues - {id})[k].bytes + Total(queues - {id} - {k});
      TotalAtLeast(queues - {id}, k);
    }
  }

  // ---- The invariant ---------------------------------------------------------------------------

  predicate InFlight(s: Sender, id: string) {
    s.flight.Some? && s.flight.value.streamId == id
  }

  function FlightBytes(s: Sender, id: string): int {
    if InFlight(s, id) then s.flight.value.item.bytes else 0
  }

  /** READY. A stream with pending frames that is not in flight is exactly once in the ready list; nothing else is. */
  ghost predicate ReadyOnce(s: Sender) {
    && Distinct(s.ready)
    && (forall id :: id in s.ready <==> id in s.queues && s.queues[id].ready)
    && (forall id :: id in s.queues ==> (s.queues[id].ready <==> s.queues[id].items != [] && !InFlight(s, id)))
  }

  /** BYTES. Each queue's count is its pending frames plus its own frame in flight, and the socket's is their sum. */
  ghost predicate BytesExact(s: Sender) {
    && (forall id :: id in s.queues ==> s.queues[id].bytes == SumBytes(s.queues[id].items) + FlightBytes(s, id))
    && (s.flight.Some? && !s.closed ==> s.flight.value.streamId in s.queues)
    && s.queuedBytes == Total(s.queues)
  }

  ghost predicate WithinLimits(limits: Limits, s: Sender) {
    && (forall id :: id in s.queues ==> s.queues[id].bytes <= limits.maxStreamQueuedBytes)
    && s.queuedBytes <= limits.maxSocketQueuedBytes
  }

  /** The socket is never idle while a frame waits. */
  predicate Busy(s: Sender) {
    !s.closed && s.socketOpen && s.ready != [] ==> s.flight.Some?
  }

  ghost predicate Invariant(limits: Limits, s: Sender) {
    && ReadyOnce(s) && BytesExact(s) && WithinLimits(limits, s) && Busy(s)
    && (s.closed ==> s.queues == map[])
  }

  /** The invariant without `Busy`: the states in which `#drain` is called. */
  ghost predicate Settled(limits: Limits, s: Sender) {
    ReadyOnce(s) && BytesExact(s) && WithinLimits(limits, s) && (s.closed ==> s.queues == map[])
  }

  lemma ClosedKeeps(limits: Limits, s: Sender)
    ensures Invariant(limits, Close(s))
  {}

  lemma DrainKeeps(limits: Limits, s: Sender, sendThrows: bool)
    requires Settled(limits, s)
    ensures Invariant(limits, Drain(s, sendThrows))
  {
    if !(s.closed || s.flight.Some? || !s.socketOpen || s.ready == []) {
      var id := s.ready[0];
      assert id in s.ready;
      var queue := s.queues[id];
      if !sendThrows {
        var s' := Drain(s, sendThrows);
        var queue' := Queue(queue.items[1..], queue.bytes, false);
        TotalUpdate(s.queues, id, queue');
        SumBytesFirst(queue.items);
        forall other ensures other in s'.ready <==> other in s'.queues && s'.queues[other].ready {
          assert other in s.ready <==> other == id || other in s'.ready;
        }
      }
    }
  }

  lemma JoinedKeeps(limits: Limits, s: Sender, id: string, item: Item)
    requires Settled(limits, s) && !s.closed
    requires QueueOf(s, id).bytes + item.bytes <= limits.maxStreamQueuedBytes
    requires s.queuedBytes + item.bytes <= limits.maxSocketQueuedBytes
    ensures Settled(limits, Joined(s, id, item))
  {
    JoinedReady(s, id, item);
    JoinedBytes(s, id, item);
    hide ReadyOnce, BytesExact;
  }

  lemma JoinedReady(s: Sender, id: string, item: Item)
    requires ReadyOnce(s)
    ensures ReadyOnce(Joined(s, id, item))
  {
    var s' := Joined(s, id, item);
    forall other ensures other in s'.ready <==> other in s'.queues && s'.queues[other].ready {
      assert other in s.ready <==> other in s.queues && s.queues[other].ready;
      assert other in s'.ready <==> other in s.ready || (s'.ready != s.ready && other == id);
    }
  }

  lemma JoinedBytes(s: Sender, id: string, item: Item)
    requires BytesExact(s) && !s.closed
    ensures BytesExact(Joined(s, id, item))
  {
    var s' := Joined(s, id, item);
    var queue := QueueOf(s, id);
    TotalUpdate(s.queues, id, s'.queues[id]);
    SumBytesAppend(queue.items, [item]);
    assert [item][..0] == [];
  }

  lemma TouchedKeeps(limits: Limits, s: Sender, id: string)
    requires Invariant(limits, s) && !s.closed
    ensures Invariant(limits, Touched(s, id))
  {
    TotalUpdate(s.queues, id, QueueOf(s, id));
  }

  lemma EnqueueKeeps(limits: Limits, s: Sender, id: string, item: Item, force: bool, sendThrows: bool)
    requires Invariant(limits, s)
    ensures Invariant(limits, Enqueue(limits, s, id, item, force, sendThrows).0)
  {
    if !s.closed && s.socketOpen && item.bytes <= limits.maxFrameBytes {
      TouchedKeeps(limits, s, id);
      var queue := QueueOf(s, id);
      if queue.bytes + item.bytes <= limits.maxStreamQueuedBytes
        && s.queuedBytes + item.bytes <= limits.maxSocketQueuedBytes {
        JoinedKeeps(limits, Touched(s, id), id, item);
        DrainKeeps(limits, Joined(Touched(s, id), id, item), sendThrows);
      }
    }
  }

  lemma {:induction false} WithoutShape(ids: seq<string>, id: string)
    ensures forall other :: other in Without(ids, id) <==> other in ids && other != id
    ensures Distinct(ids) ==> Distinct(Without(ids, id))
    ensures |Without(ids, id)| <= |ids|
  {
    if ids != [] {
      WithoutShape(ids[1..], id);
      assert ids == [ids[0]] + ids[1..];
      if Distinct(ids) {
        assert Distinct(ids[1..]);
        assert ids[0] !in ids[1..];
      }
    }
  }

  lemma DropKeeps(limits: Limits, s: Sender, id: string)
    requires Invariant(limits, s)
    ensures Invariant(limits, Drop(s, id))
  {
    if id in s.queues {
      var s' := Drop(s, id);
      var queue := s.queues[id];
      WithoutShape(s.ready, id);
      SumBytesNonNegative(queue.items);
      if InFlight(s, id) {
        TotalUpdate(s.queues, id, s'.queues[id]);
      } else {
        TotalSplit(s.queues, id);
      }
    }
  }

  lemma LandedReady(s: Sender)
    requires ReadyOnce(s) && s.flight.Some?
    ensures ReadyOnce(Landed(s))
  {
    var id := s.flight.value.streamId;
    var s' := Landed(s);
    if id in s.queues {
      assert id !in s.ready;
      forall other ensures other in s'.ready <==> other in s'.queues && s'.queues[other].ready {
        assert other in s'.ready <==> other in s.ready || (other == id && s.queues[id].items != []);
      }
    }
  }

  lemma LandedBytes(s: Sender)
    requires BytesExact(s) && s.flight.Some?
    ensures BytesExact(Landed(s))
  {
    var id := s.flight.value.streamId;
    if id in s.queues {
      if s.queues[id].items != [] {
        TotalUpdate(s.queues, id, Landed(s).queues[id]);
      } else {
        TotalSplit(s.queues, id);
      }
    }
  }

  lemma LandedKeeps(limits: Limits, s: Sender)
    requires Invariant(limits, s) && s.flight.Some?
    ensures Settled(limits, Landed(s))
  {
    LandedReady(s);
    LandedBytes(s);
  }

  lemma CompleteKeeps(limits: Limits, s: Sender, error: bool, sendThrows: bool)
    requires Invariant(limits, s) && s.flight.Some?
    ensures Invariant(limits, Complete(s, error, sendThrows))
  {
    if !error {
      LandedKeeps(limits, s);
      DrainKeeps(limits, Landed(s), sendThrows);
    }
  }

  lemma NextKeeps(limits: Limits, s: Sender, op: Op, sendThrows: bool)
    requires Invariant(limits, s)
    ensures Invariant(limits, Next(limits, s, op, sendThrows))
  {
    match op
    case DoEnqueue(id, item, force) => EnqueueKeeps(limits, s, id, item, force, sendThrows);
    case DoDrop(id) => DropKeeps(limits, s, id);
    case DoComplete(error) => if s.flight.Some? { CompleteKeeps(limits, s, error, sendThrows); }
    case DoClose =>
    case SocketCloses =>
  }

  // ---- Runs ------------------------------------------------------------------------------------

  datatype Move = Move(op: Op, sendThrows: bool)

  function Run(limits: Limits, s: Sender, moves: seq<Move>): Sender {
    if moves == [] then s
    else
      var before := Run(limits, s, moves[..|moves| - 1]);
      Next(limits, before, moves[|moves| - 1].op, moves[|moves| - 1].sendThrows)
  }

  /** Every reachable state satisfies the invariant. */
  lemma {:induction false} RunKeeps(limits: Limits, s: Sender, moves: seq<Move>)
    requires Invariant(limits, s)
    ensures Invariant(limits, Run(limits, s, moves))
  {
    if moves != [] {
      var n := |moves| - 1;
      RunKeeps(limits, s, moves[..n]);
      NextKeeps(limits, Run(limits, s, moves[..n]), moves[n].op, moves[n].sendThrows);
    }
  }

  lemma ReachableStatesAreExact(limits: Limits, moves: seq<Move>)
    ensures Invariant(limits, Run(limits, IDLE, moves))
  {
    RunKeeps(limits, IDLE, moves);
  }

  // ---- Turns -----------------------------------------------------------------------------------

  function IdsOf(log: seq<Sent>): seq<string> {
    seq(|log|, i requires 0 <= i < |log| => log[i].streamId)
  }

  /** The streams ahead of `id` in the ready list. */
  function Ahead(ready: seq<string>, id: string): seq<string> {
    if ready == [] || ready[0] == id then [] else [ready[0]] + Ahead(ready[1..], id)
  }

  lemma {:induction false} AheadShape(ready: seq<string>, id: string)
    requires id in ready
    ensures var n := |Ahead(ready, id)|;
      n < |ready| && ready[n] == id && Ahead(ready, id) == ready[..n] && id !in Ahead(ready, id)
  {
    if ready[0] != id { AheadShape(ready[1..], id); }
  }

  lemma {:induction false} AheadOfLonger(ready: seq<string>, more: seq<string>, id: string)
    requires id in ready
    ensures Ahead(ready + more, id) == Ahead(ready, id)
  {
    if ready[0] != id {
      assert (ready + more)[1..] == ready[1..] + more;
      AheadOfLonger(ready[1..], more, id);
    }
  }

  lemma {:induction false} AheadWithout(ready: seq<string>, dropped: string, id: string)
    requires id in ready && dropped != id
    ensures Ahead(Without(ready, dropped), id) == Without(Ahead(ready, id), dropped)
  {
    if ready[0] != id {
      AheadWithout(ready[1..], dropped, id);
      var rest := Ahead(ready[1..], id);
      assert Ahead(ready, id)[1..] == rest;
      WithoutShape(ready[1..], dropped);
      if ready[0] != dropped {
        assert Without(ready, dropped)[1..] == Without(ready[1..], dropped);
        assert Without(Ahead(ready, id), dropped) == [ready[0]] + Without(rest, dropped);
      } else {
        assert Without(ready, dropped) == Without(ready[1..], dropped);
        assert Without(Ahead(ready, id), dropped) == Without(rest, dropped);
      }
    }
  }

  /** Since `s0`, where stream `id` was waiting, `id` has waited on: every frame sent since came from a different
      stream that was ahead of it then, and the streams ahead of it now are others of those. */
  ghost predicate StillWaiting(s0: Sender, s: Sender, id: string) {
    && id in s0.ready && id in s.ready && !s.closed
    && s0.log <= s.log
    && var turns := IdsOf(s.log[|s0.log|..]);
       && Distinct(turns + Ahead(s.ready, id))
       && forall other :: other in turns + Ahead(s.ready, id) ==> other in Ahead(s0.ready, id)
  }

  lemma WaitingDrain(limits: Limits, s0: Sender, s: Sender, id: string, sendThrows: bool)
    requires Settled(limits, s) && StillWaiting(s0, s, id)
    ensures var s' := Drain(s, sendThrows);
      s'.closed || (|s'.log| == |s.log| + 1 && s.log <= s'.log && s'.log[|s.log|].streamId == id)
        || StillWaiting(s0, s', id)
  {
    var s' := Drain(s, sendThrows);
    if !s'.closed && s' != s {
      var first := s.ready[0];
      assert first in s.ready;
      assert s'.log == s.log + [Sent(first, s.queues[first].items[0])];
      if first != id {
        var turns := IdsOf(s.log[|s0.log|..]);
        assert s'.log[|s0.log|..] == s.log[|s0.log|..] + [s'.log[|s.log|]];
        assert IdsOf(s'.log[|s0.log|..]) == turns + [first];
        assert Ahead(s.ready, id) == [first] + Ahead(s'.ready, id);
        assert turns + [first] + Ahead(s'.ready, id) == turns + Ahead(s.ready, id);
      }
    }
  }

  lemma WaitingReady(s0: Sender, s: Sender, s': Sender, id: string)
    requires StillWaiting(s0, s, id) && s'.log == s.log && !s'.closed && id in s'.ready
      && Ahead(s'.ready, id) == Ahead(s.ready, id)
    ensures StillWaiting(s0, s', id)
  {}

  lemma WaitingDrop(limits: Limits, s0: Sender, s: Sender, id: string, dropped: string)
    requires Invariant(limits, s) && StillWaiting(s0, s, id) && dropped != id
    ensures StillWaiting(s0, Drop(s, dropped), id)
  {
    var s' := Drop(s, dropped);
    if dropped in s.queues {
      var turns, ahead := IdsOf(s.log[|s0.log|..]), Ahead(s.ready, id);
      AheadWithout(s.ready, dropped, id);
      WithoutShape(s.ready, dropped);
      WithoutShape(ahead, dropped);
      DistinctParts(turns, ahead);
      DistinctWhole(turns, Without(ahead, dropped));
      forall other | other in turns + Ahead(s'.ready, id) ensures other in Ahead(s0.ready, id) {
        assert other in turns + ahead;
      }
    }
  }

  lemma DistinctParts(a: seq<string>, b: seq<string>)
    requires Distinct(a + b)
    ensures Distinct(a) && Distinct(b) && forall x :: x in a ==> x !in b
  {
    assert forall i :: 0 <= i < |a| ==> (a + b)[i] == a[i];
    assert forall i :: 0 <= i < |b| ==> (a + b)[|a| + i] == b[i];
  }

  lemma DistinctWhole(a: seq<string>, b: seq<string>)
    requires Distinct(a) && Distinct(b) && forall x :: x in a ==> x !in b
    ensures Distinct(a + b)
  {
    var c := a + b;
    forall i, j | 0 <= i < j < |c| ensures c[i] != c[j] {
      if i < |a| <= j { assert c[i] in a && c[j] in b; }
    }
  }

  lemma WaitingStep(limits: Limits, s0: Sender, s: Sender, id: string, op: Op, sendThrows: bool)
    requires Invariant(limits, s) && StillWaiting(s0, s, id) && op != DoDrop(id)
    ensures var s' := Next(limits, s, op, sendThrows);
      s'.closed || (|s'.log| == |s.log| + 1 && s.log <= s'.log && s'.log[|s.log|].streamId == id)
        || StillWaiting(s0, s', id)
  {
    match op
    case DoEnqueue(other, item, force) =>
      if s.socketOpen && item.bytes <= limits.maxFrameBytes {
        var s1 := Touched(s, other);
        TouchedKeeps(limits, s, other);
        WaitingReady(s0, s, s1, id);
        if QueueOf(s, other).bytes + item.bytes <= limits.maxStreamQueuedBytes
          && s.queuedBytes + item.bytes <= limits.maxSocketQueuedBytes {
          var s2 := Joined(s1, other, item);
          AheadOfLonger(s.ready, [other], id);
          WaitingReady(s0, s, s2, id);
          JoinedKeeps(limits, s1, other, item);
          WaitingDrain(limits, s0, s2, id, sendThrows);
        }
      }
    case DoDrop(dropped) => WaitingDrop(limits, s0, s, id, dropped);
    case DoComplete(error) =>
      if s.flight.Some? && !error {
        WaitingComplete(limits, s0, s, id, sendThrows);
      }
    case DoClose =>
    case SocketCloses =>
  }

  lemma WaitingComplete(limits: Limits, s0: Sender, s: Sender, id: string, sendThrows: bool)
    requires Invariant(limits, s) && StillWaiting(s0, s, id) && s.flight.Some?
    ensures var s' := Complete(s, false, sendThrows);
      s'.closed || (|s'.log| == |s.log| + 1 && s.log <= s'.log && s'.log[|s.log|].streamId == id)
        || StillWaiting(s0, s', id)
  {
    AheadOfLonger(s.ready, [s.flight.value.streamId], id);
    WaitingReady(s0, s, Landed(s), id);
    LandedKeeps(limits, s);
    WaitingDrain(limits, s0, Landed(s), id, sendThrows);
  }

  /** Whether the log since `s0` has reached stream `id`. */
  predicate SentSince(s0: Sender, s: Sender, id: string) {
    exists k :: |s0.log| <= k < |s.log| && s.log[k].streamId == id
  }

  lemma {:induction false} LogGrows(limits: Limits, s: Sender, moves: seq<Move>)
    requires Invariant(limits, s)
    ensures s.log <= Run(limits, s, moves).log
    ensures Run(limits, s, moves).closed || !s.closed
  {
    if moves != [] {
      var n := |moves| - 1;
      LogGrows(limits, s, moves[..n]);
      RunKeeps(limits, s, moves[..n]);
      StepLog(limits, Run(limits, s, moves[..n]), moves[n]);
    }
  }

  lemma StepLog(limits: Limits, s: Sender, move: Move)
    requires Invariant(limits, s)
    ensures var s' := Next(limits, s, move.op, move.sendThrows); s.log <= s'.log && (s.closed ==> s'.closed)
  {
    match move.op
    case DoComplete(error) =>
      if s.flight.Some? && !error { DrainLog(Landed(s), move.sendThrows); }
    case DoEnqueue(id, item, force) =>
      DrainLog(Joined(Touched(s, id), id, item), move.sendThrows);
    case _ =>
  }

  lemma {:induction false} DrainLog(s: Sender, sendThrows: bool)
    ensures s.log <= Drain(s, sendThrows).log && (s.closed ==> Drain(s, sendThrows).closed)
    decreases |s.ready|
  {
    if !(s.closed || s.flight.Some? || !s.socketOpen || s.ready == []) {
      var id := s.ready[0];
      var rest := s.(ready := s.ready[1..]);
      if id !in s.queues {
        DrainLog(rest, sendThrows);
      } else if s.queues[id].items == [] {
        DrainLog(rest.(queues := s.queues[id := s.queues[id].(ready := false)]), sendThrows);
      }
    }
  }

  /** A ready stream that is neither dropped nor cut off by a close is still waiting, or has been sent; while it waits,
      each frame sent belongs to a different stream that was ahead of it. */
  lemma {:induction false} BypassFromReady(limits: Limits, s0: Sender, moves: seq<Move>, id: string)
    requires Invariant(limits, s0) && !s0.closed && id in s0.ready
    requires forall k :: 0 <= k < |moves| ==> moves[k].op != DoDrop(id)
    ensures var s := Run(limits, s0, moves); s.closed || SentSince(s0, s, id) || StillWaiting(s0, s, id)
  {
    AheadShape(s0.ready, id);
    if moves == [] {
      assert IdsOf(s0.log[|s0.log|..]) == [];
      assert [] + Ahead(s0.ready, id) == Ahead(s0.ready, id);
    } else {
      var n := |moves| - 1;
      BypassFromReady(limits, s0, moves[..n], id);
      RunKeeps(limits, s0, moves[..n]);
      var s := Run(limits, s0, moves[..n]);
      StepLog(limits, s, moves[n]);
      LogGrows(limits, s0, moves[..n]);
      if !s.closed && !SentSince(s0, s, id) {
        WaitingStep(limits, s0, s, id, moves[n].op, moves[n].sendThrows);
      }
      var s' := Run(limits, s0, moves);
      if !s'.closed && SentSince(s0, s, id) {
        var k :| |s0.log| <= k < |s.log| && s.log[k].streamId == id;
        assert s'.log[k] == s.log[k];
      }
    }
  }

  lemma {:induction false} DistinctWithin(a: seq<string>, b: seq<string>)
    requires Distinct(a) && forall k :: 0 <= k < |a| ==> a[k] in b
    ensures |a| <= |b|
  {
    if a != [] {
      var i :| 0 <= i < |b| && b[i] == a[0];
      var rest := b[..i] + b[i + 1..];
      forall k | 0 <= k < |a[1..]| ensures a[1..][k] in rest {
        var j :| 0 <= j < |b| && b[j] == a[k + 1];
        assert a[k + 1] != a[0];
        assert if j < i then rest[j] == b[j] else rest[j - 1] == b[j];
      }
      DistinctWithin(a[1..], rest);
    }
  }

  /** The same from a moment at which one of the stream's own frames is in flight and its next one already waits: it is
      in flight still, with nothing sent since, or it landed at some move and has been waiting from there. */
  ghost predicate WaitsFromFlight(limits: Limits, s0: Sender, moves: seq<Move>, id: string) {
    var s := Run(limits, s0, moves);
    || (InFlight(s, id) && QueueOf(s, id).items != [] && s.log == s0.log)
    || exists k: nat :: k < |moves| && WaitsSince(s0, Run(limits, s0, moves[..k]), s, id)
  }

  ghost predicate WaitsSince(s0: Sender, landing: Sender, s: Sender, id: string) {
    InFlight(landing, id) && landing.log == s0.log && StillWaiting(Landed(landing), s, id)
  }

  lemma LandingStep(limits: Limits, s: Sender, id: string, sendThrows: bool)
    requires Invariant(limits, s) && !s.closed && InFlight(s, id) && QueueOf(s, id).items != []
    ensures var s' := Complete(s, false, sendThrows);
      s'.closed || SentSince(s, s', id) || StillWaiting(Landed(s), s', id)
  {
    var l := Landed(s);
    LandedKeeps(limits, s);
    assert id in l.ready;
    AheadShape(l.ready, id);
    assert IdsOf(l.log[|l.log|..]) + Ahead(l.ready, id) == Ahead(l.ready, id);
    hide Invariant, Settled, Drain;
    WaitingDrain(limits, l, l, id, sendThrows);
  }

  lemma FlightStep(limits: Limits, s: Sender, id: string, op: Op, sendThrows: bool)
    requires Invariant(limits, s) && !s.closed && InFlight(s, id) && QueueOf(s, id).items != [] && op != DoDrop(id)
    ensures var s' := Next(limits, s, op, sendThrows);
      || s'.closed || SentSince(s, s', id) || StillWaiting(Landed(s), s', id)
      || (InFlight(s', id) && QueueOf(s', id).items != [] && s'.log == s.log)
  {
    match op
    case DoComplete(error) => if !error { LandingStep(limits, s, id, sendThrows); }
    case DoDrop(dropped) => assert Drop(s, dropped).log == s.log;
    case _ =>
  }

  lemma {:induction false} BypassFromFlight(limits: Limits, s0: Sender, moves: seq<Move>, id: string)
    requires Invariant(limits, s0) && !s0.closed && InFlight(s0, id) && QueueOf(s0, id).items != []
    requires forall k :: 0 <= k < |moves| ==> moves[k].op != DoDrop(id)
    ensures var s := Run(limits, s0, moves); s.closed || SentSince(s0, s, id) || WaitsFromFlight(limits, s0, moves, id)
  {
    if moves != [] {
      var n := |moves| - 1;
      var s, last := Run(limits, s0, moves[..n]), moves[n];
      var s' := Run(limits, s0, moves);
      BypassFromFlight(limits, s0, moves[..n], id);
      RunKeeps(limits, s0, moves[..n]);
      StepLog(limits, s, last);
      LogGrows(limits, s0, moves[..n]);
      hide Invariant, Next, StillWaiting;
      if !s'.closed && !SentSince(s0, s, id) {
        if InFlight(s, id) && QueueOf(s, id).items != [] && s.log == s0.log {
          FlightStep(limits, s, id, last.op, last.sendThrows);
          if StillWaiting(Landed(s), s', id) { assert WaitsSince(s0, Run(limits, s0, moves[..n]), s', id); }
        } else {
          var k: nat :| k < n && WaitsSince(s0, Run(limits, s0, moves[..n][..k]), s, id);
          assert moves[..n][..k] == moves[..k];
          WaitingStep(limits, Landed(Run(limits, s0, moves[..k])), s, id, last.op, last.sendThrows);
          if StillWaiting(Landed(Run(limits, s0, moves[..k])), s', id) {
            assert WaitsSince(s0, Run(limits, s0, moves[..k]), s', id);
          }
        }
      } else if SentSince(s0, s, id) {
        var k :| |s0.log| <= k < |s.log| && s.log[k].streamId == id;
        assert s'.log[k] == s.log[k];
      }
    }
  }

  /** BOUNDED BYPASS. From any moment at which a stream has a frame waiting, whether another of its own is in flight or
      not, and unless it is dropped or the sender closes: until its next frame is sent, no other stream is sent
      twice. */
  lemma BoundedBypass(limits: Limits, s0: Sender, moves: seq<Move>, id: string)
    requires Invariant(limits, s0) && !s0.closed && QueueOf(s0, id).items != []
    requires forall k :: 0 <= k < |moves| ==> moves[k].op != DoDrop(id)
    ensures var s := Run(limits, s0, moves);
      s.closed || SentSince(s0, s, id) || (s0.log <= s.log && Distinct(IdsOf(s.log[|s0.log|..])))
  {
    LogGrows(limits, s0, moves);
    var s := Run(limits, s0, moves);
    var turns := IdsOf(s.log[|s0.log|..]);
    if InFlight(s0, id) {
      BypassFromFlight(limits, s0, moves, id);
    } else {
      assert id in s0.ready;
      BypassFromReady(limits, s0, moves, id);
    }
    if !s.closed && !SentSince(s0, s, id) && s.log != s0.log {
      DistinctParts(turns, Ahead(s.ready, id));
    }
  }

  lemma TurnFrom(base: Sender, s: Sender, id: string)
    requires StillWaiting(base, s, id)
    ensures |s.log| <= |base.log| + |Ahead(base.ready, id)|
  {
    DistinctWithin(IdsOf(s.log[|base.log|..]) + Ahead(s.ready, id), Ahead(base.ready, id));
  }

  /** The frame lands with nothing sent since `s0`, and then no more is sent than was ready. */
  predicate LandsBehind(s0: Sender, landing: Sender, s: Sender, id: string) {
    InFlight(landing, id) && landing.log == s0.log && |s.log| <= |s0.log| + |landing.ready|
  }

  /** Hence a ready stream is sent after at most as many frames as there were streams ahead of it, and one whose own
      frame was in flight after at most as many as were ready when that frame landed. */
  lemma TurnComes(limits: Limits, s0: Sender, moves: seq<Move>, id: string)
    requires Invariant(limits, s0) && !s0.closed && QueueOf(s0, id).items != []
    requires forall k :: 0 <= k < |moves| ==> moves[k].op != DoDrop(id)
    ensures var s := Run(limits, s0, moves);
      || s.closed || SentSince(s0, s, id)
      || if !InFlight(s0, id) then |s.log| <= |s0.log| + |Ahead(s0.ready, id)|
         else s.log == s0.log || exists k: nat :: k < |moves| && LandsBehind(s0, Run(limits, s0, moves[..k]), s, id)
  {
    var s := Run(limits, s0, moves);
    if !s.closed && !SentSince(s0, s, id) {
      if !InFlight(s0, id) {
        assert id in s0.ready;
        BypassFromReady(limits, s0, moves, id);
        TurnFrom(s0, s, id);
      } else {
        BypassFromFlight(limits, s0, moves, id);
        if s.log != s0.log {
          var k: nat :| k < |moves| && WaitsSince(s0, Run(limits, s0, moves[..k]), s, id);
          var t := Run(limits, s0, moves[..k]);
          RunKeeps(limits, s0, moves[..k]);
          TurnFrom(Landed(t), s, id);
          AheadShape(Landed(t).ready, id);
          assert LandsBehind(s0, t, s, id);
        }
      }
    }
  }

  // ---- Conservation ----------------------------------------------------------------------------

  /** What the socket has been handed of one stream, in order. */
  function SentOf(log: seq<Sent>, id: string): seq<Item> {
    if log == [] then []
    else SentOf(log[..|log| - 1], id) + if log[|log| - 1].streamId == id then [log[|log| - 1].item] else []
  }

  /** Everything a stream has been handed or still waits to be. */
  function Stream(s: Sender, id: string): seq<Item> {
    SentOf(s.log, id) + QueueOf(s, id).items
  }

  /** The frame a move adds to a stream: one that was accepted, else none. */
  function AcceptedBy(limits: Limits, s: Sender, move: Move, id: string): seq<Item> {
    if move.op.DoEnqueue? && move.op.id == id
      && Enqueue(limits, s, id, move.op.item, move.op.force, move.sendThrows).1.Accepted? then [move.op.item] else []
  }

  function AcceptedItems(limits: Limits, s: Sender, moves: seq<Move>, id: string): seq<Item> {
    if moves == [] then []
    else
      var n := |moves| - 1;
      AcceptedItems(limits, s, moves[..n], id) + AcceptedBy(limits, Run(limits, s, moves[..n]), moves[n], id)
  }

  lemma {:induction false} DrainConserves(s: Sender, sendThrows: bool, id: string)
    ensures var s' := Drain(s, sendThrows); s'.closed || Stream(s', id) == Stream(s, id)
    decreases |s.ready|
  {
    if !(s.closed || s.flight.Some? || !s.socketOpen || s.ready == []) {
      var first := s.ready[0];
      var rest := s.(ready := s.ready[1..]);
      if first !in s.queues {
        DrainConserves(rest, sendThrows, id);
      } else if s.queues[first].items == [] {
        DrainConserves(rest.(queues := s.queues[first := s.queues[first].(ready := false)]), sendThrows, id);
      } else if !sendThrows {
        var s' := Drain(s, sendThrows);
        assert s'.log[..|s'.log| - 1] == s.log;
        if first == id {
          var items := s.queues[id].items;
          assert SentOf(s.log, id) + items == SentOf(s.log, id) + [items[0]] + items[1..];
        }
      }
    }
  }

  lemma EnqueueConserves(limits: Limits, s: Sender, id: string, item: Item, force: bool, sendThrows: bool,
      other: string)
    ensures var (s', r) := Enqueue(limits, s, id, item, force, sendThrows);
      s'.closed || Stream(s', other) == Stream(s, other) + if r.Accepted? && id == other then [item] else []
  {
    var (s', r) := Enqueue(limits, s, id, item, force, sendThrows);
    if r.Accepted? {
      var joined := Joined(Touched(s, id), id, item);
      DrainConserves(joined, sendThrows, other);
      assert Stream(joined, other) == Stream(s, other) + if id == other then [item] else [];
    }
  }

  lemma LandedConserves(s: Sender, id: string)
    requires s.flight.Some?
    ensures Stream(Landed(s), id) == Stream(s, id)
  {}

  lemma DropConserves(s: Sender, dropped: string, id: string)
    requires dropped != id
    ensures Stream(Drop(s, dropped), id) == Stream(s, id)
  {}

  lemma NextConserves(limits: Limits, s: Sender, move: Move, id: string)
    requires move.op != DoDrop(id)
    ensures var s' := Next(limits, s, move.op, move.sendThrows);
      s'.closed || Stream(s', id) == Stream(s, id) + AcceptedBy(limits, s, move, id)
  {
    match move.op
    case DoEnqueue(other, item, force) => EnqueueConserves(limits, s, other, item, force, move.sendThrows, id);
    case DoDrop(other) => DropConserves(s, other, id);
    case DoComplete(error) =>
      if s.flight.Some? && !error {
        LandedConserves(s, id);
        DrainConserves(Landed(s), move.sendThrows, id);
      }
    case DoClose =>
    case SocketCloses =>
  }

  /** CONSERVATION. Unless it is dropped or the sender closes, a stream's accepted frames are handed to the socket in
      the order they were accepted: what has been sent and what still waits are exactly what was accepted. */
  lemma {:induction false} FramesConserved(limits: Limits, s: Sender, moves: seq<Move>, id: string)
    requires Invariant(limits, s)
    requires forall k :: 0 <= k < |moves| ==> moves[k].op != DoDrop(id)
    ensures var s' := Run(limits, s, moves);
      s'.closed || Stream(s', id) == Stream(s, id) + AcceptedItems(limits, s, moves, id)
  {
    if moves != [] {
      var n := |moves| - 1;
      var before := Run(limits, s, moves[..n]);
      hide Invariant, Next, Stream, AcceptedBy;
      FramesConserved(limits, s, moves[..n], id);
      RunKeeps(limits, s, moves[..n]);
      StepLog(limits, before, moves[n]);
      NextConserves(limits, before, moves[n], id);
      var more, last := AcceptedItems(limits, s, moves[..n], id), AcceptedBy(limits, before, moves[n], id);
      assert AcceptedItems(limits, s, moves, id) == more + last;
      assert Stream(s, id) + more + last == Stream(s, id) + (more + last);
    }
  }
}
