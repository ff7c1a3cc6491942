/** Which frames the fair sender takes, said in bytes of the frames that wait and of the one in flight. */
module FairSenderLaws {
  import opened Prelude
  import opened FairSender
  import opened FairSenderRuns

  /** Bytes a stream has waiting and in flight. */
  function StreamLoad(s: Sender, id: string): int {
    (if id in s.queues then SumBytes(s.queues[id].items) else 0)
    + (if id in s.queues && s.flight.Some? && s.flight.value.streamId == id then s.flight.value.item.bytes else 0)
  }

  /** Bytes that some streams have waiting and in flight. */
  ghost function Load(s: Sender, ids: set<string>): int {
    if ids == {} then 0
    else
      var id :| id in ids;
      StreamLoad(s, id) + Load(s, ids - {id})
  }

  lemma {:induction false} LoadSplit(s: Sender, ids: set<string>, id: string)
    requires id in ids
    ensures Load(s, ids) == StreamLoad(s, id) + Load(s, ids - {id})
    decreases |ids|
  {
    hide StreamLoad;
    var first :| first in ids && Load(s, ids) == StreamLoad(s, first) + Load(s, ids - {first});
    if first != id {
      LoadSplit(s, ids - {first}, id);
      LoadSplit(s, ids - {id}, first);
      assert ids - {first} - {id} == ids - {id} - {first};
    }
  }

  /** The socket's count is the load of all streams. */
  lemma {:induction false} LoadIsTotal(s: Sender, queues: map<string, Queue>)
    requires queues.Keys <= s.queues.Keys && forall id :: id in queues ==> queues[id].bytes == StreamLoad(s, id)
    ensures Total(queues) == Load(s, queues.Keys)
    decreases |queues|
  {
    hide StreamLoad;
    if queues != map[] {
      var id :| id in queues && Total(queues) == queues[id].bytes + Total(queues - {id});
      LoadIsTotal(s, queues - {id});
      LoadSplit(s, queues.Keys, id);
      assert (queues - {id}).Keys == queues.Keys - {id};
    }
  }

  lemma CountsAreLoads(limits: Limits, s: Sender, id: string)
    requires Invariant(limits, s)
    ensures QueueOf(s, id).bytes == StreamLoad(s, id) && s.queuedBytes == Load(s, s.queues.Keys)
  {
    assert forall k :: k in s.queues ==> s.queues[k].bytes == StreamLoad(s, k);
    LoadIsTotal(s, s.queues);
  }

  predicate TooLarge(limits: Limits, item: Item) {
    item.bytes > limits.maxFrameBytes
  }

  predicate StreamFull(limits: Limits, s: Sender, id: string, item: Item) {
    StreamLoad(s, id) + item.bytes > limits.maxStreamQueuedBytes
  }

  ghost predicate SocketFull(limits: Limits, s: Sender, item: Item) {
    Load(s, s.queues.Keys) + item.bytes > limits.maxSocketQueuedBytes
  }

  /** ADMISSION. On an open socket an unforced frame is accepted exactly if it fits all three limits; else the overflow
      is that of the frame, of its stream, or of the socket, in this order. A forced frame that does not fit fails the
      sender. On a closed one nothing is taken. */
  lemma Admission(limits: Limits, s: Sender, id: string, item: Item, force: bool, sendThrows: bool)
    requires Invariant(limits, s)
    ensures var (t, r) := Enqueue(limits, s, id, item, force, sendThrows);
      if s.closed || !s.socketOpen then r == Refused && t == s
      else if TooLarge(limits, item) then r == (if force then Failed else Overflow(FrameOverflow))
      else if StreamFull(limits, s, id, item) then r == (if force then Failed else Overflow(StreamOverflow))
      else if SocketFull(limits, s, item) then r == (if force then Failed else Overflow(SocketOverflow))
      else r == Accepted
    ensures var (t, r) := Enqueue(limits, s, id, item, force, sendThrows);
      && (r.Failed? ==> t.closed && !s.closed)
      && (r.Accepted? ==> (t.closed <==> s.flight.None? && sendThrows))
      && (r.Overflow? ==> !t.closed && t.log == s.log && t.ready == s.ready && t.flight == s.flight
                          && t.queuedBytes == s.queuedBytes && t.socketOpen == s.socketOpen
                          && forall k :: QueueOf(t, k) == QueueOf(s, k))
  {
    CountsAreLoads(limits, s, id);
    if s.flight.None? && s.socketOpen && !s.closed {
      assert s.ready == [];
      assert id in s.queues ==> !s.queues[id].ready by {
        assert id !in s.ready;
      }
    }
    hide Load, StreamLoad, BytesExact, WithinLimits;
  }

  /** What dropping a stream leaves: its frame in flight, and every other stream as it was. */
  lemma DropLeaves(limits: Limits, s: Sender, id: string)
    requires Invariant(limits, s)
    ensures var t := Drop(s, id);
      && QueueOf(t, id).items == [] && (forall k :: k != id ==> QueueOf(t, k) == QueueOf(s, k))
      && t.flight == s.flight && t.log == s.log && t.closed == s.closed && t.socketOpen == s.socketOpen
      && StreamLoad(t, id) == StreamLoad(s, id) - (if id in s.queues then SumBytes(s.queues[id].items) else 0)
      && Load(t, t.queues.Keys)
         == Load(s, s.queues.Keys) - (if id in s.queues then SumBytes(s.queues[id].items) else 0)
  {
    DropKeeps(limits, s, id);
    CountsAreLoads(limits, s, id);
    CountsAreLoads(limits, Drop(s, id), id);
    hide Load, Invariant;
  }

  /** Some stream has a frame waiting. */
  ghost predicate SomeWaits(s: Sender) {
    exists id :: id in s.queues && s.queues[id].items != []
  }

  /** COMPLETION. A send that reports an error closes the sender. Otherwise the frame in flight is accounted no longer,
      nothing else is lost, and the next frame goes out if any waits; that send may throw, which closes the sender as
      well. */
  lemma Completion(limits: Limits, s: Sender, error: bool, sendThrows: bool)
    requires Invariant(limits, s) && s.flight.Some? && !s.closed
    ensures var t := Complete(s, error, sendThrows);
      && (t.closed <==> error || (sendThrows && s.socketOpen && SomeWaits(s)))
      && (t.closed ==> t.queues == map[] && t.ready == [] && t.queuedBytes == 0 && t.log == s.log)
      && (!t.closed ==> (t.flight.Some? <==> s.socketOpen && SomeWaits(s))
                        && |t.log| == |s.log| + (if t.flight.Some? then 1 else 0))
  {
    if !error {
      var l := Landed(s);
      LandedKeeps(limits, s);
      if id :| id in s.queues && s.queues[id].items != [] {
        assert l.queues[id].ready && id in l.ready;
      }
      if l.ready != [] {
        var id := l.ready[0];
        assert id in l.ready;
        assert l.queues[id].items != [] && id in s.queues && s.queues[id].items != [];
      }
    }
  }
}
