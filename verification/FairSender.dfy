/** The fair sender of packages/browser-host-hub-rc1/src/stream-mux.js: many streams share one socket, one frame
    is in flight at a time, and streams take turns. */
module FairSender {
  import opened Prelude

  datatype Item = Item(text: string, bytes: nat)
  datatype Queue = Queue(items: seq<Item>, bytes: int, ready: bool)
  datatype Sent = Sent(streamId: string, item: Item)
  datatype Limits = Limits(maxFrameBytes: nat, maxStreamQueuedBytes: nat, maxSocketQueuedBytes: nat)
  datatype OverflowKind = FrameOverflow | StreamOverflow | SocketOverflow
  datatype Enqueued = Accepted | Refused | Overflow(kind: OverflowKind) | Failed

  /** The sender's fields. `flight` is the frame whose send callback is outstanding; `log` is a history of every
      frame handed to the socket. */
  datatype Sender = Sender(queues: map<string, Queue>, ready: seq<string>, queuedBytes: int, flight: Option<Sent>,
                           closed: bool, socketOpen: bool, log: seq<Sent>)

  const IDLE := Sender(map[], [], 0, None, false, true, [])

  function QueueOf(s: Sender, id: string): Queue {
    if id in s.queues then s.queues[id] else Queue([], 0, false)
  }

  /** `close`; the failure callback does the same and nothing else to the sender. */
  function Close(s: Sender): Sender {
    s.(closed := true, queues := map[], ready := [], queuedBytes := 0)
  }

  /** `#drain`: hand the first ready stream's oldest frame to the socket, unless one is in flight. */
  function Drain(s: Sender, sendThrows: bool): Sender
    decreases |s.ready|
  {
    if s.closed || s.flight.Some? || !s.socketOpen || s.ready == [] then s
    else
      var id := s.ready[0];
      var rest := s.(ready := s.ready[1..]);
      if id !in s.queues then Drain(rest, sendThrows)
      else
        var queue := s.queues[id];
        if queue.items == [] then Drain(rest.(queues := s.queues[id := queue.(ready := false)]), sendThrows)
        else
          var sent := Sent(id, queue.items[0]);
          if sendThrows then Close(rest)
          else rest.(queues := s.queues[id := Queue(queue.items[1..], queue.bytes, false)], flight := Some(sent),
            log := s.log + [sent])
  }

  /** The queue after a frame joins it, and the ready list after the stream asks for a turn. */
  function Joined(s: Sender, id: string, item: Item): Sender {
    var queue := QueueOf(s, id);
    var waits := !queue.ready && !(s.flight.Some? && s.flight.value.streamId == id);
    s.(queues := s.queues[id := Queue(queue.items + [item], queue.bytes + item.bytes, queue.ready || waits)],
       queuedBytes := s.queuedBytes + item.bytes,
       ready := if waits then s.ready + [id] else s.ready)
  }

  /** `#queue`: asking for a stream's queue creates it. */
  function Touched(s: Sender, id: string): Sender {
    s.(queues := s.queues[id := QueueOf(s, id)])
  }

  function Enqueue(limits: Limits, s: Sender, id: string, item: Item, force: bool,
      sendThrows: bool): (Sender, Enqueued) {
    if s.closed || !s.socketOpen then (s, Refused)
    else if item.bytes > limits.maxFrameBytes then
      if force then (Close(s), Failed) else (s, Overflow(FrameOverflow))
    else
      var queue := QueueOf(s, id);
      var s1 := Touched(s, id);
      var overStream := queue.bytes + item.bytes > limits.maxStreamQueuedBytes;
      if overStream || s.queuedBytes + item.bytes > limits.maxSocketQueuedBytes then
        if force then (Close(s1), Failed)
        else (s1, Overflow(if overStream then StreamOverflow else SocketOverflow))
      else (Drain(Joined(s1, id, item), sendThrows), Accepted)
  }

  function SumBytes(items: seq<Item>): int {
    if items == [] then 0 else SumBytes(items[..|items| - 1]) + items[|items| - 1].bytes
  }

  /** `drop`: forget a stream's pending frames; a frame already in flight stays accounted. */
  function Drop(s: Sender, id: string): Sender {
    if id !in s.queues then s
    else
      var queue := s.queues[id];
      var pending := SumBytes(queue.items);
      var kept := if s.flight.Some? && s.flight.value.streamId == id
                  then s.queues[id := Queue([], queue.bytes - pending, false)] else s.queues - {id};
      s.(queuedBytes := s.queuedBytes - pending, queues := kept, ready := Without(s.ready, id))
  }

  function Without(ids: seq<string>, id: string): seq<string> {
    if ids == [] then [] else (if ids[0] == id then [] else [ids[0]]) + Without(ids[1..], id)
  }

  /** The frame in flight is out: its bytes are released, and its stream asks for another turn or is forgotten. */
  function Landed(s: Sender): Sender
    requires s.flight.Some?
  {
    var id := s.flight.value.streamId;
    if id !in s.queues then s.(flight := None)
    else
      var queue := s.queues[id].(bytes := s.queues[id].bytes - s.flight.value.item.bytes);
      var s1 := s.(flight := None, queuedBytes := s.queuedBytes - s.flight.value.item.bytes);
      if queue.items != [] then s1.(queues := s.queues[id := queue.(ready := true)], ready := s.ready + [id])
      else s1.(queues := s.queues - {id})
  }

  /** The send callback. */
  function Complete(s: Sender, error: bool, sendThrows: bool): Sender
    requires s.flight.Some?
  {
    if error then Close(s.(flight := None)) else Drain(Landed(s), sendThrows)
  }

  datatype Op =
    | DoEnqueue(id: string, item: Item, force: bool)
    | DoDrop(dropped: string)
    | DoComplete(error: bool)
    | DoClose
    | SocketCloses

  /** One step of the socket's life; `sendThrows` says what `socket.send` does if the step reaches it. */
  function Next(limits: Limits, s: Sender, op: Op, sendThrows: bool): Sender {
    match op
    case DoEnqueue(id, item, force) => Enqueue(limits, s, id, item, force, sendThrows).0
    case DoDrop(id) => Drop(s, id)
    case DoComplete(error) => if s.flight.Some? then Complete(s, error, sendThrows) else s
    case DoClose => Close(s)
    case SocketCloses => s.(socketOpen := false)
  }

  // ---- The class -------------------------------------------------------------------------------

  class FairSocketSender {
    const limits: Limits
    var queues: map<string, Queue>
    var ready: seq<string>
    var queuedBytes: int
    var sending: bool
    var flight: Option<Sent>
    var closed: bool
    var socketOpen: bool
    ghost var log: seq<Sent>

    ghost function Abstract(): Sender
      reads this
    {
      Sender(queues, ready, queuedBytes, flight, closed, socketOpen, log)
    }

    ghost predicate Valid()
      reads this
    {
      sending == flight.Some?
    }

    constructor (limits: Limits)
      ensures Valid() && Abstract() == IDLE && this.limits == limits
    {
      this.limits := limits;
      queues, ready, queuedBytes, sending, flight, closed, socketOpen, log :=
        map[], [], 0, false, None, false, true, [];
    }

    method CloseSender()
      requires Valid()
      modifies this`closed, this`queues, this`ready, this`queuedBytes
      ensures Valid() && Abstract() == Close(old(Abstract()))
    {
      closed, queues, ready, queuedBytes := true, map[], [], 0;
    }

    method DrainReady(sendThrows: bool)
      requires Valid()
      modifies this
      ensures Valid() && Abstract() == Drain(old(Abstract()), sendThrows) && socketOpen == old(socketOpen)
    {
      if closed || sending || !socketOpen {
        return;
      }
      while ready != []
        invariant !closed && !sending && socketOpen && Valid()
        invariant Drain(Abstract(), sendThrows) == Drain(old(Abstract()), sendThrows)
        decreases |ready|
      {
        var id := ready[0];
        ready := ready[1..];
        if id !in queues {
          continue;
        }
        var queue := queues[id];
        queues := queues[id := queue.(ready := false)];
        if queue.items == [] {
          continue;
        }
        if sendThrows {
          CloseSender();
          return;
        }
        queues := queues[id := Queue(queue.items[1..], queue.bytes, false)];
        sending, flight := true, Some(Sent(id, queue.items[0]));
        log := log + [Sent(id, queue.items[0])];
        return;
      }
    }

    method EnqueueFrame(id: string, item: Item, force: bool, sendThrows: bool) returns (r: Enqueued)
      requires Valid()
      modifies this
      ensures Valid()
      ensures (Abstract(), r) == Enqueue(limits, old(Abstract()), id, item, force, sendThrows)
    {
      if closed || !socketOpen {
        return Refused;
      }
      if item.bytes > limits.maxFrameBytes {
        if force {
          CloseSender();
          return Failed;
        }
        return Overflow(FrameOverflow);
      }
      if id !in queues {
        queues := queues[id := Queue([], 0, false)];
      }
      var queue := queues[id];
      var overStream := queue.bytes + item.bytes > limits.maxStreamQueuedBytes;
      assert Abstract() == old(Abstract()).(queues := old(queues)[id := queue]);
      if overStream || queuedBytes + item.bytes > limits.maxSocketQueuedBytes {
        if force {
          CloseSender();
          return Failed;
        }
        return Overflow(if overStream then StreamOverflow else SocketOverflow);
      }
      var waits := !queue.ready && !(flight.Some? && flight.value.streamId == id);
      queues := queues[id := Queue(queue.items + [item], queue.bytes + item.bytes, queue.ready || waits)];
      queuedBytes := queuedBytes + item.bytes;
      if waits {
        ready := ready + [id];
      }
      assert Abstract() == Joined(old(Abstract()).(queues := old(queues)[id := queue]), id, item);
      DrainReady(sendThrows);
      return Accepted;
    }

    method DropStream(id: string)
      requires Valid()
      modifies this`queues, this`ready, this`queuedBytes
      ensures Valid() && Abstract() == Drop(old(Abstract()), id)
    {
      if id !in queues {
        return;
      }
      var queue := queues[id];
      var pending := 0;
      for i := 0 to |queue.items|
        invariant pending == SumBytes(queue.items[..i])
      {
        assert queue.items[..i + 1][..i] == queue.items[..i];
        pending := pending + queue.items[i].bytes;
      }
      assert queue.items[..|queue.items|] == queue.items;
      queuedBytes := queuedBytes - pending;
      ready := Without(ready, id);
      if flight.Some? && flight.value.streamId == id {
        queues := queues[id := Queue([], queue.bytes - pending, false)];
      } else {
        queues := queues - {id};
      }
    }

    method OnSent(error: bool, sendThrows: bool)
      requires Valid() && flight.Some?
      modifies this
      ensures Valid() && Abstract() == Complete(old(Abstract()), error, sendThrows)
    {
      var id, item := flight.value.streamId, flight.value.item;
      sending, flight := false, None;
      if error {
        CloseSender();
        return;
      }
      if id in queues {
        var current := queues[id].(bytes := queues[id].bytes - item.bytes);
        queuedBytes := queuedBytes - item.bytes;
        if current.items != [] {
          queues := queues[id := current.(ready := true)];
          ready := ready + [id];
        } else {
          queues := queues - {id};
        }
      }
      DrainReady(sendThrows);
    }
  }
}
