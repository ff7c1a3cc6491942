/** One browser socket of packages/browser-host-hub-rc1/src/stream-mux.js: streams are opened, pumped, cancelled and
    ended over the fair sender, and everything is released when the socket fails. */
module StreamMux {
  import opened Prelude
  import opened FairSender

  /** The limits, and how large the frames are that the socket itself makes. */
  datatype Config = Config(limits: Limits, endFrame: string -> Item, errorFrame: string -> Item)

  /** A stream in the table: `pumping` until its loop has stopped reading the iterator, `terminal` once its end has been
      decided, `returned` once its iterator has been returned. */
  datatype Record = Record(pumping: bool, terminal: bool, returned: bool)

  const OPENED := Record(true, false, false)

  /** A frame that the sender accepted: an item of a stream, the frame that ends it, or the answer to a refused request
      under its id, `over` if the stream of that id had ended by then. */
  datatype Note = Frame(id: string, item: Item) | Terminal(id: string, item: Item)
                | Refusal(id: string, item: Item, over: bool)

  /** The closure's variables, and a history: `opens` lists the streams opened and `notes` the frames accepted for them;
      `returned` counts how often each iterator was returned, and `ended` holds the streams whose iterator finished by
      itself. `dropped` are the ids whose waiting frames were dropped, `refused` those of refused requests. */
  datatype Mux = Mux(open: bool, streams: map<string, Record>, prefix: Option<string>, lastNumber: int, sender: Sender,
                     opens: seq<string>, returned: multiset<string>, ended: set<string>, notes: seq<Note>,
                     dropped: set<string>, refused: set<string>)

  const FRESH := Mux(true, map[], None, 0, IDLE, [], multiset{}, {}, [], {}, {})

  // ---- Stream ids ------------------------------------------------------------------------------

  function Digit(c: char): Option<nat> {
    if '0' <= c <= '9' then Some(c as int - '0' as int)
    else if 'a' <= c <= 'z' then Some(c as int - 'a' as int + 10) else None
  }

  /** A base-36 number without a leading zero. */
  function Number36(s: string): Option<nat> {
    if s == "" || s[0] == '0' then None else Digits36(s)
  }

  function Digits36(s: string): Option<nat> {
    if s == "" then Some(0)
    else
      var front, last := Digits36(s[..|s| - 1]), Digit(s[|s| - 1]);
      if front.None? || last.None? then None else Some(front.value * 36 + last.value)
  }

  /** The position of the last colon; -1 if there is none. */
  function LastColon(s: string): (i: int)
    ensures -1 <= i < |s|
  {
    if s == "" then -1 else if s[|s| - 1] == ':' then |s| - 1 else LastColon(s[..|s| - 1])
  }

  /** The prefix and the number of a stream id. */
  function ParseId(id: string): Option<(string, nat)> {
    var colon := LastColon(id);
    if colon <= 0 then None
    else
      var number := Number36(id[colon + 1..]);
      if number.None? || !SafeInt(number.value, 0) then None else Some((id[..colon], number.value))
  }

  /** `acceptStreamId`. */
  predicate Acceptable(m: Mux, id: string) {
    && ParseId(id).Some? && ParseId(id).value.1 > m.lastNumber
    && (m.prefix.Some? ==> m.prefix.value == ParseId(id).value.0)
  }

  function Numbered(m: Mux, id: string): Mux
    requires ParseId(id).Some?
  {
    m.(prefix := Some(ParseId(id).value.0), lastNumber := ParseId(id).value.1)
  }

  // ---- Ends ------------------------------------------------------------------------------------

  /** The streams of the table whose iterator has not been returned. */
  function Held(streams: map<string, Record>): set<string> {
    set id | id in streams && !streams[id].returned
  }

  /** `failSocket`: `closeIterator` of every record in the table. */
  function FailSocket(m: Mux): Mux {
    if !m.open then m
    else
      m.(open := false, sender := Close(m.sender), streams := map[], returned := m.returned + multiset(Held(m.streams)))
  }

  /** The failure callback runs when the sender gave up. */
  function Watched(m: Mux, gaveUp: bool): Mux {
    if gaveUp then FailSocket(m) else m
  }

  /** The sender gave up during a step: a send failed, or a terminal frame could not be queued. */
  predicate GaveUp(before: Sender, after: Sender) {
    !before.closed && after.closed
  }

  /** The stream was opened and has left the table. */
  predicate Over(m: Mux, id: string) {
    id in m.opens && id !in m.streams
  }

  /** The history after a frame of the socket's own, accepted or not. */
  function Answered(m: Mux, s: Sender, accepted: bool, id: string, frame: Item, terminal: bool): Mux {
    var note := if terminal then Terminal(id, frame) else Refusal(id, frame, Over(m, id));
    m.(sender := s, notes := if accepted then m.notes + [note] else m.notes,
       refused := if terminal then m.refused else m.refused + {id})
  }

  /** A frame the socket makes itself: the end of a stream, or the refusal of a request. */
  function Forced(c: Config, m: Mux, id: string, frame: Item, sendThrows: bool, terminal: bool): Mux {
    var (s, r) := Enqueue(c.limits, m.sender, id, frame, true, sendThrows);
    Watched(Answered(m, s, r.Accepted?, id, frame, terminal), r.Failed? || GaveUp(m.sender, s))
  }

  predicate Live(m: Mux, id: string) {
    id in m.streams && !m.streams[id].terminal
  }

  /** `closeIterator`. */
  function Returning(m: Mux, id: string): Mux
    requires id in m.streams
  {
    if m.streams[id].returned then m
    else m.(streams := m.streams[id := m.streams[id].(returned := true)], returned := m.returned + multiset{id})
  }

  /** The record's end is decided; an error returns its iterator. It is still in the table. */
  function Marked(m: Mux, id: string, error: bool): Mux
    requires id in m.streams
  {
    var m1 := m.(streams := m.streams[id := m.streams[id].(terminal := true)]);
    if error then Returning(m1, id) else m1.(ended := m.ended + {id})
  }

  /** `terminal`: the record leaves the table after its last frame has been forced into the queue. */
  function Ended(c: Config, m: Mux, id: string, error: bool, sendThrows: bool): Mux {
    if !Live(m, id) then m
    else
      var frame := if error then c.errorFrame(id) else c.endFrame(id);
      var m1 := Forced(c, Marked(m, id, error), id, frame, sendThrows, true);
      m1.(streams := m1.streams - {id})
  }

  /** `overflow`. */
  function Overflowed(c: Config, m: Mux, id: string, kind: OverflowKind, sendThrows: bool): Mux {
    if kind.SocketOverflow? then FailSocket(m)
    else if !Live(m, id) then m
    else Ended(c, m.(sender := Drop(m.sender, id), dropped := m.dropped + {id}), id, true, sendThrows)
  }

  /** `cancel`. */
  function Cancelled(m: Mux, id: string): Mux {
    if !Live(m, id) then m
    else
      Returning(m, id).(streams := m.streams - {id}, sender := Drop(m.sender, id), dropped := m.dropped + {id})
  }

  // ---- Opening and pumping ---------------------------------------------------------------------

  /** What `hub.openStream` does with a well-formed request. */
  datatype OpenResult = Malformed | Throws | Opens

  /** `start`. */
  function Started(c: Config, m: Mux, id: string, result: OpenResult, sendThrows: bool): Mux {
    if id == "" then m
    else if result.Malformed? then Forced(c, m, id, c.errorFrame(id), sendThrows, false)
    else if !Acceptable(m, id) then FailSocket(m)
    else if id in m.streams then FailSocket(Numbered(m, id))
    else if result.Throws? then Forced(c, Numbered(m, id), id, c.errorFrame(id), sendThrows, false)
    else Numbered(m, id).(streams := m.streams[id := OPENED], opens := m.opens + [id])
  }

  datatype Pulled = Yields(item: Item) | Done | Fails

  /** One turn of a stream's loop. */
  function Pump(c: Config, m: Mux, id: string, pulled: Pulled, sendThrows: bool): Mux {
    if !m.open || !Live(m, id) || !m.streams[id].pumping then m
    else match pulled
      case Done => Ended(c, m, id, false, sendThrows)
      case Fails => Ended(c, m, id, true, sendThrows)
      case Yields(item) =>
        var (s, r) := Enqueue(c.limits, m.sender, id, item, false, sendThrows);
        var m1 := m.(sender := s);
        match r
        case Accepted => Watched(m1.(notes := m.notes + [Frame(id, item)]), GaveUp(m.sender, s))
        case Overflow(kind) => Overflowed(c, m1, id, kind, sendThrows)
        case _ => m1.(streams := m.streams[id := m.streams[id].(pumping := false)])
  }

  datatype MuxOp =
    | OpenStream(id: string, result: OpenResult)
    | CancelStream(id: string)
    | Pull(id: string, pulled: Pulled)
    | SendDone(error: bool)
    | SocketEnds
    | SocketHalfCloses

  function Step(c: Config, m: Mux, op: MuxOp, sendThrows: bool): Mux {
    match op
    case OpenStream(id, result) => if m.open then Started(c, m, id, result, sendThrows) else m
    case CancelStream(id) => if m.open then Cancelled(m, id) else m
    case Pull(id, pulled) => Pump(c, m, id, pulled, sendThrows)
    case SendDone(error) =>
      if m.sender.flight.None? then m
      else
        var s := Complete(m.sender, error, sendThrows);
        Watched(m.(sender := s), GaveUp(m.sender, s))
    case SocketEnds => FailSocket(m)
    case SocketHalfCloses => m.(sender := m.sender.(socketOpen := false))
  }

  function RunMux(c: Config, steps: seq<(MuxOp, bool)>): Mux {
    if steps == [] then FRESH
    else Step(c, RunMux(c, steps[..|steps| - 1]), steps[|steps| - 1].0, steps[|steps| - 1].1)
  }

  lemma SenderAside(m: Mux, t: Mux, s: Sender, accepted: bool, id: string, frame: Item, terminal: bool)
    requires t == m.(sender := t.sender)
    ensures Answered(t, s, accepted, id, frame, terminal) == Answered(m, s, accepted, id, frame, terminal)
  {}

  // ---- The socket ------------------------------------------------------------------------------

  class StreamSocket {
    const config: Config
    const sender: FairSocketSender
    var open: bool
    var streams: map<string, Record>
    var prefix: Option<string>
    var lastNumber: int
    ghost var opens: seq<string>
    ghost var returned: multiset<string>
    ghost var ended: set<string>
    ghost var notes: seq<Note>
    ghost var dropped: set<string>
    ghost var refused: set<string>

    ghost function Abstract(): Mux
      reads this, sender
    {
      Mux(open, streams, prefix, lastNumber, sender.Abstract(), opens, returned, ended, notes, dropped, refused)
    }

    ghost predicate Valid()
      reads this, sender
    {
      sender.Valid() && sender.limits == config.limits
    }

    constructor (config: Config)
      ensures Valid() && Abstract() == FRESH && fresh(sender) && this.config == config
    {
      this.config := config;
      sender := new FairSocketSender(config.limits);
      open, streams, prefix, lastNumber := true, map[], None, 0;
      opens, returned, ended, notes, dropped, refused := [], multiset{}, {}, [], {}, {};
    }

    method Fail()
      requires Valid()
      modifies this, sender
      ensures Valid() && Abstract() == FailSocket(old(Abstract()))
    {
      if !open {
        return;
      }
      open := false;
      sender.CloseSender();
      returned := returned + multiset(Held(streams));
      streams := map[];
    }

    /** The history of a frame of the socket's own. */
    ghost method RecordAnswer(id: string, frame: Item, accepted: bool, terminal: bool)
      modifies this`notes, this`refused
      ensures Abstract() == Answered(old(Abstract()), sender.Abstract(), accepted, id, frame, terminal)
    {
      if accepted {
        notes := notes + [if terminal then Terminal(id, frame) else Refusal(id, frame, id in opens && id !in streams)];
      }
      if !terminal {
        refused := refused + {id};
      }
    }

    /** A frame of the socket's own. */
    method SendForced(id: string, frame: Item, sendThrows: bool, terminal: bool)
      requires Valid()
      modifies this, sender
      ensures Valid() && Abstract() == Forced(config, old(Abstract()), id, frame, sendThrows, terminal)
    {
      hide Enqueue, FairSender.Close, Answered, FailSocket;
      var wasClosed := sender.closed;
      var r := sender.EnqueueFrame(id, frame, true, sendThrows);
      assert Answered(Abstract(), sender.Abstract(), r.Accepted?, id, frame, terminal)
        == Answered(old(Abstract()), sender.Abstract(), r.Accepted?, id, frame, terminal) by {
        SenderAside(old(Abstract()), Abstract(), sender.Abstract(), r.Accepted?, id, frame, terminal);
      }
      RecordAnswer(id, frame, r.Accepted?, terminal);
      if r.Failed? || (!wasClosed && sender.closed) {
        Fail();
      }
    }

    method CloseIterator(id: string)
      requires id in streams
      modifies this`streams, this`returned
      ensures Abstract() == Returning(old(Abstract()), id)
    {
      if streams[id].returned {
        return;
      }
      streams := streams[id := streams[id].(returned := true)];
      returned := returned + multiset{id};
    }

    method EndStream(id: string, error: bool, sendThrows: bool)
      requires Valid()
      modifies this, sender
      ensures Valid() && Abstract() == Ended(config, old(Abstract()), id, error, sendThrows)
    {
      if id !in streams || streams[id].terminal {
        return;
      }
      streams := streams[id := streams[id].(terminal := true)];
      if error {
        CloseIterator(id);
      } else {
        ended := ended + {id};
      }
      assert Abstract() == Marked(old(Abstract()), id, error);
      SendForced(id, if error then config.errorFrame(id) else config.endFrame(id), sendThrows, true);
      streams := streams - {id};
    }

    method OnOverflow(id: string, kind: OverflowKind, sendThrows: bool)
      requires Valid()
      modifies this, sender
      ensures Valid() && Abstract() == Overflowed(config, old(Abstract()), id, kind, sendThrows)
    {
      if kind.SocketOverflow? {
        Fail();
        return;
      }
      if id !in streams || streams[id].terminal {
        return;
      }
      sender.DropStream(id);
      dropped := dropped + {id};
      EndStream(id, true, sendThrows);
    }

    method Cancel(id: string)
      requires Valid()
      modifies this, sender
      ensures Valid() && Abstract() == Cancelled(old(Abstract()), id)
    {
      if id !in streams || streams[id].terminal {
        return;
      }
      sender.DropStream(id);
      CloseIterator(id);
      streams, dropped := streams - {id}, dropped + {id};
      assert streams == old(streams) - {id};
    }

    method AcceptStreamId(id: string) returns (accepted: bool)
      modifies this`prefix, this`lastNumber
      ensures accepted == old(Acceptable(Abstract(), id))
      ensures Abstract() == if accepted then Numbered(old(Abstract()), id) else old(Abstract())
    {
      var parsed := ParseId(id);
      if parsed.None? || parsed.value.1 <= lastNumber {
        return false;
      }
      if prefix.Some? && prefix.value != parsed.value.0 {
        return false;
      }
      prefix, lastNumber := Some(parsed.value.0), parsed.value.1;
      return true;
    }

    method StartStream(id: string, result: OpenResult, sendThrows: bool)
      requires Valid()
      modifies this, sender
      ensures Valid() && Abstract() == Started(config, old(Abstract()), id, result, sendThrows)
    {
      if result.Malformed? {
        if id != "" {
          SendForced(id, config.errorFrame(id), sendThrows, false);
        }
        return;
      }
      if id == "" {
        return;
      }
      var accepted := AcceptStreamId(id);
      if !accepted || id in streams {
        Fail();
        return;
      }
      if result.Throws? {
        SendForced(id, config.errorFrame(id), sendThrows, false);
        return;
      }
      streams := streams[id := OPENED];
      opens := opens + [id];
    }

    /** One turn of a stream's read loop. */
    method PumpStream(id: string, pulled: Pulled, sendThrows: bool)
      requires Valid()
      modifies this, sender
      ensures Valid() && Abstract() == Pump(config, old(Abstract()), id, pulled, sendThrows)
    {
      if !open || id !in streams || streams[id].terminal || !streams[id].pumping {
        return;
      }
      if !pulled.Yields? {
        EndStream(id, pulled.Fails?, sendThrows);
        return;
      }
      var wasClosed := sender.closed;
      var r := sender.EnqueueFrame(id, pulled.item, false, sendThrows);
      if r.Accepted? {
        notes := notes + [Frame(id, pulled.item)];
        if !wasClosed && sender.closed {
          Fail();
        }
      } else if r.Overflow? {
        OnOverflow(id, r.kind, sendThrows);
      } else {
        streams := streams[id := streams[id].(pumping := false)];
      }
    }

    method SendFinished(error: bool, sendThrows: bool)
      requires Valid() && sender.flight.Some?
      modifies this, sender
      ensures Valid() && Abstract() == Step(config, old(Abstract()), SendDone(error), sendThrows)
    {
      hide Complete, FairSender.Close;
      var wasClosed := sender.closed;
      sender.OnSent(error, sendThrows);
      if !wasClosed && sender.closed {
        Fail();
      }
    }
  }
}
