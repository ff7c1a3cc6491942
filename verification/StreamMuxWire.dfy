/** What the browser receives under one stream id: the stream's frames in order, then at most the frame that ends it,
    and the answers to refused requests of that id among them. */
module StreamMuxWire {
  import opened Prelude
  import opened FairSender
  import Fair = FairSenderRuns
  import opened StreamMux
  import Runs = StreamMuxRuns

  /** What was accepted for an id before its stream's end: items, and refusals among them. */
  function BeforeEnd(notes: seq<Note>, id: string): seq<Item> {
    if notes == [] then []
    else
      var n := notes[|notes| - 1];
      BeforeEnd(notes[..|notes| - 1], id) + if !Runs.Last(n) && n.id == id then [n.item] else []
  }

  /** What was accepted from the end on: the frame that ends the stream, and refusals behind the end. */
  function FromEnd(notes: seq<Note>, id: string): seq<Item> {
    if notes == [] then []
    else
      var n := notes[|notes| - 1];
      FromEnd(notes[..|notes| - 1], id) + if Runs.Last(n) && n.id == id then [n.item] else []
  }

  /** `kept` are the earlier frames that were sent or still wait; all of them, unless the stream was dropped. */
  ghost predicate Keeps(m: Mux, id: string, kept: seq<Item>) {
    && kept <= BeforeEnd(m.notes, id) && (id !in m.dropped ==> kept == BeforeEnd(m.notes, id))
    && (m.open ==> Fair.Stream(m.sender, id) == kept + FromEnd(m.notes, id))
    && Fair.SentOf(m.sender.log, id) <= kept + FromEnd(m.notes, id)
  }

  ghost predicate WireOk(m: Mux, id: string) {
    (exists kept :: Keeps(m, id, kept)) && (id in m.dropped ==> Over(m, id))
  }

  lemma Appended(notes: seq<Note>, n: Note, id: string)
    ensures BeforeEnd(notes + [n], id) == BeforeEnd(notes, id) + if !Runs.Last(n) && n.id == id then [n.item] else []
    ensures FromEnd(notes + [n], id) == FromEnd(notes, id) + if Runs.Last(n) && n.id == id then [n.item] else []
  {
    assert (notes + [n])[..|notes|] == notes;
  }

  lemma {:induction false} NoEndYet(notes: seq<Note>, id: string)
    requires forall i :: 0 <= i < |notes| && Runs.Last(notes[i]) ==> notes[i].id != id
    ensures FromEnd(notes, id) == []
  {
    if notes != [] { NoEndYet(notes[..|notes| - 1], id); }
  }

  // ---- The sender ------------------------------------------------------------------------------

  lemma SentIsPrefix(s: Sender, id: string)
    ensures Fair.SentOf(s.log, id) <= Fair.Stream(s, id)
  {}

  lemma {:induction false} DrainLogIfClosed(s: Sender, sendThrows: bool)
    ensures !s.closed && Drain(s, sendThrows).closed ==> Drain(s, sendThrows).log == s.log
    decreases |s.ready|
  {
    if !(s.closed || s.flight.Some? || !s.socketOpen || s.ready == []) {
      var id := s.ready[0];
      if id !in s.queues {
        DrainLogIfClosed(s.(ready := s.ready[1..]), sendThrows);
      } else if s.queues[id].items == [] {
        DrainLogIfClosed(s.(ready := s.ready[1..], queues := s.queues[id := s.queues[id].(ready := false)]),
          sendThrows);
      }
    }
  }

  /** What an enqueue does to a stream, if the sender survives it, and to the log, if it does not. */
  lemma Enqueued(c: Config, s: Sender, x: string, item: Item, force: bool, sendThrows: bool, id: string)
    requires !s.closed
    ensures var (t, r) := Enqueue(c.limits, s, x, item, force, sendThrows);
      && (!t.closed ==> Fair.Stream(t, id) == Fair.Stream(s, id) + if r.Accepted? && x == id then [item] else [])
      && (t.closed ==> t.log == s.log)
  {
    Fair.EnqueueConserves(c.limits, s, x, item, force, sendThrows, id);
    if !force || (item.bytes <= c.limits.maxFrameBytes) {
      DrainLogIfClosed(Joined(Touched(s, x), x, item), sendThrows);
    }
  }

  lemma Completed(s: Sender, error: bool, sendThrows: bool, id: string)
    requires s.flight.Some?
    ensures !s.closed && !Complete(s, error, sendThrows).closed ==>
      Fair.Stream(Complete(s, error, sendThrows), id) == Fair.Stream(s, id)
    ensures Complete(s, error, sendThrows).closed ==> Complete(s, error, sendThrows).log == s.log
  {
    if !error {
      Fair.LandedConserves(s, id);
      Fair.DrainConserves(Landed(s), sendThrows, id);
      DrainLogIfClosed(Landed(s), sendThrows);
    }
  }

  lemma DroppedQueue(s: Sender, x: string, id: string)
    ensures Drop(s, x).log == s.log
    ensures Fair.Stream(Drop(s, x), id) == if x == id then Fair.SentOf(s.log, id) else Fair.Stream(s, id)
  {
    if x != id { Fair.DropConserves(s, x, id); }
  }

  // ---- Steps -----------------------------------------------------------------------------------

  lemma FailWire(m: Mux, id: string)
    requires WireOk(m, id)
    ensures WireOk(FailSocket(m), id)
  {
    var kept :| Keeps(m, id, kept);
    assert Keeps(FailSocket(m), id, kept);
  }

  /** The state between a change to the sender and the failure callback. */
  lemma WatchedWire(m: Mux, t: Mux, gaveUp: bool, id: string, kept: seq<Item>)
    requires m.open && t.open && (id in t.dropped ==> Over(t, id))
    requires kept <= BeforeEnd(t.notes, id) && (id !in t.dropped ==> kept == BeforeEnd(t.notes, id))
    requires Fair.SentOf(t.sender.log, id) <= kept + FromEnd(t.notes, id)
    requires !gaveUp ==> Fair.Stream(t.sender, id) == kept + FromEnd(t.notes, id)
    ensures WireOk(Watched(t, gaveUp), id)
  {
    assert Keeps(Watched(t, gaveUp), id, kept);
  }

  /** A frame accepted under an id, or not. */
  lemma NotedWire(c: Config, m: Mux, note: Note, force: bool, sendThrows: bool, refused: set<string>, id: string)
    requires m.open && !m.sender.closed && WireOk(m, id)
    requires note.id == id && !Runs.Last(note) ==> FromEnd(m.notes, id) == [] && id !in m.dropped
    ensures var (s, r) := Enqueue(c.limits, m.sender, note.id, note.item, force, sendThrows);
      var notes := if r.Accepted? then m.notes + [note] else m.notes;
      WireOk(Watched(m.(sender := s, notes := notes, refused := refused), r.Failed? || GaveUp(m.sender, s)), id)
  {
    var (s, r) := Enqueue(c.limits, m.sender, note.id, note.item, force, sendThrows);
    Enqueued(c, m.sender, note.id, note.item, force, sendThrows, id);
    FailedMeansClosed(c, m.sender, note.id, note.item, force, sendThrows);
    hide Enqueue, BeforeEnd, FromEnd, Fair.Stream, Fair.SentOf, Watched, FailSocket, WireOk, Runs.Last;
    var t := m.(sender := s, notes := if r.Accepted? then m.notes + [note] else m.notes, refused := refused);
    if note.id != id {
      OtherWire(m, t, r.Failed? || GaveUp(m.sender, s), id, note);
    } else {
      OwnWire(m, t, r.Failed? || GaveUp(m.sender, s), note, r.Accepted?);
    }
  }

  /** A frame of another stream. */
  lemma OtherWire(m: Mux, t: Mux, gaveUp: bool, id: string, note: Note)
    requires WireOk(m, id) && m.open && t.open && note.id != id
    requires t.dropped == m.dropped && t.opens == m.opens && t.streams == m.streams
      && (t.notes == m.notes || t.notes == m.notes + [note])
    requires t.sender.closed ==> t.sender.log == m.sender.log
    requires !t.sender.closed ==> Fair.Stream(t.sender, id) == Fair.Stream(m.sender, id)
    requires !gaveUp ==> !t.sender.closed
    ensures WireOk(Watched(t, gaveUp), id)
  {
    var kept :| Keeps(m, id, kept);
    Appended(m.notes, note, id);
    hide BeforeEnd, FromEnd, Fair.Stream, Fair.SentOf, Watched;
    GrownWire(m, t, gaveUp, id, kept, kept, []);
  }

  /** A frame of the stream itself, accepted or not. */
  lemma OwnWire(m: Mux, t: Mux, gaveUp: bool, note: Note, noted: bool)
    requires WireOk(m, note.id) && m.open && t.open
    requires !Runs.Last(note) ==> FromEnd(m.notes, note.id) == [] && note.id !in m.dropped
    requires t.dropped == m.dropped && t.opens == m.opens && t.streams == m.streams
    requires t.notes == if noted then m.notes + [note] else m.notes
    requires t.sender.closed ==> t.sender.log == m.sender.log
    requires !t.sender.closed ==> Fair.Stream(t.sender, note.id) == Fair.Stream(m.sender, note.id) + if noted then
      [note.item] else []
    requires !gaveUp ==> !t.sender.closed
    ensures WireOk(Watched(t, gaveUp), note.id)
  {
    var id := note.id;
    var kept :| Keeps(m, id, kept);
    Appended(m.notes, note, id);
    var added := if noted then [note.item] else [];
    var more := if noted && !Runs.Last(note) then kept + [note.item] else kept;
    assert kept + [] == kept && kept + [] + added == kept + added && kept + added + [] == kept + added;
    assert more + FromEnd(t.notes, id) == kept + FromEnd(m.notes, id) + added;
    assert more <= BeforeEnd(t.notes, id) && (id !in t.dropped ==> more == BeforeEnd(t.notes, id));
    hide Keeps, BeforeEnd, FromEnd, Fair.Stream, Fair.SentOf, Watched, WireOk;
    GrownWire(m, t, gaveUp, id, kept, more, added);
  }

  /** The stream grew by `added`, here and in the notes alike; or the sender gave up before any of it was sent. */
  lemma GrownWire(m: Mux, t: Mux, gaveUp: bool, id: string, kept: seq<Item>, more: seq<Item>, added: seq<Item>)
    requires m.open && t.open && (id in t.dropped ==> Over(t, id))
    requires Keeps(m, id, kept) && more <= BeforeEnd(t.notes, id)
      && (id !in t.dropped ==> more == BeforeEnd(t.notes, id))
    requires more + FromEnd(t.notes, id) == kept + FromEnd(m.notes, id) + added
    requires t.sender.closed ==> t.sender.log == m.sender.log
    requires !t.sender.closed ==> Fair.Stream(t.sender, id) == Fair.Stream(m.sender, id) + added
    requires !gaveUp ==> !t.sender.closed
    ensures WireOk(Watched(t, gaveUp), id)
  {
    SentIsPrefix(t.sender, id);
    hide BeforeEnd, FromEnd, Fair.Stream, Fair.SentOf, Watched;
    WatchedWire(m, t, gaveUp, id, more);
  }

  lemma FailedMeansClosed(c: Config, s: Sender, x: string, item: Item, force: bool, sendThrows: bool)
    ensures var (t, r) := Enqueue(c.limits, s, x, item, force, sendThrows); r.Failed? ==> t.closed
  {}

  lemma ForcedWire(c: Config, m: Mux, x: string, frame: Item, sendThrows: bool, terminal: bool, id: string)
    requires Runs.Consistent(m) && m.open && WireOk(m, id) && (!terminal ==> Runs.NotesEnd(m))
    ensures WireOk(Forced(c, m, x, frame, sendThrows, terminal), id)
  {
    var note := if terminal then Terminal(x, frame) else Refusal(x, frame, Over(m, x));
    if !Runs.Last(note) && x == id { NoEndYet(m.notes, x); }
    NotedWire(c, m, note, true, sendThrows, if terminal then m.refused else m.refused + {x}, id);
  }

  /** A stream leaves the table with its last frame, possibly after its waiting frames were dropped. */
  lemma EndedWire(c: Config, m: Mux, x: string, error: bool, sendThrows: bool, id: string)
    requires Runs.Invariant(c, m) && m.open && x in m.streams && (id != x ==> WireOk(m, id))
    requires id == x ==> exists kept :: Keeps(m, x, kept)
    ensures WireOk(Ended(c, m, x, error, sendThrows), id)
  {
    var t := Runs.Removed(m, x, error);
    var frame := if error then c.errorFrame(x) else c.endFrame(x);
    assert Runs.Released(m, x);
    NoEndYet(m.notes, x);
    Runs.EndedShape(c, m, x, error, sendThrows);
    var kept :| Keeps(m, id, kept);
    assert Keeps(t, id, kept);
    hide Keeps, Forced, Ended, Runs.LastFrameFails;
    ForcedWire(c, t, x, frame, sendThrows, true, id);
    var plain := Forced(c, t, x, frame, sendThrows, true);
    ReturnsAside(plain, plain.returned + multiset{x}, id);
  }

  lemma ReturnsAside(m: Mux, returned: multiset<string>, id: string)
    requires WireOk(m, id)
    ensures WireOk(m.(returned := returned), id)
  {
    var kept :| Keeps(m, id, kept);
    assert Keeps(m.(returned := returned), id, kept);
  }

  /** Dropping leaves of a stream what has been sent. */
  lemma DropKeepsSent(m: Mux, x: string, id: string)
    requires m.open && x in m.streams && Runs.NotesEnd(m) && WireOk(m, id)
    ensures var t := m.(sender := Drop(m.sender, x), dropped := m.dropped + {x});
      exists kept :: Keeps(t, id, kept)
  {
    var t := m.(sender := Drop(m.sender, x), dropped := m.dropped + {x});
    DroppedQueue(m.sender, x, id);
    var kept :| Keeps(m, id, kept);
    if id == x {
      NoEndYet(m.notes, x);
      var sent := Fair.SentOf(m.sender.log, x);
      SentIsPrefix(m.sender, x);
      assert Keeps(t, id, sent);
    } else {
      assert Keeps(t, id, kept);
    }
  }

  lemma CancelledWire(m: Mux, x: string, id: string)
    requires Runs.Kept(m) && m.open && WireOk(m, id)
    ensures WireOk(Cancelled(m, x), id)
  {
    if x in m.streams {
      assert Runs.Released(m, x);
      DropKeepsSent(m, x, id);
      var t := m.(sender := Drop(m.sender, x), dropped := m.dropped + {x});
        var kept :| Keeps(t, id, kept);
      assert Keeps(Cancelled(m, x), id, kept);
    }
  }

  lemma OverflowedWire(c: Config, m: Mux, x: string, kind: OverflowKind, sendThrows: bool, id: string)
    requires Runs.Invariant(c, m) && m.open && WireOk(m, id)
    ensures WireOk(Overflowed(c, m, x, kind, sendThrows), id)
  {
    if kind.SocketOverflow? {
      FailWire(m, id);
    } else if x in m.streams {
      assert Runs.Released(m, x);
      DropKeepsSent(m, x, id);
      var t := m.(sender := Drop(m.sender, x), dropped := m.dropped + {x});
      Runs.DropShape(c, m.sender, x);
      Runs.SenderChanged(c, m, t);
      hide Drop, Ended, Keeps, ParseId;
      EndedWire(c, t, x, true, sendThrows, id);
    }
  }

  lemma StartedWire(c: Config, m: Mux, x: string, result: OpenResult, sendThrows: bool, id: string)
    requires Runs.Kept(m) && m.open && WireOk(m, id)
    ensures WireOk(Started(c, m, x, result, sendThrows), id)
  {
    if x != "" {
      if result.Malformed? {
        ForcedWire(c, m, x, c.errorFrame(x), sendThrows, false, id);
      } else if !Acceptable(m, x) {
        FailWire(m, id);
      } else {
        NumberedWire(m, x, id);
        if x in m.streams {
          FailWire(Numbered(m, x), id);
        } else if result.Throws? {
          ForcedWire(c, Numbered(m, x), x, c.errorFrame(x), sendThrows, false, id);
        }
      }
    }
  }

  lemma NumberedWire(m: Mux, x: string, id: string)
    requires Runs.Kept(m) && m.open && Acceptable(m, x) && WireOk(m, id)
    ensures WireOk(Numbered(m, x), id)
    ensures WireOk(Numbered(m, x).(streams := m.streams[x := OPENED], opens := m.opens + [x]), id)
  {
    hide ParseId;
    var a := Numbered(m, x);
    var n := a.(streams := m.streams[x := OPENED], opens := m.opens + [x]);
    assert x !in m.opens;
    var kept :| Keeps(m, id, kept);
    assert Keeps(a, id, kept) && Keeps(n, id, kept);
  }

  lemma YieldsWire(c: Config, m: Mux, x: string, item: Item, sendThrows: bool, id: string)
    requires Runs.Invariant(c, m) && m.open && x in m.streams && m.streams[x].pumping && WireOk(m, id)
    ensures WireOk(Pump(c, m, x, Yields(item), sendThrows), id)
  {
    assert Runs.Released(m, x);
    if Enqueue(c.limits, m.sender, x, item, false, sendThrows).1.Accepted? {
      NoEndYet(m.notes, x);
      NotedWire(c, m, Frame(x, item), false, sendThrows, m.refused, id);
      hide Enqueue, Runs.Invariant, WireOk;
    } else {
      NotQueuedWire(c, m, x, item, sendThrows, id);
    }
  }

  lemma NotQueuedWire(c: Config, m: Mux, x: string, item: Item, sendThrows: bool, id: string)
    requires Runs.Invariant(c, m) && m.open && Live(m, x) && m.streams[x].pumping && WireOk(m, id)
    requires !Enqueue(c.limits, m.sender, x, item, false, sendThrows).1.Accepted?
    ensures WireOk(Pump(c, m, x, Yields(item), sendThrows), id)
  {
    var (s, r) := Enqueue(c.limits, m.sender, x, item, false, sendThrows);
    NotAccepted(c, m.sender, x, item, sendThrows, id);
    Runs.EnqueueShape(c, m.sender, x, item, false, sendThrows);
    Runs.SenderChanged(c, m, m.(sender := s));
    hide Enqueue, Overflowed, Fair.Invariant, ParseId, WireOk, Fair.Stream, Fair.SentOf;
    SameStream(m, m.(sender := s), id);
    match r
    case Overflow(kind) => OverflowedWire(c, m.(sender := s), x, kind, sendThrows, id);
    case Failed =>
    case Refused => SameStream(m, m.(sender := s, streams := m.streams[x := m.streams[x].(pumping := false)]), id);
  }

  lemma NotAccepted(c: Config, s: Sender, x: string, item: Item, sendThrows: bool, id: string)
    ensures var (t, r) := Enqueue(c.limits, s, x, item, false, sendThrows);
      !r.Accepted? ==> !r.Failed? && t.closed == s.closed && t.log == s.log && Fair.Stream(t, id) == Fair.Stream(s, id)
  {}

  lemma SameStream(m: Mux, t: Mux, id: string)
    requires WireOk(m, id) && t.open == m.open && t.notes == m.notes && t.dropped == m.dropped && t.refused == m.refused
    requires t.opens == m.opens && t.streams.Keys == m.streams.Keys
    requires t.sender.log == m.sender.log && Fair.Stream(t.sender, id) == Fair.Stream(m.sender, id)
    ensures WireOk(t, id)
  {
    var kept :| Keeps(m, id, kept);
    assert Keeps(t, id, kept);
  }

  lemma SendWire(c: Config, m: Mux, error: bool, sendThrows: bool, id: string)
    requires Runs.Invariant(c, m) && WireOk(m, id)
    ensures WireOk(Step(c, m, SendDone(error), sendThrows), id)
  {
    if m.sender.flight.Some? {
      var s := Complete(m.sender, error, sendThrows);
      Completed(m.sender, error, sendThrows, id);
      Runs.ClosedStays(m.sender, error, sendThrows);
      var t := m.(sender := s);
      var gaveUp := GaveUp(m.sender, s);
      hide Complete, Fair.Invariant, ParseId, BeforeEnd, FromEnd, Fair.Stream, Fair.SentOf, Watched;
      var kept :| Keeps(m, id, kept);
      if m.open {
        assert kept + FromEnd(m.notes, id) + [] == kept + FromEnd(m.notes, id)
          && Fair.Stream(m.sender, id) + [] == Fair.Stream(m.sender, id);
        GrownWire(m, t, gaveUp, id, kept, kept, []);
      } else {
        assert Keeps(t, id, kept);
        NotWatched(t, gaveUp);
      }
    }
  }

  lemma NotWatched(t: Mux, gaveUp: bool)
    ensures !t.open ==> Watched(t, gaveUp) == t
  {}

  lemma StepWire(c: Config, m: Mux, op: MuxOp, sendThrows: bool, id: string)
    requires Runs.Invariant(c, m) && WireOk(m, id)
    ensures WireOk(Step(c, m, op, sendThrows), id)
  {
    hide WireOk, Started, Cancelled, Ended, FailSocket, ParseId, Fair.Invariant;
    match op
    case OpenStream(x, result) => if m.open { StartedWire(c, m, x, result, sendThrows, id); }
    case CancelStream(x) => if m.open { CancelledWire(m, x, id); }
    case Pull(x, pulled) =>
      if m.open && x in m.streams && m.streams[x].pumping {
        assert Runs.Released(m, x);
        match pulled
        case Done => LiveEndedWire(c, m, x, false, sendThrows, id);
        case Fails => LiveEndedWire(c, m, x, true, sendThrows, id);
        case Yields(item) => YieldsWire(c, m, x, item, sendThrows, id);
      }
    case SendDone(error) => SendWire(c, m, error, sendThrows, id);
    case SocketEnds => FailWire(m, id);
    case SocketHalfCloses => SameStream(m, m.(sender := m.sender.(socketOpen := false)), id);
  }

  lemma LiveEndedWire(c: Config, m: Mux, x: string, error: bool, sendThrows: bool, id: string)
    requires Runs.Invariant(c, m) && m.open && x in m.streams && WireOk(m, id)
    ensures WireOk(Ended(c, m, x, error, sendThrows), id)
  {
    EndedWire(c, m, x, error, sendThrows, id);
  }

  lemma {:induction false} RunWire(c: Config, steps: seq<(MuxOp, bool)>, id: string)
    ensures WireOk(RunMux(c, steps), id)
  {
    if steps == [] {
      assert Keeps(FRESH, id, []);
    } else {
      hide WireOk, Step, Runs.Invariant;
      Runs.RunKeeps(c, steps[..|steps| - 1]);
      RunWire(c, steps[..|steps| - 1], id);
      StepWire(c, RunMux(c, steps[..|steps| - 1]), steps[|steps| - 1].0, steps[|steps| - 1].1, id);
    }
  }

  // ---- The theorem -----------------------------------------------------------------------------

  /** Under any id the wire is a prefix of what was accepted before the stream's end, followed by what was accepted from
      the end on, all in order of acceptance: the stream's items and at most one ending frame, and among them the
      refusals of requests under that id. Nothing is left out before the end unless it was dropped by a cancel or an
      overflow. */
  lemma OneStreamOnTheWire(c: Config, steps: seq<(MuxOp, bool)>, id: string) returns (kept: seq<Item>)
    ensures var m := RunMux(c, steps);
      && kept <= BeforeEnd(m.notes, id) && (id !in m.dropped ==> kept == BeforeEnd(m.notes, id))
      && Fair.SentOf(m.sender.log, id) <= kept + FromEnd(m.notes, id) && |Ends(m.notes, id)| <= 1
  {
    var m := RunMux(c, steps);
    RunWire(c, steps, id);
    Runs.RunKeeps(c, steps);
    AtMostOneEnd(m.notes, id);
    kept :| Keeps(m, id, kept);
  }

  /** The frames that end the stream. */
  function Ends(notes: seq<Note>, id: string): seq<Item> {
    if notes == [] then []
    else
      var n := notes[|notes| - 1];
      Ends(notes[..|notes| - 1], id) + if n.Terminal? && n.id == id then [n.item] else []
  }

  /** The items accepted for the stream. */
  function Frames(notes: seq<Note>, id: string): seq<Item> {
    if notes == [] then []
    else
      var n := notes[|notes| - 1];
      Frames(notes[..|notes| - 1], id) + if n.Frame? && n.id == id then [n.item] else []
  }

  lemma {:induction false} AtMostOneEnd(notes: seq<Note>, id: string)
    requires forall i, j :: 0 <= i < j < |notes| && notes[i].Terminal? && notes[j].Terminal? ==>
      notes[j].id != notes[i].id
    ensures |Ends(notes, id)| <= 1
  {
    if notes != [] {
      var n := |notes| - 1;
      AtMostOneEnd(notes[..n], id);
      if notes[n].Terminal? && notes[n].id == id { NoTerminal(notes[..n], id); }
    }
  }

  lemma {:induction false} NoTerminal(notes: seq<Note>, id: string)
    requires forall i :: 0 <= i < |notes| && notes[i].Terminal? ==> notes[i].id != id
    ensures Ends(notes, id) == []
  {
    if notes != [] { NoTerminal(notes[..|notes| - 1], id); }
  }

  /** Under an id that no request was refused for, that is a prefix of the stream's items and at most its one ending
      frame. */
  lemma OneStreamUnrefused(c: Config, steps: seq<(MuxOp, bool)>, id: string) returns (kept: seq<Item>)
    requires id !in RunMux(c, steps).refused
    ensures var m := RunMux(c, steps);
      && kept <= Frames(m.notes, id) && (id !in m.dropped ==> kept == Frames(m.notes, id))
      && Fair.SentOf(m.sender.log, id) <= kept + Ends(m.notes, id) && |Ends(m.notes, id)| <= 1
  {
    kept := OneStreamOnTheWire(c, steps, id);
    Runs.RunKeeps(c, steps);
    WithoutRefusals(RunMux(c, steps).notes, id);
  }

  lemma {:induction false} WithoutRefusals(notes: seq<Note>, id: string)
    requires forall i :: 0 <= i < |notes| && notes[i].Refusal? ==> notes[i].id != id
    ensures BeforeEnd(notes, id) == Frames(notes, id) && FromEnd(notes, id) == Ends(notes, id)
  {
    if notes != [] { WithoutRefusals(notes[..|notes| - 1], id); }
  }

  // ---- After a cancel --------------------------------------------------------------------------

  /** An opened stream that has left the table with nothing waiting. */
  predicate Silent(m: Mux, x: string) {
    x in m.opens && x !in m.streams && (m.open ==> QueueOf(m.sender, x).items == [])
  }

  /** Between the two states nothing of stream `x` was sent. */
  predicate StaysSilent(m: Mux, t: Mux, x: string) {
    Silent(t, x) && Fair.SentOf(t.sender.log, x) == Fair.SentOf(m.sender.log, x)
  }

  lemma {:induction false} SentGrows(log: seq<Sent>, more: seq<Sent>, x: string)
    requires log <= more
    ensures Fair.SentOf(log, x) <= Fair.SentOf(more, x)
    decreases |more|
  {
    if log != more {
      assert log <= more[..|more| - 1];
      SentGrows(log, more[..|more| - 1], x);
    } else {
      assert log == more;
    }
  }

  /** A sender that handed on what the stream had keeps an empty queue empty. */
  lemma NothingWaits(s: Sender, t: Sender, x: string)
    requires QueueOf(s, x).items == [] && s.log <= t.log && Fair.Stream(t, x) == Fair.Stream(s, x)
    ensures QueueOf(t, x).items == [] && Fair.SentOf(t.log, x) == Fair.SentOf(s.log, x)
  {
    SentGrows(s.log, t.log, x);
  }

  lemma SilentEnqueue(c: Config, m: Mux, y: string, item: Item, force: bool, sendThrows: bool, x: string)
    requires Runs.Consistent(m) && m.open && Silent(m, x) && y != x && Fair.Invariant(c.limits, m.sender)
    ensures var (s, r) := Enqueue(c.limits, m.sender, y, item, force, sendThrows);
      && Fair.SentOf(s.log, x) == Fair.SentOf(m.sender.log, x) && (s.closed || QueueOf(s, x).items == [])
      && (r.Failed? ==> s.closed) && (!force && !r.Accepted? ==> !s.closed && !r.Failed?)
  {
    var (s, r) := Enqueue(c.limits, m.sender, y, item, force, sendThrows);
    Enqueued(c, m.sender, y, item, force, sendThrows, x);
    FailedMeansClosed(c, m.sender, y, item, force, sendThrows);
    if !force { Runs.OnlyAcceptedGivesUp(c, m.sender, y, item, sendThrows); }
    Fair.StepLog(c.limits, m.sender, Fair.Move(DoEnqueue(y, item, force), sendThrows));
    hide Enqueue, Fair.Invariant, Fair.Stream, Fair.SentOf;
    if !s.closed {
      assert Fair.Stream(m.sender, x) + [] == Fair.Stream(m.sender, x);
      NothingWaits(m.sender, s, x);
    }
  }

  lemma SilentForced(c: Config, m: Mux, y: string, frame: Item, sendThrows: bool, terminal: bool, x: string)
    requires Runs.Consistent(m) && m.open && Silent(m, x) && y != x && Fair.Invariant(c.limits, m.sender)
    ensures StaysSilent(m, Forced(c, m, y, frame, sendThrows, terminal), x)
  {
    SilentEnqueue(c, m, y, frame, true, sendThrows, x);
    hide Enqueue, Fair.Invariant, Fair.SentOf;
  }

  lemma SilentEnded(c: Config, m: Mux, y: string, error: bool, sendThrows: bool, x: string)
    requires Runs.Consistent(m) && m.open && Silent(m, x) && Fair.Invariant(c.limits, m.sender)
    ensures StaysSilent(m, Ended(c, m, y, error, sendThrows), x)
  {
    hide Fair.Invariant, Fair.SentOf, Forced;
    if Live(m, y) {
      SilentForced(c, Marked(m, y, error), y, if error then c.errorFrame(y) else c.endFrame(y), sendThrows, true, x);
    }
  }

  lemma SilentDrop(m: Mux, y: string, x: string)
    requires Silent(m, x)
    ensures StaysSilent(m, m.(sender := Drop(m.sender, y)), x)
  {}

  lemma SilentPump(c: Config, m: Mux, y: string, pulled: Pulled, sendThrows: bool, x: string)
    requires Runs.Consistent(m) && m.open && Silent(m, x) && Live(m, y) && m.streams[y].pumping
    requires Fair.Invariant(c.limits, m.sender)
    ensures StaysSilent(m, Pump(c, m, y, pulled, sendThrows), x)
  {
    match pulled
    case Done => SilentEnded(c, m, y, false, sendThrows, x);
    case Fails => SilentEnded(c, m, y, true, sendThrows, x);
    case Yields(item) =>
      var (s, r) := Enqueue(c.limits, m.sender, y, item, false, sendThrows);
      SilentEnqueue(c, m, y, item, false, sendThrows, x);
      if r.Overflow? && !r.kind.SocketOverflow? {
        Runs.EnqueueShape(c, m.sender, y, item, false, sendThrows);
        Runs.DropShape(c, s, y);
        SilentDrop(m.(sender := s), y, x);
        SilentEnded(c, m.(sender := Drop(s, y), dropped := m.dropped + {y}), y, true, sendThrows, x);
      }
      hide Enqueue, Drop, Ended, Fair.Invariant, Fair.SentOf;
  }

  lemma SilentStart(c: Config, m: Mux, y: string, result: OpenResult, sendThrows: bool, x: string)
    requires Runs.Invariant(c, m) && m.open && Silent(m, x) && x !in Started(c, m, y, result, sendThrows).refused
    ensures StaysSilent(m, Started(c, m, y, result, sendThrows), x)
  {
    if y != "" {
      if result.Malformed? {
        if y != x { SilentForced(c, m, y, c.errorFrame(y), sendThrows, false, x); }
        else { RefusedNow(c, m, y, c.errorFrame(y), sendThrows); }
      } else if Acceptable(m, y) {
        Runs.NewIds(c, m, y);
        if y !in m.streams && result.Throws? {
          SilentForced(c, Numbered(m, y), y, c.errorFrame(y), sendThrows, false, x);
        }
      }
    }
    hide Fair.Invariant, ParseId, Forced, Fair.SentOf, Runs.IdsRise, Runs.Released, Runs.NotesEnd;
  }

  lemma RefusedNow(c: Config, m: Mux, y: string, frame: Item, sendThrows: bool)
    ensures y in Forced(c, m, y, frame, sendThrows, false).refused
  {
    hide Enqueue;
  }

  lemma SilentSend(c: Config, m: Mux, error: bool, sendThrows: bool, x: string)
    requires Runs.Invariant(c, m) && Silent(m, x)
    ensures StaysSilent(m, Step(c, m, SendDone(error), sendThrows), x)
  {
    if m.sender.flight.Some? {
      var s := Complete(m.sender, error, sendThrows);
      Completed(m.sender, error, sendThrows, x);
      Runs.ClosedStays(m.sender, error, sendThrows);
      Fair.StepLog(c.limits, m.sender, Fair.Move(DoComplete(error), sendThrows));
      hide Complete, Fair.Invariant, ParseId, Fair.Stream, Fair.SentOf;
      if !s.closed { NothingWaits(m.sender, s, x); }
    }
  }

  lemma SilentStep(c: Config, m: Mux, op: MuxOp, sendThrows: bool, x: string)
    requires Runs.Invariant(c, m) && Silent(m, x) && x !in Step(c, m, op, sendThrows).refused
    ensures StaysSilent(m, Step(c, m, op, sendThrows), x)
  {
    hide Started, Pump, Fair.Invariant, Fair.SentOf, ParseId, Drop;
    match op
    case OpenStream(y, result) => if m.open { SilentStart(c, m, y, result, sendThrows, x); }
    case CancelStream(y) => SilentDrop(m, y, x);
    case Pull(y, pulled) => SilentPulled(c, m, y, pulled, sendThrows, x);
    case SendDone(error) => SilentSend(c, m, error, sendThrows, x);
    case SocketEnds =>
    case SocketHalfCloses =>
  }

  lemma SilentPulled(c: Config, m: Mux, y: string, pulled: Pulled, sendThrows: bool, x: string)
    requires Runs.Invariant(c, m) && Silent(m, x)
    ensures StaysSilent(m, Pump(c, m, y, pulled, sendThrows), x)
  {
    if m.open && Live(m, y) && m.streams[y].pumping { SilentPump(c, m, y, pulled, sendThrows, x); }
    else { hide Fair.Invariant, Ended, Enqueue; }
  }

  lemma RefusedStep(c: Config, m: Mux, op: MuxOp, sendThrows: bool, x: string)
    requires x in m.refused
    ensures x in Step(c, m, op, sendThrows).refused
  {
    hide Enqueue, Complete, Drop, ParseId;
  }

  /** From the cancel of a live stream on, whatever happens next, nothing more of it is handed to the socket: what the
      browser still receives was already sent or in flight. (Ids of refused requests aside, as above.) */
  lemma {:induction false} CancelledStaysSilent(c: Config, steps: seq<(MuxOp, bool)>, n: nat, x: string)
    requires n < |steps| && steps[n].0 == CancelStream(x)
    requires RunMux(c, steps[..n]).open && x in RunMux(c, steps[..n]).streams && x !in RunMux(c, steps).refused
    ensures StaysSilent(RunMux(c, steps[..n]), RunMux(c, steps), x)
  {
    var front, last := steps[..|steps| - 1], steps[|steps| - 1];
    Runs.RunKeeps(c, front);
    if n == |steps| - 1 {
      assert steps[..n] == front;
      CancelledNow(c, RunMux(c, front), x);
    } else {
      assert front[..n] == steps[..n];
      hide Step, Silent, Runs.Invariant;
      if x in RunMux(c, front).refused { RefusedStep(c, RunMux(c, front), last.0, last.1, x); }
      CancelledStaysSilent(c, front, n, x);
      SilentStep(c, RunMux(c, front), last.0, last.1, x);
    }
  }

  lemma CancelledNow(c: Config, m: Mux, x: string)
    requires Runs.Invariant(c, m) && x in m.streams
    ensures StaysSilent(m, Cancelled(m, x), x)
  {
    assert Runs.Released(m, x);
  }
}
