/** The life of a socket's streams, over every run: ids are never reused, each stream ends once, and every iterator is
    released. */
module StreamMuxRuns {
  import opened Prelude
  import opened FairSender
  import Fair = FairSenderRuns
  import opened StreamMux

  /** A failed socket has no live stream and a closed sender; an open one has a sender that has not given up. */
  ghost predicate Consistent(m: Mux) {
    (m.open ==> !m.sender.closed) && (!m.open ==> m.sender.closed && m.streams == map[])
  }

  /** Stream numbers rise from one accepted stream to the next, behind one prefix. */
  ghost predicate IdsRise(m: Mux) {
    && (forall i :: 0 <= i < |m.opens| ==> ParseId(m.opens[i]).Some? && ParseId(m.opens[i]).value.1 <= m.lastNumber
                                           && m.prefix == Some(ParseId(m.opens[i]).value.0))
    && (forall i, j :: 0 <= i < j < |m.opens| ==> ParseId(m.opens[i]).value.1 < ParseId(m.opens[j]).value.1)
  }

  /** Between steps every record of the table is live, its iterator not returned. The iterator of a stream that is over
      has been returned once, unless it ended by itself: then at most once, and not while the socket is open. */
  ghost predicate Released(m: Mux, id: string) {
    && (id in m.streams || id in m.ended ==> id in m.opens) && !(id in m.streams && id in m.ended)
    && (id in m.streams ==> !m.streams[id].terminal && !m.streams[id].returned)
    && (id !in m.ended ==> m.returned[id] == (if id in m.opens && id !in m.streams then 1 else 0))
    && (id in m.ended ==> m.returned[id] <= (if m.open then 0 else 1))
  }

  /** A terminal frame, or a refusal behind the end of the stream. */
  predicate Last(n: Note) {
    n.Terminal? || (n.Refusal? && n.over)
  }

  /** Frames are noted only of opened streams, refusals only of refused requests; a terminal frame comes once, when the
      stream's record goes, and only refusals of its id come behind the end. */
  ghost predicate NotesEnd(m: Mux) {
    && (forall i :: 0 <= i < |m.notes| && m.notes[i].Frame? ==> m.notes[i].id in m.opens)
    && (forall i :: 0 <= i < |m.notes| && m.notes[i].Refusal? ==> m.notes[i].id in m.refused)
    && (forall i :: 0 <= i < |m.notes| && Last(m.notes[i]) ==> Over(m, m.notes[i].id))
    && (forall i, j :: 0 <= i < j < |m.notes| && Last(m.notes[i]) && m.notes[j].id == m.notes[i].id ==>
          Last(m.notes[j]) && !(m.notes[i].Terminal? && m.notes[j].Terminal?))
  }

  ghost predicate Kept(m: Mux) {
    Consistent(m) && IdsRise(m) && (forall id :: Released(m, id)) && NotesEnd(m)
  }

  ghost predicate Invariant(c: Config, m: Mux) {
    Kept(m) && Fair.Invariant(c.limits, m.sender)
  }

  // ---- Steps -----------------------------------------------------------------------------------

  lemma FailKeeps(c: Config, m: Mux)
    requires IdsRise(m) && (forall id :: Released(m, id)) && NotesEnd(m)
    requires (!m.open ==> Consistent(m)) && (!m.open ==> Fair.Invariant(c.limits, m.sender))
    ensures Invariant(c, FailSocket(m))
  {
    Fair.ClosedKeeps(c.limits, m.sender);
    var f := FailSocket(m);
    if m.open {
      hide Fair.Invariant, ParseId;
      forall id ensures Released(f, id) {
        assert Released(m, id);
        assert multiset(Held(m.streams))[id] == if id in m.streams then 1 else 0;
      }
    }
  }

  /** What the invariant needs to know of a change to the sender. */
  lemma EnqueueShape(c: Config, s: Sender, id: string, item: Item, force: bool, sendThrows: bool)
    requires Fair.Invariant(c.limits, s)
    ensures Fair.Invariant(c.limits, Enqueue(c.limits, s, id, item, force, sendThrows).0)
    ensures s.closed ==> Enqueue(c.limits, s, id, item, force, sendThrows) == (s, Refused)
  {
    Fair.EnqueueKeeps(c.limits, s, id, item, force, sendThrows);
  }

  lemma DropShape(c: Config, s: Sender, id: string)
    requires Fair.Invariant(c.limits, s)
    ensures Fair.Invariant(c.limits, Drop(s, id)) && Drop(s, id).closed == s.closed
  {
    Fair.DropKeeps(c.limits, s, id);
  }

  /** The state is kept but for the sender, which may have given up just now. */
  lemma WatchedKeeps(c: Config, m: Mux, gaveUp: bool)
    requires IdsRise(m) && (forall id :: Released(m, id)) && NotesEnd(m) && Fair.Invariant(c.limits, m.sender)
    requires (!m.open ==> Consistent(m)) && (!gaveUp ==> Consistent(m))
    ensures Invariant(c, Watched(m, gaveUp))
  {
    if gaveUp { FailKeeps(c, m); }
  }

  /** A change to the sender and the records of dropped and refused ids alone. */
  lemma SenderChanged(c: Config, m: Mux, t: Mux)
    requires Invariant(c, m) && Fair.Invariant(c.limits, t.sender)
      && t == m.(sender := t.sender, dropped := t.dropped, refused := t.refused) && m.refused <= t.refused
    ensures IdsRise(t) && (forall id :: Released(t, id)) && NotesEnd(t)
    ensures t.sender.closed == m.sender.closed ==> Invariant(c, t)
  {
    hide Fair.Invariant, ParseId;
    forall k ensures Released(t, k) { assert Released(m, k); }
  }

  lemma NoteTerminal(m: Mux, id: string, frame: Item)
    requires NotesEnd(m) && id in m.opens && id !in m.streams
      && forall i :: 0 <= i < |m.notes| && Last(m.notes[i]) ==> m.notes[i].id != id
    ensures NotesEnd(m.(notes := m.notes + [Terminal(id, frame)]))
  {}

  lemma NoteRefusal(m: Mux, id: string, frame: Item)
    requires NotesEnd(m) && id in m.refused
    ensures NotesEnd(m.(notes := m.notes + [Refusal(id, frame, Over(m, id))]))
  {}

  lemma NotedKeeps(c: Config, m: Mux, note: Note, gaveUp: bool)
    requires IdsRise(m) && (forall id :: Released(m, id)) && NotesEnd(m.(notes := m.notes + [note]))
      && Fair.Invariant(c.limits, m.sender)
    requires (!m.open ==> Consistent(m)) && (!gaveUp ==> Consistent(m))
    ensures Invariant(c, Watched(m.(notes := m.notes + [note]), gaveUp))
  {
    var m1 := m.(notes := m.notes + [note]);
    hide Fair.Invariant, ParseId, Watched;
    forall k ensures Released(m1, k) { assert Released(m, k); }
    assert IdsRise(m1);
    WatchedKeeps(c, m1, gaveUp);
  }

  lemma ForcedKeeps(c: Config, m: Mux, id: string, frame: Item, sendThrows: bool, terminal: bool)
    requires Invariant(c, m)
    requires terminal ==>
      id in m.opens && id !in m.streams
      && forall i :: 0 <= i < |m.notes| && Last(m.notes[i]) ==> m.notes[i].id != id
    ensures Invariant(c, Forced(c, m, id, frame, sendThrows, terminal))
  {
    EnqueueShape(c, m.sender, id, frame, true, sendThrows);
    var (s, r) := Enqueue(c.limits, m.sender, id, frame, true, sendThrows);
    var t := m.(sender := s, refused := if terminal then m.refused else m.refused + {id});
    SenderChanged(c, m, t);
    hide Enqueue, Fair.Invariant, ParseId, Watched, Released;
    if r.Accepted? && terminal {
      NoteTerminal(t, id, frame);
      NotedKeeps(c, t, Terminal(id, frame), GaveUp(m.sender, s));
    } else if r.Accepted? {
      NoteRefusal(t, id, frame);
      NotedKeeps(c, t, Refusal(id, frame, Over(m, id)), GaveUp(m.sender, s));
    } else {
      WatchedKeeps(c, t, r.Failed? || GaveUp(m.sender, s));
    }
  }

  /** The state of the end of a stream had its record left the table first. */
  ghost function Removed(m: Mux, id: string, error: bool): Mux
    requires id in m.streams
  {
    m.(streams := m.streams - {id}, returned := if error then m.returned + multiset{id} else m.returned,
       ended := if error then m.ended else m.ended + {id})
  }

  /** Whether the last frame of a stream cannot be queued or sent: readable before the step. */
  predicate LastFrameFails(c: Config, m: Mux, id: string, frame: Item, sendThrows: bool) {
    && m.sender.socketOpen
    && (|| frame.bytes > c.limits.maxFrameBytes
        || QueueOf(m.sender, id).bytes + frame.bytes > c.limits.maxStreamQueuedBytes
        || m.sender.queuedBytes + frame.bytes > c.limits.maxSocketQueuedBytes
        || (m.sender.flight.None? && sendThrows))
  }

  /** A forced frame fails an idle socket's sender exactly then. */
  lemma ForcedFails(c: Config, s: Sender, m: Mux, id: string, frame: Item, sendThrows: bool)
    requires Fair.Invariant(c.limits, s) && !s.closed && m.sender == s
    ensures var (t, r) := Enqueue(c.limits, s, id, frame, true, sendThrows);
      (r.Failed? || t.closed <==> LastFrameFails(c, m, id, frame, sendThrows))
        && (r.Accepted? && t.closed ==> sendThrows)
  {
    if s.flight.None? && s.socketOpen {
      assert s.ready == [];
      assert id in s.queues ==> !s.queues[id].ready by {
        assert id !in s.ready;
      }
    }
  }

  /** Two tables under the same sender: a forced frame fails both or neither. */
  lemma ForcedAlike(c: Config, a: Mux, b: Mux, id: string, frame: Item, sendThrows: bool)
    requires a.open && !a.sender.closed && Fair.Invariant(c.limits, a.sender)
    requires a == b.(streams := a.streams, returned := a.returned)
    ensures var fails := LastFrameFails(c, a, id, frame, sendThrows);
      var f, g := Forced(c, a, id, frame, sendThrows, true), Forced(c, b, id, frame, sendThrows, true);
      && f == g.(streams := f.streams, returned := f.returned) && f.open == !fails
      && f.streams == (if fails then map[] else a.streams) && g.streams == (if fails then map[] else b.streams)
      && f.returned == a.returned + (if fails then multiset(Held(a.streams)) else multiset{})
      && g.returned == b.returned + (if fails then multiset(Held(b.streams)) else multiset{})
  {
    ForcedFails(c, a.sender, a, id, frame, sendThrows);
    hide Enqueue, Fair.Invariant, LastFrameFails;
  }

  lemma HeldStreams(m: Mux, id: string, error: bool)
    requires id in m.streams && !m.streams[id].returned
    ensures var before, after := Marked(m, id, error), Removed(m, id, error);
      && before == after.(streams := before.streams, returned := before.returned) && before.returned == after.returned
      && before.streams - {id} == after.streams
      && multiset(Held(before.streams)) == multiset(Held(after.streams)) + if error then multiset{} else multiset{id}
  {
    var before, after := Marked(m, id, error), Removed(m, id, error);
    assert Held(before.streams) == Held(after.streams) + if error then {} else {id};
    assert id !in Held(after.streams);
  }

  /** The order in which `terminal` works matters in one case only: a stream that ended by itself and whose last frame
      fails the socket is still in the table then, so its iterator is returned after all. */
  lemma EndedShape(c: Config, m: Mux, id: string, error: bool, sendThrows: bool)
    requires Invariant(c, m) && m.open && id in m.streams
    ensures var frame := if error then c.errorFrame(id) else c.endFrame(id);
      var plain := Forced(c, Removed(m, id, error), id, frame, sendThrows, true);
      && plain.open == !LastFrameFails(c, m, id, frame, sendThrows)
      && Ended(c, m, id, error, sendThrows)
         == plain.(returned := if error || plain.open then plain.returned else plain.returned + multiset{id})
  {
    var frame := if error then c.errorFrame(id) else c.endFrame(id);
    assert Released(m, id);
    assert !m.sender.closed;
    var before, after := Marked(m, id, error), Removed(m, id, error);
    hide Invariant, Fair.Invariant, LastFrameFails, Released, Forced;
    HeldStreams(m, id, error);
    ForcedAlike(c, before, after, id, frame, sendThrows);
  }

  lemma EndedKeeps(c: Config, m: Mux, id: string, error: bool, sendThrows: bool)
    requires Invariant(c, m)
    ensures Invariant(c, Ended(c, m, id, error, sendThrows))
  {
    if id in m.streams {
      var frame := if error then c.errorFrame(id) else c.endFrame(id);
      EndedShape(c, m, id, error, sendThrows);
      RemovedKeeps(c, m, id, error);
      var m1 := Removed(m, id, error);
      var plain := Forced(c, m1, id, frame, sendThrows, true);
      ForcedKeeps(c, m1, id, frame, sendThrows, true);
      if !error && !plain.open { ReturnedLate(c, m1, plain, id, frame, sendThrows); }
    }
  }

  lemma RemovedKeeps(c: Config, m: Mux, id: string, error: bool)
    requires Invariant(c, m) && m.open && id in m.streams
    ensures Invariant(c, Removed(m, id, error)) && id in Removed(m, id, error).opens
    ensures forall i :: 0 <= i < |m.notes| && Last(m.notes[i]) ==> m.notes[i].id != id
  {
    hide Fair.Invariant, ParseId;
    var m1 := Removed(m, id, error);
    assert Released(m, id);
    forall k ensures Released(m1, k) { assert Released(m, k); }
  }

  /** A forced frame leaves the returns of an ended stream alone, so one more is within the bound. */
  lemma ReturnedLate(c: Config, m: Mux, plain: Mux, id: string, frame: Item, sendThrows: bool)
    requires m.open && Released(m, id) && id in m.ended && plain == Forced(c, m, id, frame, sendThrows, true)
    requires Invariant(c, plain) && !plain.open
    ensures Invariant(c, plain.(returned := plain.returned + multiset{id}))
  {
    assert id in plain.ended && plain.returned[id] == 0 by {
      hide Enqueue, Fair.Invariant, ParseId;
      assert id !in Held(m.streams);
    }
    hide Enqueue, Fair.Invariant, ParseId, Forced;
    var late := plain.(returned := plain.returned + multiset{id});
    forall k ensures Released(late, k) { assert Released(plain, k); }
  }

  lemma CancelledKeeps(c: Config, m: Mux, id: string)
    requires Invariant(c, m)
    ensures Invariant(c, Cancelled(m, id))
  {
    if id in m.streams {
      DropShape(c, m.sender, id);
      hide Fair.Invariant, ParseId, Drop;
      var m1 := Cancelled(m, id);
      assert Released(m, id);
      forall k ensures Released(m1, k) { assert Released(m, k); }
    }
  }

  lemma OverflowedKeeps(c: Config, m: Mux, id: string, kind: OverflowKind, sendThrows: bool)
    requires Invariant(c, m)
    ensures Invariant(c, Overflowed(c, m, id, kind, sendThrows))
  {
    if kind.SocketOverflow? {
      FailKeeps(c, m);
    } else if id in m.streams {
      DropShape(c, m.sender, id);
      var t := m.(sender := Drop(m.sender, id), dropped := m.dropped + {id});
      SenderChanged(c, m, t);
      hide Invariant, Drop, Ended;
      EndedKeeps(c, t, id, true, sendThrows);
    }
  }

  lemma OpenedKeeps(c: Config, m: Mux, id: string)
    requires Invariant(c, m) && m.open && Acceptable(m, id)
    ensures Invariant(c, Numbered(m, id))
      && Invariant(c, Numbered(m, id).(streams := m.streams[id := OPENED], opens := m.opens + [id]))
  {
    hide Fair.Invariant, ParseId;
    var a := Numbered(m, id);
    var n := a.(streams := m.streams[id := OPENED], opens := m.opens + [id]);
    assert id !in m.opens;
    forall k ensures Released(a, k) && Released(n, k) {
      assert Released(m, k);
      assert k in n.opens <==> k in m.opens || k == id;
    }
  }

  lemma StartedKeeps(c: Config, m: Mux, id: string, result: OpenResult, sendThrows: bool)
    requires Invariant(c, m) && m.open
    ensures Invariant(c, Started(c, m, id, result, sendThrows))
  {
    hide Invariant, Forced, FailSocket, ParseId;
    if id != "" {
      if result.Malformed? {
        ForcedKeeps(c, m, id, c.errorFrame(id), sendThrows, false);
      } else if !Acceptable(m, id) {
        FailNow(c, m);
      } else {
        OpenedKeeps(c, m, id);
        if id in m.streams { FailNow(c, Numbered(m, id)); }
        if result.Throws? { ForcedKeeps(c, Numbered(m, id), id, c.errorFrame(id), sendThrows, false); }
      }
    }
  }

  lemma FailNow(c: Config, m: Mux)
    requires Invariant(c, m)
    ensures Invariant(c, FailSocket(m))
  {
    FailKeeps(c, m);
  }

  lemma YieldsKeeps(c: Config, m: Mux, id: string, item: Item, sendThrows: bool)
    requires Invariant(c, m) && m.open && id in m.streams && m.streams[id].pumping
    ensures Invariant(c, Pump(c, m, id, Yields(item), sendThrows))
  {
    EnqueueShape(c, m.sender, id, item, false, sendThrows);
    var (s, r) := Enqueue(c.limits, m.sender, id, item, false, sendThrows);
    OnlyAcceptedGivesUp(c, m.sender, id, item, sendThrows);
    assert Released(m, id);
    SenderChanged(c, m, m.(sender := s));
    hide Enqueue, Fair.Invariant, ParseId, Overflowed, Watched, Released;
    match r
    case Accepted =>
      NoteFrame(m.(sender := s), id, item);
      NotedKeeps(c, m.(sender := s), Frame(id, item), GaveUp(m.sender, s));
    case Overflow(kind) => OverflowedKeeps(c, m.(sender := s), id, kind, sendThrows);
    case Refused => StalledKeeps(c, m.(sender := s), id);
    case Failed =>
  }

  lemma NoteFrame(m: Mux, id: string, item: Item)
    requires NotesEnd(m) && id in m.streams && id in m.opens
    ensures NotesEnd(m.(notes := m.notes + [Frame(id, item)]))
  {}

  lemma StalledKeeps(c: Config, m: Mux, id: string)
    requires Invariant(c, m) && m.open && id in m.streams
    ensures Invariant(c, m.(streams := m.streams[id := m.streams[id].(pumping := false)]))
  {
    hide Fair.Invariant, ParseId;
    var m1 := m.(streams := m.streams[id := m.streams[id].(pumping := false)]);
    forall k ensures Released(m1, k) { assert Released(m, k); }
  }

  /** Only a frame that was accepted is sent, so only then can a send fail. */
  lemma OnlyAcceptedGivesUp(c: Config, s: Sender, id: string, item: Item, sendThrows: bool)
    ensures var (t, r) := Enqueue(c.limits, s, id, item, false, sendThrows);
      !r.Accepted? ==> t.closed == s.closed && !r.Failed?
  {}

  lemma StepKeeps(c: Config, m: Mux, op: MuxOp, sendThrows: bool)
    requires Invariant(c, m)
    ensures Invariant(c, Step(c, m, op, sendThrows))
  {
    hide Invariant, Started, Cancelled, Ended, FailSocket;
    match op
    case OpenStream(id, result) => if m.open { StartedKeeps(c, m, id, result, sendThrows); }
    case CancelStream(id) => CancelledKeeps(c, m, id);
    case Pull(id, pulled) =>
      if m.open && id in m.streams && m.streams[id].pumping {
        match pulled
        case Done => EndedKeeps(c, m, id, false, sendThrows);
        case Fails => EndedKeeps(c, m, id, true, sendThrows);
        case Yields(item) => YieldsKeeps(c, m, id, item, sendThrows);
      }
    case SendDone(error) => SendKeeps(c, m, error, sendThrows);
    case SocketEnds => FailNow(c, m);
    case SocketHalfCloses => HalfCloseKeeps(c, m);
  }

  lemma SendKeeps(c: Config, m: Mux, error: bool, sendThrows: bool)
    requires Invariant(c, m)
    ensures Invariant(c, Step(c, m, SendDone(error), sendThrows))
  {
    if m.sender.flight.Some? {
      Fair.CompleteKeeps(c.limits, m.sender, error, sendThrows);
      var s := Complete(m.sender, error, sendThrows);
      ClosedStays(m.sender, error, sendThrows);
      SenderChanged(c, m, m.(sender := s));
      hide Complete, Fair.Invariant, IdsRise, Released, NotesEnd;
      WatchedKeeps(c, m.(sender := s), GaveUp(m.sender, s));
    }
  }

  lemma ClosedStays(s: Sender, error: bool, sendThrows: bool)
    requires s.flight.Some?
    ensures s.closed ==> Complete(s, error, sendThrows).closed
  {}

  lemma HalfCloseKeeps(c: Config, m: Mux)
    requires Invariant(c, m)
    ensures Invariant(c, Step(c, m, SocketHalfCloses, false))
  {
    Fair.NextKeeps(c.limits, m.sender, SocketCloses, false);
    hide Invariant, Fair.Invariant;
    SenderChanged(c, m, m.(sender := m.sender.(socketOpen := false)));
  }

  /** Every reachable state keeps all of this, and the sender inside it keeps its own invariant. */
  lemma {:induction false} RunKeeps(c: Config, steps: seq<(MuxOp, bool)>)
    ensures Invariant(c, RunMux(c, steps))
  {
    if steps == [] {
      FreshKept(c);
    } else {
      hide Invariant, Step;
      RunKeeps(c, steps[..|steps| - 1]);
      StepKeeps(c, RunMux(c, steps[..|steps| - 1]), steps[|steps| - 1].0, steps[|steps| - 1].1);
    }
  }

  lemma FreshKept(c: Config)
    ensures Invariant(c, FRESH)
  {}

  // ---- What it means ---------------------------------------------------------------------------

  /** No stream id is opened twice. */
  lemma IdsAreNeverReused(c: Config, steps: seq<(MuxOp, bool)>)
    ensures Distinct(RunMux(c, steps).opens)
  {
    RunKeeps(c, steps);
  }

  /** At most one terminal frame per opened stream, and no frame of the stream behind it: only refusals of its id. */
  lemma StreamsEndOnce(c: Config, steps: seq<(MuxOp, bool)>, i: nat, j: nat)
    requires var notes := RunMux(c, steps).notes; i < j < |notes| && notes[i].id == notes[j].id
    ensures var notes := RunMux(c, steps).notes; notes[i].Terminal? ==> notes[j].Refusal?
  {
    RunKeeps(c, steps);
  }

  /** Whether the step lets a live stream's iterator end by itself. */
  predicate EndsItself(m: Mux, op: MuxOp, id: string) {
    op == Pull(id, Done) && m.open && id in m.streams && m.streams[id].pumping
  }

  /** Whether some iterator's own end, somewhere in the run, came with an end frame that could not be queued or sent. */
  predicate EndFrameFailed(c: Config, steps: seq<(MuxOp, bool)>, id: string) {
    steps != [] &&
    var m, last := RunMux(c, steps[..|steps| - 1]), steps[|steps| - 1];
    || EndFrameFailed(c, steps[..|steps| - 1], id)
    || (EndsItself(m, last.0, id) && LastFrameFails(c, m, id, c.endFrame(id), last.1))
  }

  lemma OwnEnd(c: Config, m: Mux, id: string, sendThrows: bool)
    requires Invariant(c, m) && EndsItself(m, Pull(id, Done), id)
    ensures var t := Step(c, m, Pull(id, Done), sendThrows);
      id in t.ended && t.returned[id] == if LastFrameFails(c, m, id, c.endFrame(id), sendThrows) then 1 else 0
  {
    assert Released(m, id);
    EndedShape(c, m, id, false, sendThrows);
    var m1 := Removed(m, id, false);
    hide Enqueue, Invariant, ParseId, LastFrameFails;
    assert id !in Held(m1.streams);
  }

  /** No iterator ended by itself between the two states, and one that had is returned as often as before. */
  ghost predicate SameEnds(m: Mux, t: Mux, id: string) {
    (id in t.ended <==> id in m.ended) && (id in m.ended ==> id !in t.streams && t.returned[id] == m.returned[id])
  }

  lemma FailEnds(m: Mux, id: string)
    requires id in m.ended ==> id !in m.streams
    ensures SameEnds(m, FailSocket(m), id)
  {
    assert id in m.ended ==> id !in Held(m.streams);
  }

  lemma ForcedEnds(c: Config, m: Mux, x: string, frame: Item, sendThrows: bool, terminal: bool, id: string)
    requires id in m.ended ==> id !in m.streams
    ensures SameEnds(m, Forced(c, m, x, frame, sendThrows, terminal), id)
  {
    assert id in m.ended ==> id !in Held(m.streams);
    hide Enqueue;
  }

  lemma EndedEnds(c: Config, m: Mux, x: string, error: bool, sendThrows: bool, id: string)
    requires (id in m.ended ==> id !in m.streams) && (error || x != id)
    ensures SameEnds(m, Ended(c, m, x, error, sendThrows), id)
  {
    if Live(m, x) {
      hide Forced;
      ForcedEnds(c, Marked(m, x, error), x, if error then c.errorFrame(x) else c.endFrame(x), sendThrows, true, id);
    }
  }

  lemma PumpEnds(c: Config, m: Mux, x: string, pulled: Pulled, sendThrows: bool, id: string)
    requires (id in m.ended ==> id !in m.streams) && !EndsItself(m, Pull(x, pulled), id)
    ensures SameEnds(m, Pump(c, m, x, pulled, sendThrows), id)
  {
    hide Ended, FailSocket, Enqueue, Drop;
    if m.open && Live(m, x) && m.streams[x].pumping {
      match pulled
      case Done => EndedEnds(c, m, x, false, sendThrows, id);
      case Fails => EndedEnds(c, m, x, true, sendThrows, id);
      case Yields(item) =>
        var (s, r) := Enqueue(c.limits, m.sender, x, item, false, sendThrows);
        FailEnds(m.(sender := s), id);
        FailEnds(m.(sender := s, notes := m.notes + [Frame(x, item)]), id);
        EndedEnds(c, m.(sender := Drop(s, x), dropped := m.dropped + {x}), x, true, sendThrows, id);
    }
  }

  lemma StartedEnds(c: Config, m: Mux, x: string, result: OpenResult, sendThrows: bool, id: string)
    requires Invariant(c, m) && m.open && (id in m.ended ==> id !in m.streams)
    ensures SameEnds(m, Started(c, m, x, result, sendThrows), id)
  {
    FailEnds(m, id);
    ForcedEnds(c, m, x, c.errorFrame(x), sendThrows, false, id);
    if Acceptable(m, x) {
      NewIds(c, m, x);
      FailEnds(Numbered(m, x), id);
      ForcedEnds(c, Numbered(m, x), x, c.errorFrame(x), sendThrows, false, id);
    }
    hide Invariant, ParseId, FailSocket, Forced, Acceptable;
  }

  /** Any other step leaves the iterator of an ended stream alone, and lets none end by itself. */
  lemma OtherSteps(c: Config, m: Mux, op: MuxOp, sendThrows: bool, id: string)
    requires Invariant(c, m) && !EndsItself(m, op, id)
    ensures SameEnds(m, Step(c, m, op, sendThrows), id)
  {
    assert Released(m, id);
    FailEnds(m, id);
    hide Invariant, ParseId, FailSocket, Started, Pump, Complete, Drop, EndsItself;
    match op
    case OpenStream(x, result) => if m.open { StartedEnds(c, m, x, result, sendThrows, id); }
    case Pull(x, pulled) => PumpEnds(c, m, x, pulled, sendThrows, id);
    case SendDone(error) =>
      if m.sender.flight.Some? { FailEnds(m.(sender := Complete(m.sender, error, sendThrows)), id); }
    case _ =>
  }

  lemma NewIds(c: Config, m: Mux, x: string)
    requires Invariant(c, m) && Acceptable(m, x)
    ensures x !in m.opens && x !in m.ended
  {
    assert Released(m, x);
  }

  lemma {:induction false} EndedIsReturned(c: Config, steps: seq<(MuxOp, bool)>, id: string)
    ensures EndFrameFailed(c, steps, id) ==> id in RunMux(c, steps).ended
    ensures id in RunMux(c, steps).ended ==> RunMux(c, steps).returned[id] == if EndFrameFailed(c, steps, id) then 1
      else 0
  {
    if steps != [] {
      var front, last := steps[..|steps| - 1], steps[|steps| - 1];
      var m := RunMux(c, front);
      EndedIsReturned(c, front, id);
      RunKeeps(c, front);
      assert Released(m, id);
      hide Invariant, Step, LastFrameFails, Released;
      if EndsItself(m, last.0, id) {
        OwnEnd(c, m, id, last.1);
      } else {
        OtherSteps(c, m, last.0, last.1, id);
      }
    }
  }

  /** In every reachable state the iterators of live streams have not been returned. That of a stream that is over has
      been returned exactly once; only if it ended by itself it has not, unless its own end frame failed the socket. A
      failed socket has no live stream. */
  lemma NothingLeaks(c: Config, steps: seq<(MuxOp, bool)>, id: string)
    ensures var m := RunMux(c, steps);
      && (!m.open ==> m.streams == map[])
      && m.returned[id] == (if id !in m.opens || id in m.streams then 0
                            else if id in m.ended && !EndFrameFailed(c, steps, id) then 0 else 1)
  {
    RunKeeps(c, steps);
    EndedIsReturned(c, steps, id);
    assert Released(RunMux(c, steps), id);
  }

  lemma AnId()
    ensures ParseId("a:1") == Some(("a", 1))
  {
    assert LastColon("a:1") == 1;
    assert Digits36("1") == Some(1) by { assert Digits36("") == Some(0); assert "1"[..0] == ""; }
    assert "a:1"[2..] == "1" && "a:1"[..1] == "a";
  }

  /** Limits of 100 bytes for a frame and for a stream, and 30-byte frames at the end. */
  const TIGHT := Config(Limits(100, 100, 1000), _ => Item("end", 30), _ => Item("error", 30))

  const ONE_OPEN := Mux(true, map["a:1" := OPENED], Some("a"), 1, IDLE, ["a:1"], multiset{}, {}, [], {}, {})

  lemma FilledQueue(item: Item)
    requires item.bytes == 100
    ensures var m := Step(TIGHT, ONE_OPEN, Pull("a:1", Yields(item)), false);
      QueueOf(m.sender, "a:1").bytes == 100 && m.sender.socketOpen && EndsItself(m, Pull("a:1", Done), "a:1")
  {
    var q := Joined(Touched(IDLE, "a:1"), "a:1", item);
    assert q.queues["a:1"] == Queue([item], 100, true) && q.ready == ["a:1"];
  }

  /** Such a run: a frame in flight fills the stream's queue when its iterator ends, so the end frame has no room. */
  lemma AnEndedIteratorIsReturned(item: Item)
    requires item.bytes == 100
    ensures var steps := [(OpenStream("a:1", Opens), false), (Pull("a:1", Yields(item)), false),
      (Pull("a:1", Done), false)];
      "a:1" in RunMux(TIGHT, steps).ended && RunMux(TIGHT, steps).returned["a:1"] == 1
  {
    var steps := [(OpenStream("a:1", Opens), false), (Pull("a:1", Yields(item)), false), (Pull("a:1", Done), false)];
    assert steps[..1][..0] == [] && steps[..2][..1] == steps[..1] && steps[..3] == steps;
    assert RunMux(TIGHT, steps[..1]) == ONE_OPEN by { AnId(); hide ParseId; }
    FilledQueue(item);
    hide Step, EndsItself;
    assert EndFrameFailed(TIGHT, steps, "a:1");
    EndedIsReturned(TIGHT, steps, "a:1");
  }
}
