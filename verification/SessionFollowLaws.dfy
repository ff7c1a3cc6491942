/** What the legacy side of the stream encoder answers to each event, said of the trace it has emitted and of the
    event's own fields: which frames come, when the open attempt ends, and how. */
module SessionFollowLaws {
  import opened Prelude
  import opened SessionFollow
  import opened SessionFollowSimulation
  import opened SessionFollowTrace

  // ---- An event's own fields -------------------------------------------------------------------

  /** The data names a turn and a step. */
  predicate Placed(data: Option<Data>, turn: int, step: int) {
    data.Some? && data.value.turn == Some(turn) && data.value.step == Some(step) && 0 <= turn <= MAX_SAFE
      && 0 <= step <= MAX_SAFE
  }

  /** The data is that of a chunk, or of its opaque wrapping. */
  function ChunkData(e: Event): Option<Data> {
    match e.kind
    case AssistantChunk => e.data
    case LegacyAssistantChunk =>
      if e.data.Some? && e.data.value.legacyKind == Some(AssistantChunk) then e.data.value.inner else None
    case _ => None
  }

  /** The event is a durable chunk of the step, with this time and payload. */
  predicate IsChunk(e: Event, at: Coordinates, timed: Timed) {
    && Placed(ChunkData(e), at.turn, at.step) && ChunkData(e).value.chunk == Some(timed.chunk)
    && e.time == Some(timed.time) && 0 <= timed.time <= MAX_SAFE && 0 <= e.seqNo <= MAX_SAFE
  }

  ghost predicate NoChunk(e: Event) {
    forall at, timed :: !IsChunk(e, at, timed)
  }

  lemma ChunkLaw(e: Event)
    ensures forall at, timed :: IsChunk(e, at, timed) <==> LegacyChunk(e) == Some(PlacedChunk(e.seqNo, at, timed))
    ensures NoChunk(e) <==> LegacyChunk(e).None?
  {
    if LegacyChunk(e).Some? {
      var c := LegacyChunk(e).value;
      assert IsChunk(e, c.at, c.timed);
    }
  }

  /** A turn or step ends, or one begins that is not the attempt's. */
  predicate Leaves(e: Event, at: Coordinates) {
    match e.kind
    case TurnEnd => true
    case StepEnd => true
    case TurnStart =>
      e.data.None? || e.data.value.step.None? || !Placed(e.data, at.turn, e.data.value.step.value)
    case StepStart => !Placed(e.data, at.turn, at.step)
    case _ => false
  }

  predicate IsSettlement(e: Event) {
    e.kind.AssistantMessage? || e.kind.AssistantAttempt?
  }

  /** How a settlement ends the attempt at `at`. */
  function OutcomeOf(e: Event, at: Coordinates): Outcome {
    if Placed(e.data, at.turn, at.step) && (e.kind.AssistantMessage? ==> e.surfaceAppend)
    then Committed(e.kind, e.seqNo) else Abandoned
  }

  // ---- The trace so far ------------------------------------------------------------------------

  /** The attempt a trace has left open. */
  function OpenAttempt(p: seq<Frame>): Option<Attempt> {
    match OpenAt(p)
    case None => None
    case Some(j) => Some(Opened(p[j]).(nextIndex := NextIndex(p, j)))
  }

  predicate Begun(p: seq<Frame>) {
    p != [] && p[0].Snapshot?
  }

  function CursorOf(p: seq<Frame>): int
    requires Begun(p)
  {
    p[0].cursor + Durables(p)
  }

  function Ending(p: seq<Frame>, outcome: Outcome): seq<Frame>
    requires OpenAttempt(p).Some?
  {
    var a := OpenAttempt(p).value;
    [Assistant(End(a.attemptId, Transients(p) + 1, a.nextIndex, outcome))]
  }

  /** The frames before a non-chunk event. */
  function EndedBefore(p: seq<Frame>, e: Event): seq<Frame> {
    if OpenAttempt(p).Some? && Leaves(e, OpenAttempt(p).value.at) then Ending(p, Abandoned) else []
  }

  /** The frames behind it. */
  function EndedBehind(p: seq<Frame>, e: Event): seq<Frame> {
    if OpenAttempt(p).Some? && IsSettlement(e) then Ending(p, OutcomeOf(e, OpenAttempt(p).value.at)) else []
  }

  /** The frames before a chunk of the step `at`: the open attempt of another step is abandoned. */
  function Moved(p: seq<Frame>, at: Coordinates): seq<Frame> {
    if OpenAttempt(p).Some? && OpenAttempt(p).value.at != at then Ending(p, Abandoned) else []
  }

  /** Then an attempt is started, unless one of this step is open. */
  function Started(p: seq<Frame>, at: Coordinates): seq<Frame>
    requires Begun(p) && 0 <= CursorOf(p) + 1
  {
    if OpenAttempt(p).Some? && OpenAttempt(p).value.at == at then []
    else [Assistant(Start("legacy-attempt-" + Decimal(CursorOf(p) + 1), Transients(p + Moved(p, at)) + 1, CursorOf(p),
      at))]
  }

  function ChunkFrame(p: seq<Frame>, timed: Timed): seq<Frame>
    requires OpenAttempt(p).Some?
  {
    var a := OpenAttempt(p).value;
    [Assistant(ChunkAt(a.attemptId, Transients(p) + 1, a.nextIndex, timed))]
  }

  // ---- Traces grow ------------------------------------------------------------------------------

  lemma OneMore(p: seq<Frame>, f: Frame)
    requires Begun(p) && !f.Snapshot?
    ensures Begun(p + [f]) && (p + [f])[0] == p[0]
    ensures Transients(p + [f]) == Transients(p) + if f.Assistant? then 1 else 0
    ensures Durables(p + [f]) == Durables(p) + if f.Durable? then 1 else 0
    ensures OpenAt(p + [f]) ==
            if f.Assistant? && f.frame.Start? then Some(|p|) else if f.Assistant? && f.frame.End? then None
              else OpenAt(p)
  {
    assert (p + [f])[..|p|] == p;
  }

  lemma SameAttempt(p: seq<Frame>, f: Frame)
    requires Begun(p) && (f.Durable? || (f.Assistant? && f.frame.ChunkAt?))
    ensures OpenAttempt(p + [f]) == match OpenAttempt(p)
      case None => None
      case Some(a) => Some(a.(nextIndex := a.nextIndex + if f.Assistant? then 1 else 0))
  {
    OneMore(p, f);
    if OpenAt(p).Some? {
      var j := OpenAt(p).value;
      assert (p + [f])[j + 1..] == p[j + 1..] + [f];
      assert (p[j + 1..] + [f])[..|p[j + 1..]|] == p[j + 1..];
    }
  }

  lemma NewAttempt(p: seq<Frame>, id: string, revision: int, after: int, at: Coordinates)
    requires Begun(p)
    ensures OpenAttempt(p + [Assistant(Start(id, revision, after, at))]) == Some(Attempt(id, after, at, 0, map[]))
  {
    var f := Assistant(Start(id, revision, after, at));
    OneMore(p, f);
    assert (p + [f])[|p| + 1..] == [];
  }

  /** The encoder's state is what its trace shows. */
  ghost predicate Shows(p: seq<Frame>, s: State) {
    && Begun(p) && -1 <= p[0].cursor && s.begun && s.revision == Transients(p) && s.cursor == CursorOf(p)
    && s.active == OpenAttempt(p)
  }

  lemma ShowsAbandon(p: seq<Frame>, s: State)
    requires Shows(p, s) && s.active.Some?
    ensures AbandonFrames(CurrentTarget, s) == Ending(p, Abandoned) && Shows(p + Ending(p, Abandoned), AbandonState(s))
  {
    OneMore(p, Ending(p, Abandoned)[0]);
  }

  lemma ShowsStart(p: seq<Frame>, s: State, at: Coordinates)
    requires Shows(p, s) && s.active.None?
    ensures Started(p, at) == StartFrames(CurrentTarget, s, at) && Shows(p + Started(p, at), StartState(s, at))
    ensures Moved(p, at) == []
  {
    assert p + Moved(p, at) == p;
    OneMore(p, Started(p, at)[0]);
    NewAttempt(p, LegacyAttemptId(s.cursor + 1), s.revision + 1, s.cursor, at);
  }

  lemma ShowsAppend(p: seq<Frame>, s: State, timed: Timed)
    requires Shows(p, s) && s.active.Some?
    ensures ChunkFrame(p, timed) == AppendFrames(CurrentTarget, s, timed)
    ensures Shows(p + ChunkFrame(p, timed), AppendState(s))
  {
    OneMore(p, ChunkFrame(p, timed)[0]);
    SameAttempt(p, ChunkFrame(p, timed)[0]);
  }

  lemma ShowsDurable(p: seq<Frame>, s: State, e: Event)
    requires Shows(p, s) && e.seqNo == s.cursor + 1
    ensures Shows(p + [Durable(e)], s.(cursor := e.seqNo))
  {
    OneMore(p, Durable(e));
    SameAttempt(p, Durable(e));
  }

  // ---- One event -------------------------------------------------------------------------------

  /** The answer to an event that is no chunk. */
  function OtherAnswer(p: seq<Frame>, e: Event): seq<Frame> {
    EndedBefore(p, e) + [Durable(e)] + EndedBehind(p, e)
  }

  lemma LeavesLaw(a: Attempt, e: Event)
    requires SafeInt(a.at.turn, 0) && SafeInt(a.at.step, 0)
    ensures Boundary(Some(a), e) <==> Leaves(e, a.at)
    ensures Settlement(e.kind) <==> IsSettlement(e)
    ensures IsSettlement(e) ==> !Leaves(e, a.at)
    ensures IsSettlement(e) ==> (Settles(a, e) <==> OutcomeOf(e, a.at) == Committed(e.kind, e.seqNo))
  {}

  /** Attempts of a legacy connection are placed in the safe integers. */
  predicate SafelyPlaced(s: State) {
    s.active.Some? ==> SafeInt(s.active.value.at.turn, 0) && SafeInt(s.active.value.at.step, 0)
  }

  lemma OtherAnswered(p: seq<Frame>, s: State, e: Event)
    requires Shows(p, s) && SafelyPlaced(s) && e.seqNo == s.cursor + 1
    ensures var step := PushOther(CurrentTarget, s, e);
      step.out == Ok(OtherAnswer(p, e)) && Shows(p + OtherAnswer(p, e), step.state) && SafelyPlaced(step.state)
  {
    if s.active.None? {
      ShowsDurable(p, s, e);
      assert OtherAnswer(p, e) == [Durable(e)];
      assert [] + [Durable(e)] == [Durable(e)];
    } else {
      var a := s.active.value;
      LeavesLaw(a, e);
      hide Leaves, Boundary, Settles, Settlement, IsSettlement, OutcomeOf, OpenAttempt, Transients, Durables;
      if Leaves(e, a.at) {
        ShowsAbandon(p, s);
        ShowsDurable(p + Ending(p, Abandoned), AbandonState(s), e);
        assert OtherAnswer(p, e) == Ending(p, Abandoned) + [Durable(e)];
        assert p + Ending(p, Abandoned) + [Durable(e)] == p + OtherAnswer(p, e);
      } else {
        ShowsDurable(p, s, e);
        SettlementAnswered(p, s, e);
      }
    }
  }

  lemma SettlementAnswered(p: seq<Frame>, s: State, e: Event)
    requires Shows(p, s) && SafelyPlaced(s) && s.active.Some? && !Leaves(e, s.active.value.at)
      && e.seqNo == s.cursor + 1
    ensures var step := PushOther(CurrentTarget, s, e);
      step.out == Ok(OtherAnswer(p, e)) && Shows(p + OtherAnswer(p, e), step.state) && SafelyPlaced(step.state)
  {
    var q, t := p + [Durable(e)], s.(cursor := e.seqNo);
    LeavesLaw(s.active.value, e);
    ShowsDurable(p, s, e);
    SameAttempt(p, Durable(e));
    OneMore(p, Durable(e));
    hide Leaves, Boundary, Settles, Settlement, IsSettlement, OpenAt, Durables;
    if IsSettlement(e) {
      var outcome := OutcomeOf(e, s.active.value.at);
      assert outcome.Abandoned? || outcome == Committed(e.kind, e.seqNo);
      assert Ending(q, outcome) == Ending(p, outcome);
      ShowsEnding(q, t, outcome);
      assert q + Ending(p, outcome) == p + OtherAnswer(p, e);
      assert OtherAnswer(p, e) == [Durable(e)] + Ending(p, outcome);
    } else {
      assert OtherAnswer(p, e) == [Durable(e)];
      assert [] + [Durable(e)] == [Durable(e)];
    }
  }

  lemma ShowsEnding(p: seq<Frame>, s: State, outcome: Outcome)
    requires Shows(p, s) && s.active.Some?
    ensures Shows(p + Ending(p, outcome), AbandonState(s))
  {
    OneMore(p, Ending(p, outcome)[0]);
  }

  /** The answer to a chunk. */
  function ChunkAnswer(p: seq<Frame>, e: Event, at: Coordinates, timed: Timed): seq<Frame>
    requires Begun(p) && 0 <= CursorOf(p) + 1 && OpenAttempt(p + Moved(p, at) + Started(p, at)).Some?
  {
    Moved(p, at) + Started(p, at) + ChunkFrame(p + Moved(p, at) + Started(p, at), timed) + [Durable(e)]
  }

  /** The open attempt of the chunk's step is full. */
  predicate Full(p: seq<Frame>, at: Coordinates, maxChunks: int) {
    OpenAttempt(p).Some? && OpenAttempt(p).value.at == at && OpenAttempt(p).value.nextIndex >= maxChunks
  }

  /** After the frames before a chunk an attempt of its step is open. */
  lemma StartedShows(p: seq<Frame>, s: State, at: Coordinates)
    requires Shows(p, s)
    ensures var moved := s.active.Some? && s.active.value.at != at;
      var s1 := if moved then AbandonState(s) else s;
      var s2 := if s1.active.None? then StartState(s1, at) else s1;
      var q := p + Moved(p, at) + Started(p, at);
      && Shows(q, s2) && s2.active.Some? && s2.active.value.at == at && s2.cursor == s.cursor
      && Moved(p, at) == (if moved then AbandonFrames(CurrentTarget, s) else [])
      && Started(p, at) == (if s1.active.None? then StartFrames(CurrentTarget, s1, at) else [])
      && s2.active.value.nextIndex == (if s1.active.None? then 0 else s.active.value.nextIndex)
  {
    if s.active.Some? && s.active.value.at != at {
      ShowsAbandon(p, s);
      var q := p + Moved(p, at);
      ShowsStart(q, AbandonState(s), at);
      OneMore(p, Ending(p, Abandoned)[0]);
      assert q + Moved(q, at) == q;
      assert Started(q, at) == Started(p, at);
    } else if s.active.None? {
      assert p + Moved(p, at) == p;
      ShowsStart(p, s, at);
    } else {
      assert p + Moved(p, at) + Started(p, at) == p;
    }
  }

  lemma ChunkAnswered(maxChunks: int, p: seq<Frame>, s: State, e: Event, at: Coordinates, timed: Timed)
    requires Shows(p, s) && e.seqNo == s.cursor + 1 && ValidBound(maxChunks)
    requires SafeInt(at.turn, 0) && SafeInt(at.step, 0)
    ensures var step := PushChunk(CurrentTarget, maxChunks, s, e, PlacedChunk(e.seqNo, at, timed));
      && OpenAttempt(p + Moved(p, at) + Started(p, at)).Some?
      && (step.out.Ok? <==> !Full(p, at, maxChunks))
      && (step.out.Ok? ==> step.out.value == ChunkAnswer(p, e, at, timed)
                           && Shows(p + ChunkAnswer(p, e, at, timed), step.state) && SafelyPlaced(step.state))
  {
    StartedShows(p, s, at);
    var q := p + Moved(p, at) + Started(p, at);
    var moved := s.active.Some? && s.active.value.at != at;
    var s1 := if moved then AbandonState(s) else s;
    var s2 := if s1.active.None? then StartState(s1, at) else s1;
    assert Full(p, at, maxChunks) <==> s2.active.value.nextIndex >= maxChunks;
    hide OpenAt, Transients, Durables, Moved, Started, Shows;
    ShowsAppend(q, s2, timed);
    assert -1 <= s2.cursor && AppendState(s2).cursor == s.cursor;
    ShowsDurable(q + ChunkFrame(q, timed), AppendState(s2), e);
    assert q + ChunkFrame(q, timed) + [Durable(e)] == p + ChunkAnswer(p, e, at, timed);
    hide OpenAttempt, ChunkFrame, AbandonState, AbandonFrames, StartState, StartFrames, AppendState, AppendFrames;
  }

  // ---- Whole connections -----------------------------------------------------------------------

  /** The accepted frames of a connection, and what was emitted for them. */
  ghost predicate Emitted(maxChunks: int, input: seq<Frame>, p: seq<Frame>) {
    var run := LegacyRun(CurrentTarget, maxChunks, FRESH, input);
    run.error.None? && run.out == p
  }

  lemma {:induction false} LegacyRunLast(maxChunks: int, s: State, input: seq<Frame>)
    requires input != [] && (s.begun ==> -1 <= s.cursor)
    ensures var n := |input| - 1;
      var first := LegacyRun(CurrentTarget, maxChunks, s, input[..n]);
      var whole := LegacyRun(CurrentTarget, maxChunks, s, input);
      if first.error.Some? then whole == first
      else
        var step := PushLegacy(CurrentTarget, maxChunks, first.state, input[n]);
        whole == Run(step.state, if step.out.Ok? then first.out + step.out.value else first.out,
                     if step.out.Ok? then None else Some(step.out.error))
    decreases |input|
  {
    hide PushLegacy;
    var n := |input| - 1;
    if n > 0 {
      var step := PushLegacy(CurrentTarget, maxChunks, s, input[0]);
      assert input[..n][0] == input[0] && input[..n][1..] == input[1..][..n - 1];
      if step.out.Ok? {
        LegacyRunLast(maxChunks, step.state, input[1..]);
        var rest := LegacyRun(CurrentTarget, maxChunks, step.state, input[1..][..n - 1]);
        var last := PushLegacy(CurrentTarget, maxChunks, rest.state, input[n]);
        if rest.error.None? && last.out.Ok? {
          assert step.out.value + (rest.out + last.out.value) == step.out.value + rest.out + last.out.value;
        }
      }
    } else {
      assert input[1..] == [] && input[..0] == [];
    }
  }

  /** A durable event is accepted if it is the next one, and the open attempt has room for it if it is a chunk. */
  ghost predicate Acceptable(maxChunks: int, p: seq<Frame>, e: Event)
    requires Begun(p)
  {
    && 0 <= e.seqNo <= MAX_SAFE && e.seqNo == CursorOf(p) + 1
    && forall at, timed :: IsChunk(e, at, timed) ==> !Full(p, at, maxChunks)
  }

  lemma EventAnswered(maxChunks: int, p: seq<Frame>, s: State, e: Event)
    requires Shows(p, s) && SafelyPlaced(s) && ValidBound(maxChunks)
    ensures var step := PushLegacy(CurrentTarget, maxChunks, s, Durable(e));
      && (step.out.Ok? <==> Acceptable(maxChunks, p, e))
      && (step.out.Ok? ==> Shows(p + step.out.value, step.state) && SafelyPlaced(step.state))
      && (step.out.Ok? && NoChunk(e) ==> step.out.value == OtherAnswer(p, e))
      && (forall at, timed :: step.out.Ok? && IsChunk(e, at, timed) ==>
            OpenAttempt(p + Moved(p, at) + Started(p, at)).Some? && step.out.value == ChunkAnswer(p, e, at, timed))
  {
    ChunkLaw(e);
    if SafeInt(e.seqNo, 0) && e.seqNo == s.cursor + 1 {
      var chunk := LegacyChunk(e);
      if chunk.Some? {
        assert IsChunk(e, chunk.value.at, chunk.value.timed);
        hide IsChunk, OpenAttempt, Full, Moved, Started, ChunkAnswer, PushChunk;
        ChunkAnswered(maxChunks, p, s, e, chunk.value.at, chunk.value.timed);
      } else {
        hide IsChunk, OpenAttempt, Full, PushOther, OtherAnswer;
        OtherAnswered(p, s, e);
      }
    }
  }

  // ---- The opening -----------------------------------------------------------------------------

  /** The records from `k` on: no settlement and no start of a turn or step among them but chunks, and chunks of one
      step. */
  ghost predicate IsTail(records: seq<Event>, k: nat)
    requires k <= |records|
  {
    && (forall i :: k <= i < |records| && NoChunk(records[i]) ==>
          !IsSettlement(records[i]) && !records[i].kind.TurnStart? && !records[i].kind.StepStart?)
    && (forall i, j, at, timed, at', timed' ::
          k <= i < j < |records| && IsChunk(records[i], at, timed) && IsChunk(records[j], at', timed') ==> at == at')
  }

  lemma TailLaw(records: seq<Event>, k: nat)
    requires k <= |records|
    ensures IsTail(records, k) <==> OneRun(records, k)
  {
    forall i | 0 <= i < |records|
      ensures (NoChunk(records[i]) <==> LegacyChunk(records[i]).None?)
        && forall at, timed :: IsChunk(records[i], at, timed)
                               <==> LegacyChunk(records[i]) == Some(PlacedChunk(records[i].seqNo, at, timed))
    {
      ChunkLaw(records[i]);
    }
    ChunkSeqs(records);
    hide LegacyChunk, IsChunk, NoChunk;
    if OneRun(records, k) {
      forall i, j, at, timed, at', timed' | k <= i < j < |records| && IsChunk(records[i], at, timed)
        && IsChunk(records[j], at', timed') ensures at == at' {
        assert LegacyChunk(records[i]).value.at == LegacyChunk(records[j]).value.at;
      }
    }
    if IsTail(records, k) {
      forall i, j | k <= i < j < |records| && LegacyChunk(records[i]).Some? && LegacyChunk(records[j]).Some?
        ensures LegacyChunk(records[i]).value.at == LegacyChunk(records[j]).value.at {
        var a, b := LegacyChunk(records[i]).value, LegacyChunk(records[j]).value;
        assert IsChunk(records[i], a.at, a.timed) && IsChunk(records[j], b.at, b.timed);
      }
    }
  }

  lemma ChunkSeqs(records: seq<Event>)
    ensures forall i :: 0 <= i < |records| && LegacyChunk(records[i]).Some? ==>
      LegacyChunk(records[i]).value.seqNo == records[i].seqNo
  {}

  /** The event is a durable chunk, by its own fields. */
  predicate ChunkHere(e: Event) {
    var data := ChunkData(e);
    && data.Some? && data.value.turn.Some? && data.value.step.Some? && data.value.chunk.Some? && e.time.Some?
    && IsChunk(e, Coordinates(data.value.turn.value, data.value.step.value),
       Timed(e.time.value, data.value.chunk.value))
  }

  /** Times and payloads of the chunks among some events, in order. */
  function ChunkTimes(events: seq<Event>): seq<Timed> {
    if events == [] then []
    else
      var last := events[|events| - 1];
      ChunkTimes(events[..|events| - 1])
      + if ChunkHere(last) then [Timed(last.time.value, ChunkData(last).value.chunk.value)] else []
  }

  lemma ChunkHereLaw(e: Event)
    ensures ChunkHere(e) <==> LegacyChunk(e).Some?
    ensures ChunkHere(e) ==> LegacyChunk(e).value.timed == Timed(e.time.value, ChunkData(e).value.chunk.value)
    ensures ChunkHere(e) ==> LegacyChunk(e).value.seqNo == e.seqNo
    ensures ChunkHere(e) ==> Placed(ChunkData(e), LegacyChunk(e).value.at.turn, LegacyChunk(e).value.at.step)
  {
    ChunkLaw(e);
  }

  lemma {:induction false} ChunkTimesLaw(events: seq<Event>)
    ensures |ChunkTimes(events)| == |ChunksOf(events)|
    ensures forall i :: 0 <= i < |ChunksOf(events)| ==> ChunkTimes(events)[i] == ChunksOf(events)[i].timed
  {
    hide ChunkHere, LegacyChunk;
    if events != [] {
      ChunkHereLaw(events[|events| - 1]);
      ChunkTimesLaw(events[..|events| - 1]);
    }
  }

  /** The first chunk among the events. */
  ghost predicate FirstChunkAt(events: seq<Event>, m: nat) {
    m < |events| && ChunkHere(events[m]) && forall i :: 0 <= i < m ==> !ChunkHere(events[i])
  }

  lemma {:induction false} FirstChunk(events: seq<Event>) returns (m: nat)
    ensures ChunksOf(events) != [] ==> FirstChunkAt(events, m) && LegacyChunk(events[m]) == Some(ChunksOf(events)[0])
    ensures ChunksOf(events) == [] ==> forall i :: 0 <= i < |events| ==> !ChunkHere(events[i])
  {
    hide ChunkHere, LegacyChunk;
    if events == [] {
      return 0;
    }
    var n := |events| - 1;
    m := FirstChunk(events[..n]);
    ChunkHereLaw(events[n]);
    if ChunksOf(events[..n]) == [] { m := n; }
  }

  /** The baseline a snapshot is given: the chunks of the longest tail the records end with, as an attempt named after
      the first of them. */
  ghost predicate IsOpening(cursor: int, records: seq<Event>, o: Option<Opening>, k: nat) {
    && k <= |records| && IsTail(records, k) && (forall j :: 0 <= j < k ==> !IsTail(records, j))
    && (o.None? <==> ChunkTimes(records[k..]) == [])
    && (o.Some? ==>
          && o.value.stream == ChunkTimes(records[k..]) && o.value.nextIndex == |o.value.stream|
          && o.value.startedAfterSeq == cursor && exists m :: NamedAfter(records[k..], o.value, m))
  }

  /** The attempt bears the name and the place of the first chunk. */
  ghost predicate NamedAfter(events: seq<Event>, o: Opening, m: nat) {
    && FirstChunkAt(events, m) && 0 <= events[m].seqNo
    && o.attemptId == "legacy-attempt-" + Decimal(events[m].seqNo) && Placed(ChunkData(events[m]), o.at.turn, o.at.step)
  }

  lemma OpeningShape(cursor: int, records: seq<Event>) returns (k: nat)
    ensures var chunks := TrailingChunks(records);
      && (chunks != [] ==> 0 <= chunks[0].seqNo) && k <= |records| && |ChunkTimes(records[k..])| == |chunks|
      && IsOpening(cursor, records, if chunks == [] then None else Some(OpeningOf(cursor, chunks)), k)
  {
    k := TrailingChunksAreTheLastRun(records);
    TrailingChunksShape(records);
    var chunks := TrailingChunks(records);
    TailLaw(records, k);
    forall j | 0 <= j < k ensures !IsTail(records, j) { TailLaw(records, j); }
    ChunkTimesLaw(records[k..]);
    if chunks != [] {
      var m := FirstChunk(records[k..]);
      ChunkHereLaw(records[k..][m]);
      assert chunks[0] in chunks;
      assert NamedAfter(records[k..], OpeningOf(cursor, chunks), m);
    }
    hide IsTail, OneRun, TrailingChunks, LegacyChunk, IsChunk, NoChunk, ChunksOf;
  }

  lemma SnapshotShows(cursor: int, records: seq<Event>, o: Option<Opening>)
    requires -1 <= cursor && (o.Some? ==> o.value.startedAfterSeq == cursor)
    ensures var active := if o.None? then None
                          else Some(Attempt(o.value.attemptId, cursor, o.value.at, o.value.nextIndex, map[]));
      Shows([Snapshot(cursor, records, Some(Baseline(0, o)))], State(true, 0, cursor, active))
  {
    var p := [Snapshot(cursor, records, Some(Baseline(0, o)))];
    assert p[..0] == [] && p[1..] == [];
    assert Transients(p[..0]) == 0 && Durables(p[..0]) == 0;
  }

  /** The first frame: a snapshot is accepted if its cursor is a sequence number or -1 and its last run has at most so
      many chunks, and it is sent on with exactly that run for its open attempt; anything else is refused. */
  lemma OpeningAnswered(maxChunks: int, frame: Frame)
    requires ValidBound(maxChunks)
    ensures var step := PushLegacy(CurrentTarget, maxChunks, FRESH, frame);
      && (step.out.Ok? ==>
            && frame.Snapshot? && -1 <= frame.cursor <= MAX_SAFE && |step.out.value| == 1
            && Shows(step.out.value, step.state) && SafelyPlaced(step.state)
            && exists o, k: nat :: IsOpening(frame.cursor, frame.records, o, k)
                 && |ChunkTimes(frame.records[k..])| <= maxChunks
                 && step.out.value == [Snapshot(frame.cursor, frame.records, Some(Baseline(0, o)))])
      && (step.out.Err? && frame.Snapshot? && -1 <= frame.cursor <= MAX_SAFE ==>
            exists o, k: nat :: IsOpening(frame.cursor, frame.records, o, k)
              && |ChunkTimes(frame.records[k..])| > maxChunks)
  {
    if frame.Snapshot? && SafeInt(frame.cursor, -1) {
      var k := OpeningShape(frame.cursor, frame.records);
      var chunks := TrailingChunks(frame.records);
      TrailingChunksShape(frame.records);
      var o := if chunks == [] then None else Some(OpeningOf(frame.cursor, chunks));
      assert IsOpening(frame.cursor, frame.records, o, k);
      SnapshotShows(frame.cursor, frame.records, o);
      hide IsOpening, TrailingChunks, Shows;
    }
  }

  // ---- The theorems ----------------------------------------------------------------------------

  /** After every accepted prefix the encoder's state is what its trace shows. */
  lemma {:induction false} TraceShows(maxChunks: int, input: seq<Frame>, p: seq<Frame>)
    requires ValidBound(maxChunks) && input != [] && Emitted(maxChunks, input, p)
    ensures Shows(p, LegacyRun(CurrentTarget, maxChunks, FRESH, input).state)
    ensures SafelyPlaced(LegacyRun(CurrentTarget, maxChunks, FRESH, input).state)
  {
    var n := |input| - 1;
    LegacyRunLast(maxChunks, FRESH, input);
    var before := LegacyRun(CurrentTarget, maxChunks, FRESH, input[..n]);
    if n == 0 {
      assert input[..0] == [];
      OpeningAnswered(maxChunks, input[0]);
      hide PushLegacy, Shows;
      assert [] + p == p;
    } else {
      TraceShows(maxChunks, input[..n], before.out);
      assert before.state.begun && !input[n].Snapshot? && !input[n].Assistant? && input[n].Durable?;
      EventAnswered(maxChunks, before.out, before.state, input[n].event);
      hide PushLegacy, Shows;
    }
  }

  /** ANSWERS. In every connection, whatever came before: a durable event is accepted exactly if it is the next one and
      finds room, and it is answered by the frames described above, read off the trace and the event alone. */
  lemma AnswersToEvents(maxChunks: int, input: seq<Frame>, p: seq<Frame>, e: Event)
    requires ValidBound(maxChunks) && input != [] && Emitted(maxChunks, input, p)
    ensures Begun(p) && 0 <= CursorOf(p) + 1
    ensures LegacyRun(CurrentTarget, maxChunks, FRESH, input + [Durable(e)]).error.None?
      <==> Acceptable(maxChunks, p, e)
    ensures Acceptable(maxChunks, p, e) && NoChunk(e) ==>
      Emitted(maxChunks, input + [Durable(e)], p + OtherAnswer(p, e))
    ensures forall at, timed :: Acceptable(maxChunks, p, e) && IsChunk(e, at, timed) ==>
      && OpenAttempt(p + Moved(p, at) + Started(p, at)).Some?
      && Emitted(maxChunks, input + [Durable(e)], p + ChunkAnswer(p, e, at, timed))
  {
    var all := input + [Durable(e)];
    assert all[..|input|] == input;
    LegacyRunLast(maxChunks, FRESH, all);
    TraceShows(maxChunks, input, p);
    EventAnswered(maxChunks, p, LegacyRun(CurrentTarget, maxChunks, FRESH, input).state, e);
    hide PushLegacy, Acceptable, NoChunk, IsChunk, OtherAnswer, ChunkAnswer, OpenAttempt, Moved, Started;
  }

  /** BOUNDARIES. A non-chunk event is directly preceded by an abandoned end exactly if an attempt is open and the event
      is an end of a turn or step, a start of a turn that is not the attempt's or is not named, or a start of a step
      that is not the attempt's or is not named. After an end of a turn or step no attempt is open. */
  lemma Boundaries(maxChunks: int, input: seq<Frame>, p: seq<Frame>, e: Event, q: seq<Frame>)
    requires ValidBound(maxChunks) && input != [] && Emitted(maxChunks, input, p)
    requires Emitted(maxChunks, input + [Durable(e)], q) && NoChunk(e)
    ensures p < q
    ensures q[|p|] != Durable(e) <==>
            OpenAttempt(p).Some?
            && var at := OpenAttempt(p).value.at;
               || e.kind.TurnEnd? || e.kind.StepEnd?
               || (e.kind.TurnStart? && forall step :: !Placed(e.data, at.turn, step))
               || (e.kind.StepStart? && !Placed(e.data, at.turn, at.step))
    ensures q[|p|] != Durable(e) ==>
      q[|p|] == Ending(p, Abandoned)[0] && |p| + 1 < |q| && q[|p| + 1] == Durable(e)
    ensures e.kind.TurnEnd? || e.kind.StepEnd? ==> OpenAttempt(q).None?
  {
    AnswersToEvents(maxChunks, input, p, e);
    var answer := OtherAnswer(p, e);
    assert q == p + answer;
    if OpenAttempt(p).Some? && Leaves(e, OpenAttempt(p).value.at) {
      assert answer[0] == Ending(p, Abandoned)[0] && answer[1] == Durable(e);
      if e.kind.TurnEnd? || e.kind.StepEnd? {
        assert q == p + Ending(p, Abandoned) + [Durable(e)];
        OneMore(p, Ending(p, Abandoned)[0]);
        OneMore(p + Ending(p, Abandoned), Durable(e));
      }
    } else {
      assert answer[0] == Durable(e);
      if e.kind.TurnEnd? || e.kind.StepEnd? {
        assert answer == [Durable(e)];
        OneMore(p, Durable(e));
      }
    }
  }

  /** SETTLEMENTS. An event is directly followed by an end of the open attempt exactly if it is an assistant message or
      attempt; the end is committed exactly if the event names the attempt's turn and step, and appends if it is a
      message. */
  lemma Settlements(maxChunks: int, input: seq<Frame>, p: seq<Frame>, e: Event, q: seq<Frame>)
    requires ValidBound(maxChunks) && input != [] && Emitted(maxChunks, input, p)
    requires Emitted(maxChunks, input + [Durable(e)], q) && NoChunk(e)
    ensures q != [] && (q[|q| - 1] != Durable(e) <==>
                        OpenAttempt(p).Some? && (e.kind.AssistantMessage? || e.kind.AssistantAttempt?))
    ensures q[|q| - 1] != Durable(e) ==>
      var at := OpenAttempt(p).value.at;
      && OpenAttempt(q).None?
      && q[|q| - 1] == Ending(p, if Placed(e.data, at.turn, at.step) && (e.kind.AssistantMessage? ==> e.surfaceAppend)
                                 then Committed(e.kind, e.seqNo) else Abandoned)[0]
  {
    AnswersToEvents(maxChunks, input, p, e);
    var answer := OtherAnswer(p, e);
    assert q == p + answer;
    hide Emitted, Acceptable, NoChunk, Begun;
    if OpenAttempt(p).Some? && IsSettlement(e) {
      var a := OpenAttempt(p).value;
      var end := Ending(p, OutcomeOf(e, a.at))[0];
      assert EndedBefore(p, e) == [];
      assert q == p + [Durable(e)] + [end];
      EndCloses(p, e, end);
    } else {
      assert EndedBehind(p, e) == [];
      assert answer[|answer| - 1] == Durable(e);
    }
  }

  lemma EndCloses(p: seq<Frame>, e: Event, end: Frame)
    requires Begun(p) && end.Assistant? && end.frame.End?
    ensures OpenAttempt(p + [Durable(e)] + [end]).None?
  {
    OneMore(p, Durable(e));
    OneMore(p + [Durable(e)], end);
  }

  // ---- Attempt names ---------------------------------------------------------------------------

  function Read(digits: string): int {
    if digits == "" then 0 else 10 * Read(digits[..|digits| - 1]) + (digits[|digits| - 1] as int - '0' as int)
  }

  /** The number in an attempt's name is written in decimal digits without a leading zero. */
  lemma {:induction false} DecimalReads(n: nat)
    ensures Read(Decimal(n)) == n && (forall i :: 0 <= i < |Decimal(n)| ==> '0' <= Decimal(n)[i] <= '9')
    ensures n > 0 ==> Decimal(n)[0] != '0'
  {
    if n >= 10 {
      DecimalReads(n / 10);
      assert Decimal(n)[..|Decimal(n)| - 1] == Decimal(n / 10);
    } else {
      assert Decimal(n)[..0] == "";
    }
  }

  // ---- Refusals --------------------------------------------------------------------------------

  /** How a refused durable frame is refused. */
  predicate RefusesDurable(cursor: int, frame: Frame, error: StreamError) {
    if frame.Durable? && 0 <= frame.event.seqNo <= MAX_SAFE then
      frame.event.seqNo != cursor + 1 && error == SequenceGap(cursor + 1, frame.event.seqNo)
    else error == InvalidDurable
  }

  /** LEGACY REFUSALS. The error of a frame that the legacy side refuses, in the order of its checks. */
  lemma LegacyRefusals(target: Target, maxChunks: int, s: State, frame: Frame)
    requires s.begun ==> -1 <= s.cursor
    ensures var r := PushLegacy(target, maxChunks, s, frame).out;
      r.Err? ==>
        if !s.begun then
          r.error == if !frame.Snapshot? then MissingSnapshot
                     else if !(-1 <= frame.cursor <= MAX_SAFE) then InvalidCursor
                     else OpeningBound
        else if frame.Snapshot? then r.error == SecondSnapshot
        else if frame.Assistant? then r.error == LegacyTransient
        else if frame.Durable? && frame.event.seqNo == s.cursor + 1 <= MAX_SAFE then r.error == ChunkBound
        else RefusesDurable(s.cursor, frame, r.error)
  {}

  /** The open attempt is not the one named, or the index is not its next. */
  predicate OutOfOrder(s: State, id: string, index: int) {
    s.active.None? || s.active.value.attemptId != id || s.active.value.nextIndex != index
  }

  predicate Named(id: string) {
    0 < |id| <= 256 && '\0' !in id
  }

  /** How a refused transient frame is refused. */
  predicate RefusesTransient(maxChunks: int, s: State, t: Transient, error: StreamError) {
    if t.UnknownTransient? || !Named(t.attemptId) || !(1 <= t.revision <= MAX_SAFE) then error == InvalidTransient
    else if t.revision != s.revision + 1 then error == RevisionGap(s.revision + 1, t.revision)
    else match t
      case Start(_, _, after, at) =>
        error == if -1 <= after <= MAX_SAFE && 0 <= at.turn <= MAX_SAFE && 0 <= at.step <= MAX_SAFE
                 then MismatchedStart else InvalidStart
      case ChunkAt(id, _, index, timed) =>
        error == if OutOfOrder(s, id, index) || !(0 <= timed.time <= MAX_SAFE) then ChunkOutOfOrder else ChunkBound
      case End(id, _, index, outcome) =>
        if OutOfOrder(s, id, index) then error == EndOutOfOrder
        else match outcome
          case UnknownOutcome => error == InvalidOutcome
          case Abandoned => error == PendingSettlement
          case Committed(kind, seqNo) =>
            error == if (kind.AssistantMessage? || kind.AssistantAttempt?) && 0 <= seqNo <= MAX_SAFE then NoSettlement
                     else InvalidOutcome
  }

  /** CURRENT REFUSALS. The error of a frame that the current side refuses, in the order of its checks. */
  lemma CurrentRefusals(target: Target, maxChunks: int, s: State, frame: Frame)
    ensures var r := PushCurrent(target, maxChunks, s, frame).out;
      r.Err? ==>
        if !s.begun then
          r.error == if !frame.Snapshot? then MissingSnapshot
                     else if !(-1 <= frame.cursor <= MAX_SAFE) then InvalidCursor
                     else if frame.assistant.None? then MissingBaseline
                     else InvalidBaseline
        else match frame
          case Snapshot(_, _, _) => r.error == SecondSnapshot
          case Assistant(t) => RefusesTransient(maxChunks, s, t, r.error)
          case _ => RefusesDurable(s.cursor, frame, r.error)
  {}
}
