/** The Session-follow stream encoder of packages/runtime-interface/src/browser-stream.js:
    frames, one connection's state, and what one pushed frame does to it. */
module SessionFollow {
  import opened Prelude

  const MAX_ASSISTANT_CHUNKS: int := 65536
  const ATTEMPT_PREFIX := "legacy-attempt-"

  datatype Target = LegacyTarget | CurrentTarget

  datatype Kind =
    | TurnStart | TurnEnd | StepStart | StepEnd
    | AssistantMessage | AssistantAttempt
    | AssistantChunk | LegacyAssistantChunk
    | OtherKind(name: string)

  type Chunk = string

  /** An event's `data` record. A field of the wrong type is `None`; `inner` is the record that a
      `legacy/assistant-chunk` event nests under `data.data`. */
  datatype Data = Data(turn: Option<int>, step: Option<int>, chunk: Option<Chunk>,
                       legacyKind: Option<Kind>, inner: Option<Data>)

  datatype Event = Event(kind: Kind, seqNo: int, time: Option<int>, data: Option<Data>, surfaceAppend: bool)

  datatype Coordinates = Coordinates(turn: int, step: int)
  datatype Timed = Timed(time: int, chunk: Chunk)
  datatype PlacedChunk = PlacedChunk(seqNo: int, at: Coordinates, timed: Timed)

  /** The `activeAttempt` a snapshot carries. */
  datatype Opening = Opening(attemptId: string, startedAfterSeq: int, at: Coordinates, nextIndex: int,
    stream: seq<Timed>)
  datatype Baseline = Baseline(revision: int, activeAttempt: Option<Opening>)

  datatype Outcome = Abandoned | Committed(kind: Kind, seqNo: int) | UnknownOutcome

  datatype Transient =
    | Start(attemptId: string, revision: int, startedAfterSeq: int, at: Coordinates)
    | ChunkAt(attemptId: string, revision: int, index: int, timed: Timed)
    | End(attemptId: string, revision: int, index: int, outcome: Outcome)
    | UnknownTransient

  /** `Malformed` is any value that is neither a snapshot, a transient frame nor a durable event. */
  datatype Frame =
    | Snapshot(cursor: int, records: seq<Event>, assistant: Option<Baseline>)
    | Durable(event: Event)
    | Assistant(frame: Transient)
    | Malformed

  datatype StreamError =
    | MissingSnapshot | InvalidCursor | MissingBaseline | InvalidBaseline | OpeningBound
    | SecondSnapshot | LegacyTransient | InvalidDurable | SequenceGap(expected: int, actual: int)
    | ChunkBound | InvalidTransient | RevisionGap(expectedRevision: int, actualRevision: int)
    | InvalidStart | MismatchedStart | ChunkOutOfOrder | EndOutOfOrder | InvalidOutcome
    | NoSettlement | PendingSettlement | StreamClosed

  /** `pending` maps a durable settlement's seq to its kind; only the current-protocol side fills it. */
  datatype Attempt = Attempt(attemptId: string, startedAfterSeq: int, at: Coordinates, nextIndex: int,
    pending: map<int, Kind>)

  datatype State = State(begun: bool, revision: int, cursor: int, active: Option<Attempt>)

  const FRESH := State(false, 0, -1, None)

  /** What one push leaves behind: the closure's state, and the frames it returns or the error it throws. */
  datatype Step = Step(state: State, out: Result<seq<Frame>, StreamError>)

  predicate BoundedString(s: string) {
    0 < |s| <= 256 && '\0' !in s
  }

  predicate ValidBound(maxChunks: int) {
    0 < maxChunks <= MAX_ASSISTANT_CHUNKS
  }

  predicate Settlement(kind: Kind) {
    kind.AssistantMessage? || kind.AssistantAttempt?
  }

  function DataCoordinates(data: Option<Data>): Option<Coordinates> {
    if data.Some? && data.value.turn.Some? && data.value.step.Some?
      && SafeInt(data.value.turn.value, 0) && SafeInt(data.value.step.value, 0)
    then Some(Coordinates(data.value.turn.value, data.value.step.value))
    else None
  }

  /** The durable legacy chunk an event carries, in either of its two spellings. */
  function LegacyChunk(event: Event): Option<PlacedChunk> {
    var source :=
      if event.kind.LegacyAssistantChunk? && event.data.Some?
        && event.data.value.legacyKind == Some(AssistantChunk) then event.data.value.inner
      else if event.kind.AssistantChunk? then event.data
      else None;
    if source.None? || source.value.chunk.None? then None
    else
      var position := DataCoordinates(source);
      if position.None? || !SafeInt(event.seqNo, 0) || event.time.None? || !SafeInt(event.time.value, 0) then None
      else Some(PlacedChunk(event.seqNo, position.value, Timed(event.time.value, source.value.chunk.value)))
  }

  /** Decimal digits of an attempt's number. */
  function Decimal(n: nat): (s: string)
    ensures 0 < |s| && '\0' !in s
  {
    var digit := [(n % 10) as char + '0'];
    if n < 10 then digit else Decimal(n / 10) + digit
  }

  function PowerOfTen(k: nat): nat {
    if k == 0 then 1 else 10 * PowerOfTen(k - 1)
  }

  lemma {:induction false} DecimalLength(n: nat, k: nat)
    requires n < PowerOfTen(k) && 0 < k
    ensures |Decimal(n)| <= k
  {
    if 10 <= n {
      assert k != 1 by { assert PowerOfTen(0) == 1; }
      DecimalLength(n / 10, k - 1);
    }
  }

  function LegacyAttemptId(n: nat): string {
    ATTEMPT_PREFIX + Decimal(n)
  }

  lemma LegacyAttemptIdBounded(n: nat)
    requires n <= MAX_SAFE + 1
    ensures BoundedString(LegacyAttemptId(n))
  {
    assert PowerOfTen(4) == 10000;
    assert PowerOfTen(8) == 100000000 by { assert PowerOfTen(5) == 100000; assert PowerOfTen(6) == 1000000; }
    assert PowerOfTen(12) == 1000000000000 by { assert PowerOfTen(10) == 10000000000; }
    assert PowerOfTen(16) == 10000000000000000 by { assert PowerOfTen(14) == 100000000000000; }
    DecimalLength(n, 16);
    var id := LegacyAttemptId(n);
    forall i | 0 <= i < |id| ensures id[i] != '\0' {
      if i < |ATTEMPT_PREFIX| {
        assert id[i] == ATTEMPT_PREFIX[i];
      } else {
        assert id[i] == Decimal(n)[i - |ATTEMPT_PREFIX|];
      }
    }
  }

  /** The final mapping to the Browser version: a legacy Browser never sees transient frames. */
  function Emit(target: Target, frame: Frame): seq<Frame> {
    if target.CurrentTarget? then [frame]
    else match frame
      case Assistant(_) => []
      case Snapshot(cursor, records, _) => [Snapshot(cursor, records, None)]
      case _ => [frame]
  }

  // ---- Opening a legacy stream -----------------------------------------------------------------

  /** Whether a non-chunk record discards the chunks gathered before it. */
  predicate OpeningCut(event: Event) {
    Settlement(event.kind) || event.kind.TurnStart? || event.kind.StepStart?
  }

  /** The candidates left after the records, oldest first. */
  function TrailingChunks(records: seq<Event>): seq<PlacedChunk> {
    if records == [] then []
    else
      var before := TrailingChunks(records[..|records| - 1]);
      var event := records[|records| - 1];
      var chunk := LegacyChunk(event);
      if chunk.Some? then
        (if before != [] && before[|before| - 1].at != chunk.value.at then [] else before) + [chunk.value]
      else if OpeningCut(event) then []
      else before
  }

  function OpeningOf(cursor: int, chunks: seq<PlacedChunk>): Opening
    requires chunks != [] && 0 <= chunks[0].seqNo
  {
    Opening(LegacyAttemptId(chunks[0].seqNo), cursor, chunks[0].at, |chunks|,
            seq(|chunks|, i requires 0 <= i < |chunks| => chunks[i].timed))
  }

  lemma {:induction false} TrailingChunksShape(records: seq<Event>)
    ensures forall c :: c in TrailingChunks(records) ==>
      SafeInt(c.seqNo, 0) && SafeInt(c.at.turn, 0) && SafeInt(c.at.step, 0)
    ensures forall i, j :: 0 <= i < j < |TrailingChunks(records)| ==>
      TrailingChunks(records)[i].at == TrailingChunks(records)[j].at
  {
    if records != [] {
      TrailingChunksShape(records[..|records| - 1]);
    }
  }

  /** The chunks among some records. */
  function ChunksOf(records: seq<Event>): seq<PlacedChunk> {
    if records == [] then []
    else
      var chunk := LegacyChunk(records[|records| - 1]);
      ChunksOf(records[..|records| - 1]) + if chunk.Some? then [chunk.value] else []
  }

  /** From record `k` on no record cuts, and all chunks belong to one step. */
  predicate OneRun(records: seq<Event>, k: nat)
    requires k <= |records|
  {
    && (forall i :: k <= i < |records| && LegacyChunk(records[i]).None? ==> !OpeningCut(records[i]))
    && (forall i, j :: k <= i < j < |records| && LegacyChunk(records[i]).Some? && LegacyChunk(records[j]).Some? ==>
          LegacyChunk(records[i]).value.at == LegacyChunk(records[j]).value.at)
  }

  lemma OneRunExtends(records: seq<Event>, k: nat)
    requires k < |records| && OneRun(records[..|records| - 1], k)
    requires var event := records[|records| - 1];
      if LegacyChunk(event).Some?
      then forall i :: k <= i < |records| - 1 && LegacyChunk(records[i]).Some? ==>
        LegacyChunk(records[i]).value.at == LegacyChunk(event).value.at
      else !OpeningCut(event)
    ensures OneRun(records, k)
  {
    var init := records[..|records| - 1];
    assert forall i :: 0 <= i < |init| ==> init[i] == records[i];
  }

  lemma {:induction false} ChunksOfMembers(records: seq<Event>)
    ensures forall i :: 0 <= i < |records| && LegacyChunk(records[i]).Some? ==>
      LegacyChunk(records[i]).value in ChunksOf(records)
    ensures (forall i :: 0 <= i < |records| ==> LegacyChunk(records[i]).None?) ==> ChunksOf(records) == []
  {
    if records != [] { ChunksOfMembers(records[..|records| - 1]); }
  }

  /** Where the last chunk lies. */
  lemma {:induction false} LastChunkAt(records: seq<Event>, k: nat) returns (p: nat)
    requires k <= |records| && ChunksOf(records[k..]) != []
    ensures k <= p < |records| && LegacyChunk(records[p]) == Some(ChunksOf(records[k..])[|ChunksOf(records[k..])| - 1])
    ensures forall i :: p < i < |records| ==> LegacyChunk(records[i]).None?
    decreases |records|
  {
    var n := |records| - 1;
    assert k <= n;
    assert records[k..][..n - k] == records[..n][k..];
    if LegacyChunk(records[n]).Some? {
      p := n;
    } else {
      p := LastChunkAt(records[..n], k);
    }
  }

  lemma LongerRunFails(records: seq<Event>, j: nat)
    requires records != [] && j < |records| && !OneRun(records[..|records| - 1], j)
    ensures !OneRun(records, j)
  {
    var init := records[..|records| - 1];
    assert forall i :: 0 <= i < |init| ==> init[i] == records[i];
  }

  lemma SameRunContinues(records: seq<Event>, k: nat)
    requires k < |records| && OneRun(records[..|records| - 1], k)
    requires var before := ChunksOf(records[..|records| - 1][k..]); var event := records[|records| - 1];
      if LegacyChunk(event).Some? then forall c :: c in before ==> c.at == LegacyChunk(event).value.at
        else !OpeningCut(event)
    ensures OneRun(records, k)
  {
    var init := records[..|records| - 1];
    assert forall i :: k <= i < |init| ==> init[k..][i - k] == records[i];
    ChunksOfMembers(init[k..]);
    OneRunExtends(records, k);
  }

  /** Records without a cut or a chunk, and then a chunk. */
  lemma LoneChunk(records: seq<Event>, m: nat)
    requires m < |records| && LegacyChunk(records[|records| - 1]).Some?
    requires forall i :: m <= i < |records| - 1 ==> LegacyChunk(records[i]).None? && !OpeningCut(records[i])
    ensures OneRun(records, m) && ChunksOf(records[m..]) == [LegacyChunk(records[|records| - 1]).value]
  {
    hide LegacyChunk, OpeningCut;
    var n := |records| - 1;
    var rest := records[m..n];
    assert forall i :: 0 <= i < |rest| ==> rest[i] == records[m + i];
    ChunksOfMembers(rest);
    assert records[m..][..n - m] == rest && records[m..][n - m] == records[n];
  }

  lemma TwoStepsNoRun(records: seq<Event>, p: nat, q: nat, j: nat)
    requires j <= p < q < |records| && LegacyChunk(records[p]).Some? && LegacyChunk(records[q]).Some?
    requires LegacyChunk(records[p]).value.at != LegacyChunk(records[q]).value.at
    ensures !OneRun(records, j)
  {}

  /** A chunk of another step starts a run right behind the last chunk before it. */
  lemma NewRunBegins(records: seq<Event>, k: nat) returns (m: nat)
    requires k < |records| && var before := ChunksOf(records[..|records| - 1][k..]);
      var chunk := LegacyChunk(records[|records| - 1]);
      before != [] && chunk.Some? && before[|before| - 1].at != chunk.value.at && OneRun(records[..|records| - 1], k)
    ensures k < m < |records| && OneRun(records, m)
      && ChunksOf(records[m..]) == [LegacyChunk(records[|records| - 1]).value]
    ensures forall j :: 0 <= j < m ==> !OneRun(records, j)
  {
    hide LegacyChunk, OpeningCut, ChunksOf;
    var n := |records| - 1;
    var init := records[..n];
    var p := LastChunkAt(init, k);
    m := p + 1;
    forall i | m <= i < n ensures LegacyChunk(records[i]).None? && !OpeningCut(records[i]) {
      assert records[i] == init[i];
    }
    LoneChunk(records, m);
    hide OneRun;
    forall j | 0 <= j < m ensures !OneRun(records, j) {
      TwoStepsNoRun(records, p, n, j);
    }
  }

  /** The opening is made of the chunks of the longest run the snapshot ends with. */
  lemma {:induction false} TrailingChunksAreTheLastRun(records: seq<Event>) returns (k: nat)
    ensures k <= |records| && OneRun(records, k) && TrailingChunks(records) == ChunksOf(records[k..])
    ensures forall j :: 0 <= j < k ==> !OneRun(records, j)
  {
    if records == [] {
      return 0;
    }
    var n := |records| - 1;
    var init, event := records[..n], records[n];
    k := TrailingChunksAreTheLastRun(init);
    forall j | 0 <= j < k ensures !OneRun(records, j) { LongerRunFails(records, j); }
    TrailingChunksShape(init);
    var before, chunk := TrailingChunks(init), LegacyChunk(event);
    assert records[k..][..n - k] == init[k..] && records[k..][n - k] == event;
    if chunk.None? && OpeningCut(event) {
      assert forall j :: 0 <= j <= n ==> !OneRun(records, j);
      k := n + 1;
    } else if chunk.Some? && before != [] && before[|before| - 1].at != chunk.value.at {
      k := NewRunBegins(records, k);
    } else {
      hide OneRun, LegacyChunk;
      SameRunContinues(records, k);
    }
  }

  /** The loop over the snapshot's records, with its candidate array. */
  method OpeningAttempt(cursor: int, records: seq<Event>, maxChunks: int)
      returns (r: Result<Option<Opening>, StreamError>)
    ensures var chunks := TrailingChunks(records);
      && (chunks == [] ==> r == Ok(None))
      && (|chunks| > maxChunks && chunks != [] ==> r == Err(OpeningBound))
      && (chunks != [] && |chunks| <= maxChunks ==>
            0 <= chunks[0].seqNo && r == Ok(Some(OpeningOf(cursor, chunks))))
  {
    var candidates: seq<PlacedChunk> := [];
    for i := 0 to |records|
      invariant candidates == TrailingChunks(records[..i])
    {
      assert records[..i + 1][..i] == records[..i];
      var event := records[i];
      var chunk := LegacyChunk(event);
      if chunk.Some? {
        if candidates != [] && candidates[|candidates| - 1].at != chunk.value.at {
          candidates := [];
        }
        candidates := candidates + [chunk.value];
      } else if OpeningCut(event) {
        candidates := [];
      }
    }
    assert records[..|records|] == records;
    TrailingChunksShape(records);
    if candidates == [] {
      return Ok(None);
    }
    if |candidates| > maxChunks {
      return Err(OpeningBound);
    }
    return Ok(Some(OpeningOf(cursor, candidates)));
  }

  function OpenLegacy(target: Target, maxChunks: int, s: State, frame: Frame): Step {
    match frame
    case Snapshot(cursor, records, _) =>
      if !SafeInt(cursor, -1) then Step(s, Err(InvalidCursor))
      else
        var chunks := TrailingChunks(records);
        var opening0 := State(true, 0, cursor, None);
        if chunks == [] then Step(opening0, Ok(Emit(target, Snapshot(cursor, records, Some(Baseline(0, None))))))
        else if |chunks| > maxChunks then Step(opening0, Err(OpeningBound))
        else
          TrailingChunksShape(records);
          var opening := OpeningOf(cursor, chunks);
          Step(opening0.(active := Some(Attempt(opening.attemptId, cursor, opening.at, opening.nextIndex, map[]))),
               Ok(Emit(target, Snapshot(cursor, records, Some(Baseline(0, Some(opening)))))))
    case _ => Step(s, Err(MissingSnapshot))
  }

  // ---- A legacy durable event ------------------------------------------------------------------

  /** Close the open attempt, if any, as abandoned. */
  function AbandonState(s: State): State {
    if s.active.None? then s else s.(active := None, revision := s.revision + 1)
  }

  function AbandonFrames(target: Target, s: State): seq<Frame> {
    if s.active.None? then []
    else Emit(target, Assistant(End(s.active.value.attemptId, s.revision + 1, s.active.value.nextIndex, Abandoned)))
  }

  function StartState(s: State, at: Coordinates): State
    requires -1 <= s.cursor
  {
    s.(active := Some(Attempt(LegacyAttemptId(s.cursor + 1), s.cursor, at, 0, map[])), revision := s.revision + 1)
  }

  function StartFrames(target: Target, s: State, at: Coordinates): seq<Frame>
    requires -1 <= s.cursor
  {
    Emit(target, Assistant(Start(LegacyAttemptId(s.cursor + 1), s.revision + 1, s.cursor, at)))
  }

  function AppendState(s: State): State
    requires s.active.Some?
  {
    s.(active := Some(s.active.value.(nextIndex := s.active.value.nextIndex + 1)), revision := s.revision + 1)
  }

  function AppendFrames(target: Target, s: State, timed: Timed): seq<Frame>
    requires s.active.Some?
  {
    Emit(target, Assistant(ChunkAt(s.active.value.attemptId, s.revision + 1, s.active.value.nextIndex, timed)))
  }

  /** A durable legacy chunk: at most an abandon, at most a start, one chunk frame, then the event itself. */
  function PushChunk(target: Target, maxChunks: int, s: State, event: Event, chunk: PlacedChunk): Step
    requires -1 <= s.cursor
  {
    var moved := s.active.Some? && s.active.value.at != chunk.at;
    var s1 := if moved then AbandonState(s) else s;
    var o1 := if moved then AbandonFrames(target, s) else [];
    var s2 := if s1.active.None? then StartState(s1, chunk.at) else s1;
    var o2 := if s1.active.None? then StartFrames(target, s1, chunk.at) else [];
    if s2.active.value.nextIndex >= maxChunks then Step(s2, Err(ChunkBound))
    else Step(AppendState(s2).(cursor := event.seqNo),
              Ok(o1 + o2 + AppendFrames(target, s2, chunk.timed) + Emit(target, Durable(event))))
  }

  /** Whether a non-chunk event ends the open attempt before it is itself emitted. */
  predicate Boundary(active: Option<Attempt>, event: Event) {
    var position := DataCoordinates(event.data);
    || event.kind.TurnEnd?
    || event.kind.StepEnd?
    || (event.kind.TurnStart? && active.Some? && (position.None? || position.value.turn != active.value.at.turn))
    || (event.kind.StepStart? && active.Some? && position != Some(active.value.at))
  }

  /** Whether a settlement event settles this attempt. */
  predicate Settles(attempt: Attempt, event: Event) {
    && Settlement(event.kind)
    && DataCoordinates(event.data) == Some(attempt.at)
    && (event.kind.AssistantMessage? ==> event.surfaceAppend)
  }

  function PushOther(target: Target, s: State, event: Event): Step {
    var bounded := s.active.Some? && Boundary(s.active, event);
    var s1 := if bounded then AbandonState(s) else s;
    var o1 := if bounded then AbandonFrames(target, s) else [];
    var s2 := s1.(cursor := event.seqNo);
    var o2 := o1 + Emit(target, Durable(event));
    if !Settlement(event.kind) || s2.active.None? then Step(s2, Ok(o2))
    else if !Settles(s2.active.value, event) then Step(AbandonState(s2), Ok(o2 + AbandonFrames(target, s2)))
    else Step(AbandonState(s2),
              Ok(o2 + Emit(target, Assistant(End(s2.active.value.attemptId, s2.revision + 1, s2.active.value.nextIndex,
                                                 Committed(event.kind, event.seqNo))))))
  }

  /** `assertDurableSequence`. */
  function CheckDurable(cursor: int, frame: Frame): Result<Event, StreamError> {
    match frame
    case Durable(event) =>
      if !SafeInt(event.seqNo, 0) then Err(InvalidDurable)
      else if event.seqNo != cursor + 1 then Err(SequenceGap(cursor + 1, event.seqNo))
      else Ok(event)
    case _ => Err(InvalidDurable)
  }

  function PushLegacy(target: Target, maxChunks: int, s: State, frame: Frame): (r: Step)
    requires s.begun ==> -1 <= s.cursor
    ensures r.state.begun ==> -1 <= r.state.cursor
  {
    if !s.begun then OpenLegacy(target, maxChunks, s, frame)
    else if frame.Snapshot? then Step(s, Err(SecondSnapshot))
    else if frame.Assistant? then Step(s, Err(LegacyTransient))
    else
      var checked := CheckDurable(s.cursor, frame);
      if checked.Err? then Step(s, Err(checked.error))
      else
        var chunk := LegacyChunk(checked.value);
        if chunk.Some? then PushChunk(target, maxChunks, s, checked.value, chunk.value)
        else PushOther(target, s, checked.value)
  }

  // ---- The current protocol's validator --------------------------------------------------------

  /** `assertSnapshot` with the baseline required. */
  function CheckBaseline(maxChunks: int, assistant: Option<Baseline>): Option<StreamError> {
    if assistant.None? then Some(MissingBaseline)
    else if !SafeInt(assistant.value.revision, 0) then Some(InvalidBaseline)
    else match assistant.value.activeAttempt
      case None => None
      case Some(a) =>
        if !BoundedString(a.attemptId) || !SafeInt(a.startedAfterSeq, -1) || !SafeInt(a.at.turn, 0)
          || !SafeInt(a.at.step, 0)
          || !SafeInt(a.nextIndex, 0) then Some(InvalidBaseline)
        else if a.nextIndex > maxChunks || |a.stream| > a.nextIndex then Some(InvalidBaseline)
        else None
  }

  /** `validateCurrentAssistantFrame`, in its order of checks. */
  function CheckTransient(maxChunks: int, s: State, t: Transient): Option<StreamError> {
    if t.UnknownTransient? then Some(InvalidTransient)
    else if !BoundedString(t.attemptId) || !SafeInt(t.revision, 1) then Some(InvalidTransient)
    else if t.revision != s.revision + 1 then Some(RevisionGap(s.revision + 1, t.revision))
    else match t
      case Start(_, _, startedAfterSeq, at) =>
        if !SafeInt(startedAfterSeq, -1) || !SafeInt(at.turn, 0) || !SafeInt(at.step, 0) then Some(InvalidStart)
        else if s.active.Some? then Some(MismatchedStart)
        else None
      case ChunkAt(id, _, index, timed) =>
        if s.active.None? || s.active.value.attemptId != id || index != s.active.value.nextIndex
          || !SafeInt(timed.time, 0) then Some(ChunkOutOfOrder)
        else if s.active.value.nextIndex >= maxChunks then Some(ChunkBound)
        else None
      case End(id, _, index, outcome) =>
        if s.active.None? || s.active.value.attemptId != id || index != s.active.value.nextIndex then
          Some(EndOutOfOrder)
        else if outcome.UnknownOutcome? then Some(InvalidOutcome)
        else if outcome.Committed? && (!Settlement(outcome.kind) || !SafeInt(outcome.seqNo, 0)) then
          Some(InvalidOutcome)
        else None
      case UnknownTransient => None
  }

  /** The state change of a validated transient frame. A failing `end` has already taken the revision. */
  function PushTransient(target: Target, maxChunks: int, s: State, t: Transient): Step {
    var rejected := CheckTransient(maxChunks, s, t);
    if rejected.Some? then Step(s, Err(rejected.value))
    else
      var s1 := s.(revision := t.revision);
      match t
      case Start(id, _, startedAfterSeq, at) =>
        Step(s1.(active := Some(Attempt(id, startedAfterSeq, at, 0, map[]))), Ok(Emit(target, Assistant(t))))
      case ChunkAt(_, _, _, _) =>
        Step(s1.(active := Some(s.active.value.(nextIndex := s.active.value.nextIndex + 1))),
          Ok(Emit(target, Assistant(t))))
      case End(_, _, _, outcome) =>
        var pending := s.active.value.pending;
        if outcome.Committed? && (outcome.seqNo !in pending || pending[outcome.seqNo] != outcome.kind) then
          Step(s1, Err(NoSettlement))
        else if outcome.Abandoned? && pending != map[] then Step(s1, Err(PendingSettlement))
        else Step(s1.(active := None), Ok(Emit(target, Assistant(t))))
      case UnknownTransient => Step(s, Err(InvalidTransient))
  }

  function OpenCurrent(target: Target, maxChunks: int, s: State, frame: Frame): Step {
    match frame
    case Snapshot(cursor, _, assistant) =>
      if !SafeInt(cursor, -1) then Step(s, Err(InvalidCursor))
      else
        var rejected := CheckBaseline(maxChunks, assistant);
        if rejected.Some? then Step(s, Err(rejected.value))
        else
          var opening := assistant.value.activeAttempt;
          var active := if opening.None? then None
                        else Some(Attempt(opening.value.attemptId, opening.value.startedAfterSeq, opening.value.at,
                          opening.value.nextIndex, map[]));
          Step(State(true, assistant.value.revision, cursor, active), Ok(Emit(target, frame)))
    case _ => Step(s, Err(MissingSnapshot))
  }

  /** A durable event only moves the cursor and remembers a settlement of the open attempt. */
  function PushDurable(target: Target, s: State, event: Event): Step {
    var s1 := s.(cursor := event.seqNo);
    var settles := s.active.Some? && event.seqNo > s.active.value.startedAfterSeq && Settles(s.active.value, event);
    var s2 := if settles then
      s1.(active := Some(s.active.value.(pending := s.active.value.pending[event.seqNo := event.kind]))) else s1;
    Step(s2, Ok(Emit(target, Durable(event))))
  }

  function PushCurrent(target: Target, maxChunks: int, s: State, frame: Frame): Step {
    if !s.begun then OpenCurrent(target, maxChunks, s, frame)
    else match frame
      case Snapshot(_, _, _) => Step(s, Err(SecondSnapshot))
      case Assistant(t) => PushTransient(target, maxChunks, s, t)
      case _ =>
        var checked := CheckDurable(s.cursor, frame);
        if checked.Err? then Step(s, Err(checked.error)) else PushDurable(target, s, checked.value)
  }

  // ---- The connection --------------------------------------------------------------------------

  /** One encoder: `sourceLegacy` selects `pushLegacy`, and `requested` is the caller's opt-in. */
  class Encoder {
    const sourceLegacy: bool
    const target: Target
    const requested: bool
    const maxChunks: int

    var begun: bool
    var closed: bool
    var revision: int
    var durableCursor: int
    var activeAttempt: Option<Attempt>

    ghost function Abstract(): State
      reads this
    {
      State(begun, revision, durableCursor, activeAttempt)
    }

    ghost predicate Valid()
      reads this
    {
      ValidBound(maxChunks) && (begun ==> -1 <= durableCursor)
    }

    constructor (sourceLegacy: bool, target: Target, requested: bool, maxChunks: int)
      requires ValidBound(maxChunks)
      ensures Valid() && Abstract() == FRESH && !closed
      ensures this.sourceLegacy == sourceLegacy && this.target == target && this.requested == requested
        && this.maxChunks == maxChunks
    {
      this.sourceLegacy, this.target, this.requested, this.maxChunks := sourceLegacy, target, requested, maxChunks;
      begun, closed, revision, durableCursor, activeAttempt := false, false, 0, -1, None;
    }

    method Abandon() returns (output: seq<Frame>)
      modifies this`activeAttempt, this`revision
      ensures Abstract() == AbandonState(old(Abstract()))
      ensures output == AbandonFrames(target, old(Abstract()))
    {
      if activeAttempt.None? {
        return [];
      }
      var attempt := activeAttempt.value;
      activeAttempt := None;
      revision := revision + 1;
      output := Emit(target, Assistant(End(attempt.attemptId, revision, attempt.nextIndex, Abandoned)));
    }

    method StartAttempt(at: Coordinates) returns (output: seq<Frame>)
      requires -1 <= durableCursor
      modifies this`activeAttempt, this`revision
      ensures Abstract() == StartState(old(Abstract()), at)
      ensures output == StartFrames(target, old(Abstract()), at)
    {
      var attempt := Attempt(LegacyAttemptId(durableCursor + 1), durableCursor, at, 0, map[]);
      activeAttempt := Some(attempt);
      revision := revision + 1;
      output := Emit(target, Assistant(Start(attempt.attemptId, revision, attempt.startedAfterSeq, at)));
    }

    method PushLegacyFrame(frame: Frame) returns (r: Result<seq<Frame>, StreamError>)
      requires Valid()
      modifies this`begun, this`revision, this`durableCursor, this`activeAttempt
      ensures Valid()
      ensures Step(Abstract(), r) == PushLegacy(target, maxChunks, old(Abstract()), frame)
    {
      if !begun {
        if !frame.Snapshot? {
          return Err(MissingSnapshot);
        }
        if !SafeInt(frame.cursor, -1) {
          return Err(InvalidCursor);
        }
        begun, durableCursor, revision, activeAttempt := true, frame.cursor, 0, None;
        var opening := OpeningAttempt(frame.cursor, frame.records, maxChunks);
        TrailingChunksShape(frame.records);
        if opening.Err? {
          return Err(opening.error);
        }
        if opening.value.Some? {
          var o := opening.value.value;
          activeAttempt := Some(Attempt(o.attemptId, o.startedAfterSeq, o.at, o.nextIndex, map[]));
        }
        return Ok(Emit(target, Snapshot(frame.cursor, frame.records, Some(Baseline(0, opening.value)))));
      }
      if frame.Snapshot? {
        return Err(SecondSnapshot);
      }
      if frame.Assistant? {
        return Err(LegacyTransient);
      }
      var checked := CheckDurable(durableCursor, frame);
      if checked.Err? {
        return Err(checked.error);
      }
      var event := checked.value;
      var chunk := LegacyChunk(event);
      if chunk.Some? {
        r := PushLegacyChunk(event, chunk.value);
      } else {
        r := PushLegacyOther(event);
      }
    }

    method PushLegacyChunk(event: Event, chunk: PlacedChunk) returns (r: Result<seq<Frame>, StreamError>)
      requires Valid() && begun && SafeInt(event.seqNo, 0)
      modifies this`revision, this`durableCursor, this`activeAttempt
      ensures Valid()
      ensures Step(Abstract(), r) == PushChunk(target, maxChunks, old(Abstract()), event, chunk)
    {
      var output: seq<Frame> := [];
      if activeAttempt.Some? && activeAttempt.value.at != chunk.at {
        output := Abandon();
      }
      var started: seq<Frame> := [];
      if activeAttempt.None? {
        started := StartAttempt(chunk.at);
      }
      output := output + started;
      if activeAttempt.value.nextIndex >= maxChunks {
        return Err(ChunkBound);
      }
      revision := revision + 1;
      output := output + Emit(target,
        Assistant(ChunkAt(activeAttempt.value.attemptId, revision, activeAttempt.value.nextIndex, chunk.timed)));
      activeAttempt := Some(activeAttempt.value.(nextIndex := activeAttempt.value.nextIndex + 1));
      output := output + Emit(target, Durable(event));
      durableCursor := event.seqNo;
      return Ok(output);
    }

    method PushLegacyOther(event: Event) returns (r: Result<seq<Frame>, StreamError>)
      requires Valid() && begun && SafeInt(event.seqNo, 0)
      modifies this`revision, this`durableCursor, this`activeAttempt
      ensures Valid()
      ensures Step(Abstract(), r) == PushOther(target, old(Abstract()), event)
    {
      var output: seq<Frame> := [];
      if activeAttempt.Some? && Boundary(activeAttempt, event) {
        output := Abandon();
      }
      output := output + Emit(target, Durable(event));
      durableCursor := event.seqNo;
      if Settlement(event.kind) && activeAttempt.Some? {
        var current := activeAttempt.value;
        var ended: seq<Frame>;
        if !Settles(current, event) {
          ended := Abandon();
        } else {
          activeAttempt := None;
          revision := revision + 1;
          ended := Emit(target, Assistant(End(current.attemptId, revision, current.nextIndex,
            Committed(event.kind, event.seqNo))));
        }
        output := output + ended;
      }
      return Ok(output);
    }

    method PushCurrentFrame(frame: Frame) returns (r: Result<seq<Frame>, StreamError>)
      requires Valid()
      modifies this`begun, this`revision, this`durableCursor, this`activeAttempt
      ensures Valid()
      ensures Step(Abstract(), r) == PushCurrent(target, maxChunks, old(Abstract()), frame)
    {
      if !begun {
        if !frame.Snapshot? {
          return Err(MissingSnapshot);
        }
        if !SafeInt(frame.cursor, -1) {
          return Err(InvalidCursor);
        }
        var rejected := CheckBaseline(maxChunks, frame.assistant);
        if rejected.Some? {
          return Err(rejected.value);
        }
        begun, durableCursor, revision := true, frame.cursor, frame.assistant.value.revision;
        var opening := frame.assistant.value.activeAttempt;
        activeAttempt := if opening.None? then None
                         else Some(Attempt(opening.value.attemptId, opening.value.startedAfterSeq, opening.value.at,
                           opening.value.nextIndex, map[]));
        return Ok(Emit(target, frame));
      }
      if frame.Snapshot? {
        return Err(SecondSnapshot);
      }
      if frame.Assistant? {
        r := PushCurrentTransient(frame.frame);
        return;
      }
      var checked := CheckDurable(durableCursor, frame);
      if checked.Err? {
        return Err(checked.error);
      }
      var event := checked.value;
      durableCursor := event.seqNo;
      if activeAttempt.Some? && Settlement(event.kind) {
        var matching := event.seqNo > activeAttempt.value.startedAfterSeq && Settles(activeAttempt.value, event);
        if matching {
          activeAttempt := Some(activeAttempt.value.(pending :=
            activeAttempt.value.pending[event.seqNo := event.kind]));
        }
      }
      return Ok(Emit(target, frame));
    }

    method PushCurrentTransient(t: Transient) returns (r: Result<seq<Frame>, StreamError>)
      modifies this`revision, this`activeAttempt
      ensures Step(Abstract(), r) == PushTransient(target, maxChunks, old(Abstract()), t)
    {
      var rejected := CheckTransient(maxChunks, State(begun, revision, durableCursor, activeAttempt), t);
      if rejected.Some? {
        return Err(rejected.value);
      }
      revision := t.revision;
      match t {
        case Start(id, _, startedAfterSeq, at) =>
          activeAttempt := Some(Attempt(id, startedAfterSeq, at, 0, map[]));
        case ChunkAt(_, _, _, _) =>
          activeAttempt := Some(activeAttempt.value.(nextIndex := activeAttempt.value.nextIndex + 1));
        case End(_, _, _, outcome) =>
          var pending := activeAttempt.value.pending;
          if outcome.Committed? {
            if outcome.seqNo !in pending || pending[outcome.seqNo] != outcome.kind {
              return Err(NoSettlement);
            }
          } else if pending != map[] {
            return Err(PendingSettlement);
          }
          activeAttempt := None;
      }
      return Ok(Emit(target, Assistant(t)));
    }

    /** The public entry. Without the opt-in the encoder is a plain version mapping. */
    method Push(frame: Frame) returns (r: Result<seq<Frame>, StreamError>)
      requires Valid()
      modifies this`begun, this`revision, this`durableCursor, this`activeAttempt
      ensures Valid()
      ensures closed ==> r == Err(StreamClosed) && Abstract() == old(Abstract())
      ensures !closed && !requested ==> r == Ok(Emit(target, frame)) && Abstract() == old(Abstract())
      ensures !closed && requested && sourceLegacy ==>
        Step(Abstract(), r) == PushLegacy(target, maxChunks, old(Abstract()), frame)
      ensures !closed && requested && !sourceLegacy ==>
        Step(Abstract(), r) == PushCurrent(target, maxChunks, old(Abstract()), frame)
    {
      if closed {
        return Err(StreamClosed);
      }
      if !requested {
        return Ok(Emit(target, frame));
      }
      if sourceLegacy {
        r := PushLegacyFrame(frame);
      } else {
        r := PushCurrentFrame(frame);
      }
    }

    method Close()
      modifies this`closed, this`activeAttempt
      ensures closed
      ensures if old(closed) then activeAttempt == old(activeAttempt) else activeAttempt == None
    {
      if closed {
        return;
      }
      closed, activeAttempt := true, None;
    }
  }
}
