/** What the attempt cache answers to each frame and baseline, said of the frame's own fields and of what is known of
    the session: its public baseline, the last raw revision, and the attempts it has retired. */
module AssistantCacheLaws {
  import opened Prelude
  import opened AssistantCache
  import opened AssistantCacheRuns

  // ---- What is emitted -------------------------------------------------------------------------

  /** The public frame says what the raw one said, under the given revision and cursor. */
  predicate Says(f: RawFrame, durableCursor: int, revision: int, p: PublicFrame) {
    match f
    case RawStart(id, _, turn, step) =>
      p.Start? && p.attemptId == id && p.revision == revision && p.startedAfterSeq == durableCursor && p.turn == turn
      && p.step == step
    case RawChunk(id, _, index, timed) =>
      p.ChunkAt? && p.attemptId == id && p.revision == revision && p.index == index && p.timed.time == timed.time
      && p.timed.chunk == timed.chunk
    case RawEnd(id, _, index, outcome) =>
      p.End? && p.attemptId == id && p.revision == revision && p.index == index && p.outcome == outcome
    case Unsanitary => false
  }

  /** Every number of the frame is a sequence number, and the cursor is one or -1. */
  predicate Wellformed(f: RawFrame, durableCursor: int) {
    && -1 <= durableCursor <= MAX_SAFE && !f.Unsanitary? && 0 <= f.revision <= MAX_SAFE
    && (f.RawStart? ==> 0 <= f.turn <= MAX_SAFE && 0 <= f.step <= MAX_SAFE)
    && (f.RawChunk? ==> 0 <= f.index <= MAX_SAFE && 0 <= f.timed.time <= MAX_SAFE)
    && (f.RawEnd? ==> 0 <= f.index <= MAX_SAFE)
  }

  predicate OpenUnder(s: Session, id: string) {
    s.active.Some? && s.active.value.attemptId == id
  }

  /** A `start` numbered 1 although the session has seen frames. */
  predicate Restart(s: Session, f: RawFrame) {
    f.RawStart? && f.revision == 1 && s.lastRaw > 0
  }

  /** A frame of another attempt than the open one, a restart under the open or a retired name, a frame seen before, or
      a chunk or end while nothing is open. */
  predicate IsIgnored(s: Session, f: RawFrame)
    requires !f.Unsanitary?
  {
    || (!f.RawStart? && s.active.Some? && !OpenUnder(s, f.attemptId))
    || (Restart(s, f) && (OpenUnder(s, f.attemptId) || f.attemptId in s.retired))
    || (!Restart(s, f) && f.revision <= s.lastRaw)
    || (!f.RawStart? && s.active.None? && f.revision == s.lastRaw + 1 && s.publicRevision < MAX_SAFE)
  }

  /** The frame continues the raw revisions, or starts them over, and the public one has room. */
  predicate Continues(s: Session, f: RawFrame)
    requires !f.Unsanitary?
  {
    (Restart(s, f) || f.revision == s.lastRaw + 1) && s.publicRevision < MAX_SAFE
  }

  /** Bytes of the attempt after the frame. */
  function BytesAfter(config: Config, s: Session, f: RawFrame, durableCursor: int): int
    requires f.RawStart? || (f.RawChunk? && s.active.Some?)
  {
    if f.RawStart? then config.fixedBytes(f.attemptId, durableCursor, f.turn, f.step)
    else Measured(config, s.active.value) + config.timedBytes(f.timed)
  }

  predicate IsEmitted(config: Config, s: Session, f: RawFrame, durableCursor: int, attempts: int)
    requires !f.Unsanitary?
  {
    && !IsIgnored(s, f) && Continues(s, f)
    && match f
       case RawStart(_, _, _, _) =>
         (s.active.Some? || attempts < config.maxActiveAttempts)
         && BytesAfter(config, s, f, durableCursor) <= config.maxBytesPerSession
       case RawChunk(id, _, index, _) =>
         OpenUnder(s, id) && index == s.active.value.nextIndex
         && BytesAfter(config, s, f, durableCursor) <= config.maxBytesPerSession
       case RawEnd(id, _, index, _) => OpenUnder(s, id) && index == s.active.value.nextIndex
  }

  /** INGEST. In every cache within its invariant: when a frame is emitted, ignored or refused, and what is emitted. */
  lemma IngestAnswers(config: Config, c: Cache, sid: string, f: RawFrame, durableCursor: int)
    requires ValidConfig(config) && CacheOk(config, c)
    ensures var s, r := SessionOf(c, sid), Ingest(config, c, sid, f, durableCursor).1;
      && (r.Emitted? <==> Wellformed(f, durableCursor) && IsEmitted(config, s, f, durableCursor, c.activeAttempts))
      && (r.Emitted? ==> Says(f, durableCursor, s.publicRevision + 1, r.frame))
      && (r.Ignored? <==> Wellformed(f, durableCursor) && IsIgnored(s, f))
  {}

  /** REFUSALS. A frame that is neither emitted nor ignored is refused: malformed ones and revisions without room as
      invalid, a gap in the revisions or indices as such, and otherwise for the limit it would exceed. */
  lemma IngestRefuses(config: Config, c: Cache, sid: string, f: RawFrame, durableCursor: int)
    requires ValidConfig(config) && CacheOk(config, c)
    ensures var s, r := SessionOf(c, sid), Ingest(config, c, sid, f, durableCursor).1;
      r.Failed? ==>
        if !Wellformed(f, durableCursor) then r.error == InvalidInput
        else if !Restart(s, f) && f.revision != s.lastRaw + 1
        then r.error == RevisionGap(s.lastRaw + 1, f.revision) && f.revision > s.lastRaw + 1
        else if s.publicRevision == MAX_SAFE then r.error == InvalidInput
        else if f.RawStart? && s.active.None? && c.activeAttempts >= config.maxActiveAttempts
        then r.error == ActiveAttemptLimit
        else if !f.RawStart? && f.index != s.active.value.nextIndex
        then r.error == IndexGap(s.active.value.nextIndex, f.index)
        else (f.RawStart? || f.RawChunk?)
             && var bytes := BytesAfter(config, s, f, durableCursor);
                bytes > config.maxBytesPerSession && r.error == BaselineNeeded(bytes, config.maxBytesPerSession)
  {}

  /** The most recently retired names, each once, at most 64, the oldest first. */
  lemma RetiredNames(retired: seq<string>, id: string)
    requires Distinct(retired) && |retired| <= 64
    ensures Retire(retired, id) ==
            if id in retired then retired else if |retired| < 64 then retired + [id] else retired[1..] + [id]
  {
    if id !in retired && |retired| == 64 { assert (retired + [id])[1..] == retired[1..] + [id]; }
  }

  /** MEMORY. What an emitted frame leaves behind besides the baseline: the raw revision it had, and the attempt it
      ended or replaced among the retired ones. */
  lemma IngestRemembers(config: Config, c: Cache, sid: string, f: RawFrame, durableCursor: int)
    requires ValidConfig(config) && CacheOk(config, c) && Ingest(config, c, sid, f, durableCursor).1.Emitted?
    ensures var s, s' := SessionOf(c, sid), SessionOf(Ingest(config, c, sid, f, durableCursor).0, sid);
      && s'.lastRaw == f.revision
      && s'.retired == (if s.active.Some? && !f.RawChunk? then Retire(s.retired, s.active.value.attemptId)
         else s.retired)
      && s'.starts == s.starts + (if f.RawStart? then 1 else 0) && s'.ends == s.ends + (if f.RawEnd? then 1 else 0)
  {}

  // ---- Baselines -------------------------------------------------------------------------------

  /** An idle session takes a baseline that has an attempt not retired here and a revision it has not reached, or one
      that starts the revisions over; a session that has emitted nothing takes any. */
  predicate TakesBaseline(s: Session, b: RawBaseline) {
    && s.active.None?
    && (|| s.publicRevision == 0
        || (&& (b.activeAttempt.Some? ==> b.activeAttempt.value.attemptId !in s.retired)
            && (b.revision > s.lastRaw || StartsOver(s, b))))
  }

  predicate StartsOver(s: Session, b: RawBaseline) {
    b.activeAttempt.Some? && b.revision == 1 && s.lastRaw > 0
  }

  /** The public revision a baseline would bring the session to. */
  function RevisionAfter(s: Session, b: RawBaseline): int {
    if StartsOver(s, b) then s.publicRevision + 1 else s.publicRevision - s.lastRaw + b.revision
  }

  /** The public attempt is the raw one, its packed stream unpacked. */
  predicate Unpacks(a: RawAttempt, p: PublicAttempt)
    requires forall r :: r in a.stream ==> RunSanitary(r)
  {
    && p.attemptId == a.attemptId && p.startedAfterSeq == a.startedAfterSeq && p.turn == a.turn && p.step == a.step
    && p.nextIndex == a.nextIndex && p.stream == Expand(a.stream)
  }

  /** BASELINES. A well-formed baseline that is not taken is answered by the session's own; one that is taken is
      answered by itself, unpacked, under the public revision it brings; or it is refused for the revision, the attempt
      limit or its size. */
  lemma BaselineAnswers(config: Config, c: Cache, sid: string, b: RawBaseline)
    requires ValidConfig(config) && CacheOk(config, c) && BaselineSanitary(b)
    ensures var s, (c', r) := SessionOf(c, sid), Install(config, c, sid, b);
      var a := b.activeAttempt;
      && (!TakesBaseline(s, b) ==> r == Ok(BaselineOf(s)) && SessionOf(c', sid) == s)
      && (TakesBaseline(s, b) && r.Ok? ==>
            && r.value.revision == RevisionAfter(s, b) && (r.value.activeAttempt.Some? <==> a.Some?)
            && (a.Some? ==> Unpacks(a.value, r.value.activeAttempt.value))
            && SessionOf(c', sid).lastRaw == b.revision && SessionOf(c', sid).retired == s.retired)
      && (r.Err? <==> TakesBaseline(s, b) && (|| RevisionAfter(s, b) > MAX_SAFE
                                              || (a.Some? && c.activeAttempts >= config.maxActiveAttempts)
                                              || (a.Some? && InstalledBytes(config,
                                                 a.value) > config.maxBytesPerSession)))
  {
    PutOk(config, c, sid, SessionOf(c, sid));
  }

  function InstalledBytes(config: Config, a: RawAttempt): int
    requires forall r :: r in a.stream ==> RunSanitary(r)
  {
    config.fixedBytes(a.attemptId, a.startedAfterSeq, a.turn, a.step) + ChunkBytes(config, Expand(a.stream))
  }

  // ---- Packed streams --------------------------------------------------------------------------

  predicate AllSanitary(records: seq<Compact>) {
    forall r :: r in records ==> RunSanitary(r)
  }

  lemma ExpandLast(records: seq<Compact>, r: Compact)
    requires AllSanitary(records) && RunSanitary(r)
    ensures AllSanitary(records + [r]) && Expand(records + [r]) == Expand(records) + Members(r)
  {
    assert (records + [r])[..|records|] == records;
  }

  /** Records are unpacked one behind the other. */
  lemma {:induction false} ExpandAppend(a: seq<Compact>, b: seq<Compact>)
    requires AllSanitary(a) && AllSanitary(b)
    ensures AllSanitary(a + b) && Expand(a + b) == Expand(a) + Expand(b)
  {
    hide RunSanitary, Members, Expand;
    if b == [] {
      assert a + b == a;
      ExpandNothing();
    } else {
      var n := |b| - 1;
      var init, last := b[..n], b[n];
      assert b == init + [last] && a + b == (a + init) + [last] && last in b;
      ExpandAppend(a, init);
      ExpandLast(a + init, last);
      ExpandLast(init, last);
    }
  }

  lemma ExpandNothing()
    ensures Expand([]) == []
  {}

  /** What one record stands for: a chunk for itself; a run for one delta for each of its values, of its kind and under
      its index, tool calls without their arguments. */
  lemma RecordMembers(r: Compact)
    requires RunSanitary(r)
    ensures Expand([r]) == Members(r)
    ensures r.OneChunk? ==> Members(r) == [r.timed]
    ensures r.Run? ==> |Members(r)| == |r.values| && forall i :: 0 <= i < |r.values| ==>
      Members(r)[i].chunk == match r.kind
        case TextRun => TextDelta(r.index, r.values[i])
        case ReasoningRun => ReasoningDelta(r.index, r.values[i])
        case ToolCallRun(id, name) => ToolCallDelta(r.index, id, name)
  {
    assert [r][..0] == [];
  }

  lemma {:induction false} BytesAppend(config: Config, a: seq<Timed>, x: Timed)
    ensures ChunkBytes(config, a + [x]) == ChunkBytes(config, a) + config.timedBytes(x)
  {
    assert (a + [x])[..|a|] == a;
  }
}
