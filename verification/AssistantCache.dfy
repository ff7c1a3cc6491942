/** The assistant attempt cache of packages/runtime-interface/src/mobile-assistant-stream.js. Raw revisions restart
    at 1 with every source; the cache maps them to one public revision per session and keeps a replayable baseline. */
module AssistantCache {
  import opened Prelude

  const MAX_RETIRED: nat := 64

  datatype Chunk =
    | TextDelta(index: int, text: string)
    | ReasoningDelta(index: int, text: string)
    | ToolCallDelta(index: int, id: string, name: Option<string>)
    | OtherChunk(payload: string)

  datatype Timed = Timed(time: int, chunk: Chunk)

  datatype Outcome = Abandoned | Committed(eventType: string, seqNo: int)

  /** A frame as the source sends it; `Unsanitary` is any value the sanitizer refuses. */
  datatype RawFrame =
    | RawStart(attemptId: string, revision: int, turn: int, step: int)
    | RawChunk(attemptId: string, revision: int, index: int, timed: Timed)
    | RawEnd(attemptId: string, revision: int, index: int, outcome: Outcome)
    | Unsanitary

  datatype PublicFrame =
    | Start(attemptId: string, revision: int, startedAfterSeq: int, turn: int, step: int)
    | ChunkAt(attemptId: string, revision: int, index: int, timed: Timed)
    | End(attemptId: string, revision: int, index: int, outcome: Outcome)

  datatype Attempt = Attempt(attemptId: string, startedAfterSeq: int, turn: int, step: int, nextIndex: int,
                             chunks: seq<Timed>, bytes: int)

  datatype PublicAttempt = PublicAttempt(attemptId: string, startedAfterSeq: int, turn: int, step: int, nextIndex: int,
    stream: seq<Timed>)
  datatype PublicBaseline = PublicBaseline(revision: int, activeAttempt: Option<PublicAttempt>)

  /** Compact stream records: a single chunk, or a run of values with time gaps. */
  datatype RunKind = TextRun | ReasoningRun | ToolCallRun(id: string, name: Option<string>)
  datatype Compact =
    | OneChunk(timed: Timed)
    | Run(kind: RunKind, time0: int, index: int, dt: seq<int>, values: seq<string>)

  datatype RawAttempt = RawAttempt(attemptId: string, startedAfterSeq: int, turn: int, step: int, nextIndex: int,
    stream: seq<Compact>)
  datatype RawBaseline = RawBaseline(revision: int, activeAttempt: Option<RawAttempt>)

  datatype CacheError =
    | InvalidInput
    | RevisionGap(expected: int, received: int)
    | IndexGap(expectedIndex: int, receivedIndex: int)
    | ActiveAttemptLimit
    | BaselineNeeded(bytes: int, limit: int)

  datatype Ingested = Emitted(frame: PublicFrame) | Ignored | Failed(error: CacheError)

  datatype Session = Session(offset: int, lastRaw: int, publicRevision: int, active: Option<Attempt>,
                             retired: seq<string>, starts: nat, ends: nat)

  const FRESH_SESSION := Session(0, 0, 0, None, [], 0, 0)

  /** `timedBytes` and `fixedBytes` stand for the UTF-8 length of the JSON the source measures. */
  datatype Config = Config(maxBytesPerSession: int, maxActiveAttempts: int,
                           timedBytes: Timed -> nat, fixedBytes: (string, int, int, int) -> nat)

  datatype Cache = Cache(sessions: map<string, Session>, activeAttempts: int)

  const EMPTY_CACHE := Cache(map[], 0)

  function SessionOf(c: Cache, sid: string): Session {
    if sid in c.sessions then c.sessions[sid] else FRESH_SESSION
  }

  /** `stateBaseline`. */
  function BaselineOf(s: Session): PublicBaseline {
    PublicBaseline(s.publicRevision,
      match s.active
      case None => None
      case Some(a) => Some(PublicAttempt(a.attemptId, a.startedAfterSeq, a.turn, a.step, a.nextIndex, a.chunks)))
  }

  function ChunkBytes(config: Config, chunks: seq<Timed>): int {
    if chunks == [] then 0 else ChunkBytes(config, chunks[..|chunks| - 1]) + config.timedBytes(chunks[|chunks| - 1])
  }

  /** `measuredAttemptBytes`. */
  function Measured(config: Config, a: Attempt): int {
    config.fixedBytes(a.attemptId, a.startedAfterSeq, a.turn, a.step) + ChunkBytes(config, a.chunks)
  }

  /** `#retire`: a set in insertion order that forgets its oldest members. */
  function Retire(retired: seq<string>, id: string): seq<string> {
    var added := if id in retired then retired else retired + [id];
    if |added| > MAX_RETIRED then added[|added| - MAX_RETIRED..] else added
  }

  predicate Sanitary(f: RawFrame) {
    match f
    case RawStart(_, revision, turn, step) => SafeInt(revision, 0) && SafeInt(turn, 0) && SafeInt(step, 0)
    case RawChunk(_, revision, index, timed) => SafeInt(revision, 0) && SafeInt(index, 0) && SafeInt(timed.time, 0)
    case RawEnd(_, revision, index, _) => SafeInt(revision, 0) && SafeInt(index, 0)
    case Unsanitary => false
  }

  /** The source restarted: a `start` with revision 1 after the session has seen frames. */
  predicate Restarting(s: Session, f: RawFrame) {
    f.RawStart? && f.revision == 1 && s.lastRaw > 0
  }

  /** Frames that are dropped without effect before their revision is looked at. */
  predicate Dropped(s: Session, f: RawFrame)
    requires !f.Unsanitary?
  {
    || (!f.RawStart? && s.active.Some? && f.attemptId != s.active.value.attemptId)
    || (Restarting(s, f) && ((s.active.Some? && s.active.value.attemptId == f.attemptId) || f.attemptId in s.retired))
    || (f.revision <= s.lastRaw && !Restarting(s, f))
  }

  function NextOffset(s: Session, f: RawFrame): int {
    if Restarting(s, f) then s.publicRevision else s.offset
  }

  /** The session-level part of `ingest`; `mayStart` says whether the attempt limit leaves room for one more. */
  function IngestSession(config: Config, s: Session, f: RawFrame, durableCursor: int,
      mayStart: bool): (Session, Ingested)
    requires Sanitary(f)
  {
    var expected := if Restarting(s, f) then 1 else s.lastRaw + 1;
    var revision := NextOffset(s, f) + f.revision;
    if Dropped(s, f) then (s, Ignored)
    else if f.revision != expected then (s, Failed(RevisionGap(expected, f.revision)))
    else if !SafeInt(revision, 0) then (s, Failed(InvalidInput))
    else match f
      case RawStart(id, _, turn, step) =>
        var fixed := config.fixedBytes(id, durableCursor, turn, step);
        if s.active.None? && !mayStart then (s, Failed(ActiveAttemptLimit))
        else if fixed > config.maxBytesPerSession then (s, Failed(BaselineNeeded(fixed, config.maxBytesPerSession)))
        else
          (Session(NextOffset(s, f), f.revision, revision, Some(Attempt(id, durableCursor, turn, step, 0, [], fixed)),
                   if s.active.Some? then Retire(s.retired, s.active.value.attemptId)
                     else s.retired, s.starts + 1, s.ends),
           Emitted(Start(id, revision, durableCursor, turn, step)))
      case RawChunk(id, _, index, timed) =>
        if s.active.None? then (s, Ignored)
        else
          var a := s.active.value;
          var bytes := a.bytes + config.timedBytes(timed);
          if index != a.nextIndex then (s, Failed(IndexGap(a.nextIndex, index)))
          else if bytes > config.maxBytesPerSession then (s, Failed(BaselineNeeded(bytes, config.maxBytesPerSession)))
          else
            (s.(lastRaw := f.revision, publicRevision := revision,
                active := Some(a.(chunks := a.chunks + [timed], nextIndex := a.nextIndex + 1, bytes := bytes))),
             Emitted(ChunkAt(id, revision, index, timed)))
      case RawEnd(id, _, index, outcome) =>
        if s.active.None? then (s, Ignored)
        else if index != s.active.value.nextIndex then (s, Failed(IndexGap(s.active.value.nextIndex, index)))
        else
          (s.(lastRaw := f.revision, publicRevision := revision, active := None,
              retired := Retire(s.retired, s.active.value.attemptId), ends := s.ends + 1),
           Emitted(End(id, revision, index, outcome)))
  }

  function ActiveOne(s: Session): int {
    if s.active.Some? then 1 else 0
  }

  /** Replace one session and move the attempt count by what it gained. */
  function Put(c: Cache, sid: string, s: Session): Cache {
    Cache(c.sessions[sid := s], c.activeAttempts + ActiveOne(s) - ActiveOne(SessionOf(c, sid)))
  }

  /** Looking a session up creates it, which changes nothing else. */
  lemma PutOverLookup(c: Cache, sid: string, s: Session)
    ensures Put(Cache(c.sessions[sid := SessionOf(c, sid)], c.activeAttempts), sid, s) == Put(c, sid, s)
  {
    assert c.sessions[sid := SessionOf(c, sid)][sid := s] == c.sessions[sid := s];
  }

  function Ingest(config: Config, c: Cache, sid: string, f: RawFrame, durableCursor: int): (Cache, Ingested) {
    if !SafeInt(durableCursor, -1) || !Sanitary(f) then (c, Failed(InvalidInput))
    else
      var (s, r) := IngestSession(config, SessionOf(c, sid), f, durableCursor,
        c.activeAttempts < config.maxActiveAttempts);
      (Put(c, sid, s), r)
  }

  // ---- Compact streams -------------------------------------------------------------------------

  predicate RunSanitary(r: Compact) {
    match r
    case OneChunk(timed) => SafeInt(timed.time, 0)
    case Run(_, time0, index, dt, values) =>
      SafeInt(time0, 0) && SafeInt(index, 0) && values != [] && |dt| == |values| - 1 && forall i :: 0 <= i < |dt| ==>
        SafeInt(dt[i], 0)
  }

  function RunChunk(kind: RunKind, index: int, value: string): Chunk {
    match kind
    case TextRun => TextDelta(index, value)
    case ReasoningRun => ReasoningDelta(index, value)
    case ToolCallRun(id, name) => ToolCallDelta(index, id, name)
  }

  function Sum(dt: seq<int>): int {
    if dt == [] then 0 else Sum(dt[..|dt| - 1]) + dt[|dt| - 1]
  }

  /** The members of a run: value `i` at the run's time plus the gaps before it. */
  function RunMembers(r: Compact): seq<Timed>
    requires r.Run? && RunSanitary(r)
  {
    seq(|r.values|, i requires 0 <= i < |r.values| => Timed(r.time0 + Sum(r.dt[..i]),
      RunChunk(r.kind, r.index, r.values[i])))
  }

  function Members(r: Compact): seq<Timed>
    requires RunSanitary(r)
  {
    if r.OneChunk? then [r.timed] else RunMembers(r)
  }

  function Expand(records: seq<Compact>): seq<Timed>
    requires forall r :: r in records ==> RunSanitary(r)
  {
    if records == [] then [] else Expand(records[..|records| - 1]) + Members(records[|records| - 1])
  }

  predicate TimesSafe(timeds: seq<Timed>) {
    forall i :: 0 <= i < |timeds| ==> timeds[i].time <= MAX_SAFE
  }

  lemma {:induction false} SumGrows(dt: seq<int>, i: nat)
    requires i <= |dt| && forall k :: 0 <= k < |dt| ==> dt[k] >= 0
    ensures 0 <= Sum(dt[..i])
  {
    if i > 0 {
      assert dt[..i][..i - 1] == dt[..i - 1];
      SumGrows(dt, i - 1);
    }
  }

  method ExpandRun(r: Compact) returns (members: Result<seq<Timed>, CacheError>)
    requires r.Run? && RunSanitary(r)
    ensures if TimesSafe(RunMembers(r)) then members == Ok(RunMembers(r)) else members == Err(InvalidInput)
  {
    var time := r.time0;
    var chunks: seq<Timed> := [];
    assert r.dt[..0] == [];
    for i := 0 to |r.values|
      invariant chunks == RunMembers(r)[..i] && TimesSafe(chunks)
      invariant i > 0 ==> time == r.time0 + Sum(r.dt[..i - 1])
      invariant i == 0 ==> time == r.time0
    {
      if i > 0 {
        var nextTime := time + r.dt[i - 1];
        assert r.dt[..i][..i - 1] == r.dt[..i - 1];
        if nextTime > MAX_SAFE {
          assert RunMembers(r)[i].time == nextTime;
          return Err(InvalidInput);
        }
        time := nextTime;
      }
      chunks := chunks + [Timed(time, RunChunk(r.kind, r.index, r.values[i]))];
    }
    assert RunMembers(r)[..|r.values|] == RunMembers(r);
    return Ok(chunks);
  }

  /** `expandCompactStream`: the running time must stay a safe integer. */
  method ExpandCompactStream(records: seq<Compact>) returns (chunks: Result<seq<Timed>, CacheError>)
    requires forall r :: r in records ==> RunSanitary(r)
    ensures if TimesSafe(Expand(records)) then chunks == Ok(Expand(records)) else chunks == Err(InvalidInput)
  {
    var output: seq<Timed> := [];
    for n := 0 to |records|
      invariant output == Expand(records[..n]) && TimesSafe(output)
    {
      assert records[..n + 1][..n] == records[..n];
      assert records[n] in records;
      var record := records[n];
      if record.OneChunk? {
        output := output + [record.timed];
      } else {
        var members := ExpandRun(record);
        if members.Err? {
          var i :| 0 <= i < |RunMembers(record)| && RunMembers(record)[i].time > MAX_SAFE;
          ExpandPrefix(records, n + 1);
          assert Expand(records[..n + 1])[|output| + i] == RunMembers(record)[i];
          return Err(InvalidInput);
        }
        output := output + members.value;
      }
    }
    assert records[..|records|] == records;
    return Ok(output);
  }

  lemma {:induction false} ExpandPrefix(records: seq<Compact>, n: nat)
    requires n <= |records| && forall r :: r in records ==> RunSanitary(r)
    ensures Expand(records[..n]) <= Expand(records)
    decreases |records|
  {
    if n < |records| {
      assert records[..|records| - 1][..n] == records[..n];
      ExpandPrefix(records[..|records| - 1], n);
    } else {
      assert records[..n] == records;
    }
  }

  // ---- Baselines -------------------------------------------------------------------------------

  predicate AttemptSanitary(a: RawAttempt) {
    && SafeInt(a.startedAfterSeq, -1) && SafeInt(a.turn, 0) && SafeInt(a.step, 0) && SafeInt(a.nextIndex, 0)
    && (forall r :: r in a.stream ==> RunSanitary(r))
    && |a.stream| <= a.nextIndex && TimesSafe(Expand(a.stream)) && |Expand(a.stream)| == a.nextIndex
  }

  predicate BaselineSanitary(b: RawBaseline) {
    SafeInt(b.revision, 0) && (b.activeAttempt.Some? ==> AttemptSanitary(b.activeAttempt.value))
  }

  /** Whether an incoming history baseline may be installed over an idle session. */
  predicate CanInstall(s: Session, b: RawBaseline) {
    || s.publicRevision == 0
    || (!(b.activeAttempt.Some? && b.activeAttempt.value.attemptId in s.retired)
        && (b.revision > s.lastRaw || (b.activeAttempt.Some? && b.revision == 1 && s.lastRaw > 0)))
  }

  function Installed(config: Config, a: RawAttempt): Attempt
    requires AttemptSanitary(a)
  {
    var attempt := Attempt(a.attemptId, a.startedAfterSeq, a.turn, a.step, a.nextIndex, Expand(a.stream), 0);
    attempt.(bytes := Measured(config, attempt))
  }

  function InstallSession(config: Config, s: Session, b: RawBaseline,
      mayStart: bool): (Session, Result<PublicBaseline, CacheError>)
    requires BaselineSanitary(b)
  {
    if s.active.Some? || !CanInstall(s, b) then (s, Ok(BaselineOf(s)))
    else
      var restart := b.activeAttempt.Some? && b.revision == 1 && s.lastRaw > 0;
      var offset := if restart then s.publicRevision else s.offset;
      var revision := offset + b.revision;
      if !SafeInt(revision, 0) then (s, Err(InvalidInput))
      else
        var active := if b.activeAttempt.None? then None else Some(Installed(config, b.activeAttempt.value));
        if active.Some? && !mayStart then (s, Err(ActiveAttemptLimit))
        else if active.Some? && active.value.bytes > config.maxBytesPerSession then
          (s, Err(BaselineNeeded(active.value.bytes, config.maxBytesPerSession)))
        else
          var s' := s.(offset := offset, lastRaw := b.revision, publicRevision := revision, active := active);
          (s', Ok(BaselineOf(s')))
  }

  function Install(config: Config, c: Cache, sid: string, b: RawBaseline): (Cache, Result<PublicBaseline, CacheError>) {
    if !BaselineSanitary(b) then (c, Err(InvalidInput))
    else
      var (s, r) := InstallSession(config, SessionOf(c, sid), b, c.activeAttempts < config.maxActiveAttempts);
      (Put(c, sid, s), r)
  }

  function Dispose(c: Cache, sid: string): Cache {
    Cache(c.sessions - {sid}, c.activeAttempts - ActiveOne(SessionOf(c, sid)))
  }

  // ---- The class -------------------------------------------------------------------------------

  class MobileAssistantStream {
    const config: Config
    var sessions: map<string, Session>
    var activeAttempts: int

    ghost function Abstract(): Cache
      reads this
    {
      Cache(sessions, activeAttempts)
    }

    constructor (config: Config)
      ensures Abstract() == EMPTY_CACHE && this.config == config
    {
      this.config := config;
      sessions, activeAttempts := map[], 0;
    }

    method StateOf(sid: string) returns (state: Session)
      modifies this`sessions
      ensures state == SessionOf(old(Abstract()), sid) && sessions == old(sessions)[sid := state]
    {
      if sid !in sessions {
        sessions := sessions[sid := FRESH_SESSION];
      }
      state := sessions[sid];
    }

    method IngestFrame(sid: string, f: RawFrame, durableCursor: int) returns (r: Ingested)
      modifies this`sessions, this`activeAttempts
      ensures (Abstract(), r) == Ingest(config, old(Abstract()), sid, f, durableCursor)
    {
      if !SafeInt(durableCursor, -1) || !Sanitary(f) {
        return Failed(InvalidInput);
      }
      var state := StateOf(sid);
      PutOverLookup(old(Abstract()), sid,
        IngestSession(config, state, f, durableCursor, activeAttempts < config.maxActiveAttempts).0);
      if Dropped(state, f) {
        return Ignored;
      }
      var restarting := Restarting(state, f);
      var nextOffset := if restarting then state.publicRevision else state.offset;
      var expected := if restarting then 1 else state.lastRaw + 1;
      if f.revision != expected {
        return Failed(RevisionGap(expected, f.revision));
      }
      var publicRevision := nextOffset + f.revision;
      if !SafeInt(publicRevision, 0) {
        return Failed(InvalidInput);
      }
      if f.RawStart? {
        r := IngestStart(sid, state, f, durableCursor, nextOffset, publicRevision);
      } else if state.active.None? {
        return Ignored;
      } else if f.RawChunk? {
        r := IngestChunk(sid, state, f, publicRevision);
      } else {
        r := IngestEnd(sid, state, f, publicRevision);
      }
    }

    method IngestStart(sid: string, state: Session, f: RawFrame, durableCursor: int, nextOffset: int,
        publicRevision: int) returns (r: Ingested)
      requires sid in sessions && sessions[sid] == state && Sanitary(f) && f.RawStart? && !Dropped(state, f)
      requires nextOffset == NextOffset(state, f) && publicRevision == nextOffset + f.revision
        && SafeInt(publicRevision, 0)
      requires f.revision == if Restarting(state, f) then 1 else state.lastRaw + 1
      modifies this`sessions, this`activeAttempts
      ensures var (s, result) :=
        IngestSession(config, state, f, durableCursor, old(activeAttempts) < config.maxActiveAttempts);
        Abstract() == Put(old(Abstract()), sid, s) && r == result
    {
      if state.active.None? && activeAttempts >= config.maxActiveAttempts {
        return Failed(ActiveAttemptLimit);
      }
      var bytes := config.fixedBytes(f.attemptId, durableCursor, f.turn, f.step);
      if bytes > config.maxBytesPerSession {
        return Failed(BaselineNeeded(bytes, config.maxBytesPerSession));
      }
      var next := Attempt(f.attemptId, durableCursor, f.turn, f.step, 0, [], bytes);
      var retired := if state.active.Some? then Retire(state.retired, state.active.value.attemptId) else state.retired;
      if state.active.None? {
        activeAttempts := activeAttempts + 1;
      }
      sessions := sessions[sid :=
        Session(nextOffset, f.revision, publicRevision, Some(next), retired, state.starts + 1, state.ends)];
      return Emitted(Start(f.attemptId, publicRevision, durableCursor, f.turn, f.step));
    }

    method IngestChunk(sid: string, state: Session, f: RawFrame, publicRevision: int) returns (r: Ingested)
      requires sid in sessions && sessions[sid] == state && Sanitary(f) && f.RawChunk? && !Dropped(state, f)
        && state.active.Some?
      requires publicRevision == state.offset + f.revision && SafeInt(publicRevision, 0)
        && f.revision == state.lastRaw + 1
      modifies this`sessions
      ensures var (s, result) := IngestSession(config, state, f, 0, true);
        Abstract() == Put(old(Abstract()), sid, s) && r == result
    {
      var active := state.active.value;
      if f.index != active.nextIndex {
        return Failed(IndexGap(active.nextIndex, f.index));
      }
      var bytes := active.bytes + config.timedBytes(f.timed);
      if bytes > config.maxBytesPerSession {
        return Failed(BaselineNeeded(bytes, config.maxBytesPerSession));
      }
      var grown := active.(chunks := active.chunks + [f.timed], nextIndex := active.nextIndex + 1, bytes := bytes);
      sessions := sessions[sid :=
        state.(lastRaw := f.revision, publicRevision := publicRevision, active := Some(grown))];
      return Emitted(ChunkAt(f.attemptId, publicRevision, f.index, f.timed));
    }

    method IngestEnd(sid: string, state: Session, f: RawFrame, publicRevision: int) returns (r: Ingested)
      requires sid in sessions && sessions[sid] == state && Sanitary(f) && f.RawEnd? && !Dropped(state, f)
        && state.active.Some?
      requires publicRevision == state.offset + f.revision && SafeInt(publicRevision, 0)
        && f.revision == state.lastRaw + 1
      modifies this`sessions, this`activeAttempts
      ensures var (s, result) := IngestSession(config, state, f, 0, true);
        Abstract() == Put(old(Abstract()), sid, s) && r == result
    {
      if f.index != state.active.value.nextIndex {
        return Failed(IndexGap(state.active.value.nextIndex, f.index));
      }
      var retired := Retire(state.retired, state.active.value.attemptId);
      activeAttempts := activeAttempts - 1;
      sessions := sessions[sid :=
        state.(lastRaw := f.revision, publicRevision := publicRevision, active := None, retired := retired,
          ends := state.ends + 1)];
      return Emitted(End(f.attemptId, publicRevision, f.index, f.outcome));
    }

    method Baseline(sid: string, b: RawBaseline) returns (r: Result<PublicBaseline, CacheError>)
      modifies this`sessions, this`activeAttempts
      ensures (Abstract(), r) == Install(config, old(Abstract()), sid, b)
    {
      if !BaselineSanitary(b) {
        return Err(InvalidInput);
      }
      var state := StateOf(sid);
      PutOverLookup(old(Abstract()), sid,
        InstallSession(config, state, b, activeAttempts < config.maxActiveAttempts).0);
      if state.active.Some? || !CanInstall(state, b) {
        return Ok(BaselineOf(state));
      }
      var restart := b.activeAttempt.Some? && b.revision == 1 && state.lastRaw > 0;
      var offset := if restart then state.publicRevision else state.offset;
      var revision := offset + b.revision;
      if !SafeInt(revision, 0) {
        return Err(InvalidInput);
      }
      var active: Option<Attempt> := None;
      if b.activeAttempt.Some? {
        if activeAttempts >= config.maxActiveAttempts {
          return Err(ActiveAttemptLimit);
        }
        active := Some(Installed(config, b.activeAttempt.value));
        if active.value.bytes > config.maxBytesPerSession {
          return Err(BaselineNeeded(active.value.bytes, config.maxBytesPerSession));
        }
        activeAttempts := activeAttempts + 1;
      }
      var state' := state.(offset := offset, lastRaw := b.revision, publicRevision := revision, active := active);
      sessions := sessions[sid := state'];
      return Ok(BaselineOf(state'));
    }

    method DisposeSession(sid: string)
      modifies this`sessions, this`activeAttempts
      ensures Abstract() == Dispose(old(Abstract()), sid)
    {
      if sid in sessions && sessions[sid].active.Some? {
        activeAttempts := activeAttempts - 1;
      }
      sessions := sessions - {sid};
    }

    method Reset()
      modifies this`sessions, this`activeAttempts
      ensures Abstract() == EMPTY_CACHE
    {
      sessions, activeAttempts := map[], 0;
    }
  }
}
