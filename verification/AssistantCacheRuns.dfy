/** What every sequence of calls to the attempt cache keeps: a strict client that folds the returned frames always
    holds the cache's baseline, and the byte, index and attempt counts are exact. */
module AssistantCacheRuns {
  import opened Prelude
  import opened AssistantCache

  // ---- The invariant ---------------------------------------------------------------------------

  ghost predicate AttemptOk(config: Config, a: Attempt) {
    a.bytes == Measured(config, a) <= config.maxBytesPerSession && a.nextIndex == |a.chunks|
  }

  /** The public revision is the last raw revision seen through the session's offset. */
  ghost predicate SessionOk(config: Config, s: Session) {
    && 0 <= s.offset && 0 <= s.lastRaw
    && s.publicRevision == s.offset + s.lastRaw <= MAX_SAFE
    && Distinct(s.retired) && |s.retired| <= MAX_RETIRED
    && (s.active.Some? ==> AttemptOk(config, s.active.value))
  }

  ghost function ActiveSessions(sessions: map<string, Session>): set<string> {
    set sid | sid in sessions && sessions[sid].active.Some?
  }

  ghost predicate CacheOk(config: Config, c: Cache) {
    && (forall sid :: sid in c.sessions ==> SessionOk(config, c.sessions[sid]))
    && c.activeAttempts == |ActiveSessions(c.sessions)| <= config.maxActiveAttempts
  }

  predicate ValidConfig(config: Config) {
    config.maxBytesPerSession >= 1 && config.maxActiveAttempts >= 1
  }

  lemma PutOk(config: Config, c: Cache, sid: string, s: Session)
    requires CacheOk(config, c) && SessionOk(config, s)
    requires s.active.Some? && SessionOf(c, sid).active.None? ==> c.activeAttempts < config.maxActiveAttempts
    ensures CacheOk(config, Put(c, sid, s))
    ensures forall other :: other != sid ==> SessionOf(Put(c, sid, s), other) == SessionOf(c, other)
    ensures SessionOf(Put(c, sid, s), sid) == s
  {
    var before, after := ActiveSessions(c.sessions), ActiveSessions(c.sessions[sid := s]);
    assert sid in before <==> SessionOf(c, sid).active.Some?;
    if s.active.Some? {
      assert after == before + {sid};
      assert sid in before ==> after == before;
    } else {
      assert after == before - {sid};
    }
  }

  lemma RetireOk(retired: seq<string>, id: string)
    requires Distinct(retired) && |retired| <= MAX_RETIRED
    ensures Distinct(Retire(retired, id)) && |Retire(retired, id)| <= MAX_RETIRED && id in Retire(retired, id)
  {
    var r := Retire(retired, id);
    if id !in retired {
      assert r[|r| - 1] == id;
    }
  }

  // ---- A strict client -------------------------------------------------------------------------

  /** A client that accepts a frame only if it continues its baseline: the next revision, and for a chunk or an end
      the open attempt and its next index. */
  function StrictApply(b: PublicBaseline, f: PublicFrame): Option<PublicBaseline> {
    if f.revision != b.revision + 1 then None
    else match f
      case Start(id, revision, startedAfterSeq, turn, step) =>
        Some(PublicBaseline(revision, Some(PublicAttempt(id, startedAfterSeq, turn, step, 0, []))))
      case ChunkAt(id, revision, index, timed) =>
        if b.activeAttempt.None? || b.activeAttempt.value.attemptId != id
          || b.activeAttempt.value.nextIndex != index then None
        else
          var a := b.activeAttempt.value;
          Some(PublicBaseline(revision, Some(a.(nextIndex := a.nextIndex + 1, stream := a.stream + [timed]))))
      case End(id, revision, index, _) =>
        if b.activeAttempt.None? || b.activeAttempt.value.attemptId != id
          || b.activeAttempt.value.nextIndex != index then None
        else Some(PublicBaseline(revision, None))
  }

  lemma IngestSessionAgrees(config: Config, s: Session, f: RawFrame, durableCursor: int, mayStart: bool)
    requires SessionOk(config, s) && Sanitary(f) && SafeInt(durableCursor, -1)
    ensures var (s', r) := IngestSession(config, s, f, durableCursor, mayStart);
      && SessionOk(config, s')
      && (s'.active.Some? && s.active.None? ==> mayStart)
      && (if r.Emitted? then StrictApply(BaselineOf(s), r.frame) == Some(BaselineOf(s')) else s' == s)
  {
    var (s', r) := IngestSession(config, s, f, durableCursor, mayStart);
    if r.Emitted? {
      if s.active.Some? { RetireOk(s.retired, s.active.value.attemptId); }
      if f.RawChunk? {
        var a, a' := s.active.value, s'.active.value;
        assert a'.chunks[..|a'.chunks| - 1] == a.chunks;
      }
    }
  }

  /** INGEST. An emitted frame takes the previous baseline exactly to the next; a call that emits nothing, by ignoring
      the frame or by throwing, leaves the session and the attempt count as they were. Other sessions never move. */
  lemma IngestAgrees(config: Config, c: Cache, sid: string, f: RawFrame, durableCursor: int)
    requires ValidConfig(config) && CacheOk(config, c)
    ensures var (c', r) := Ingest(config, c, sid, f, durableCursor);
      && CacheOk(config, c')
      && (if r.Emitted? then StrictApply(BaselineOf(SessionOf(c, sid)), r.frame) == Some(BaselineOf(SessionOf(c', sid)))
          else SessionOf(c', sid) == SessionOf(c, sid) && c'.activeAttempts == c.activeAttempts)
      && forall other :: other != sid ==> SessionOf(c', other) == SessionOf(c, other)
  {
    if SafeInt(durableCursor, -1) && Sanitary(f) {
      var mayStart := c.activeAttempts < config.maxActiveAttempts;
      IngestSessionAgrees(config, SessionOf(c, sid), f, durableCursor, mayStart);
      PutOk(config, c, sid, IngestSession(config, SessionOf(c, sid), f, durableCursor, mayStart).0);
    }
  }

  /** BASELINE. The answer is the session's baseline afterwards, its revision is never lower than before, a live attempt
      is never replaced, and a throwing call changes nothing. */
  lemma InstallAgrees(config: Config, c: Cache, sid: string, b: RawBaseline)
    requires ValidConfig(config) && CacheOk(config, c)
    ensures var (c', r) := Install(config, c, sid, b);
      && CacheOk(config, c')
      && SessionOf(c', sid).publicRevision >= SessionOf(c, sid).publicRevision
      && (if r.Ok? then r.value == BaselineOf(SessionOf(c', sid))
          else SessionOf(c', sid) == SessionOf(c, sid) && c'.activeAttempts == c.activeAttempts)
      && (SessionOf(c, sid).active.Some? ==> SessionOf(c', sid) == SessionOf(c, sid))
      && forall other :: other != sid ==> SessionOf(c', other) == SessionOf(c, other)
  {
    if BaselineSanitary(b) {
      var (s', r) := InstallSession(config, SessionOf(c, sid), b, c.activeAttempts < config.maxActiveAttempts);
      PutOk(config, c, sid, s');
    }
  }

  lemma DisposeAgrees(config: Config, c: Cache, sid: string)
    requires CacheOk(config, c)
    ensures CacheOk(config, Dispose(c, sid)) && SessionOf(Dispose(c, sid), sid) == FRESH_SESSION
    ensures forall other :: other != sid ==> SessionOf(Dispose(c, sid), other) == SessionOf(c, other)
  {
    assert ActiveSessions(c.sessions - {sid}) == ActiveSessions(c.sessions) - {sid};
  }

  // ---- Runs ------------------------------------------------------------------------------------

  datatype Op =
    | DoIngest(sid: string, frame: RawFrame, durableCursor: int)
    | DoBaseline(sid: string, raw: RawBaseline)
    | DoDispose(sid: string)
    | DoReset

  function Next(config: Config, c: Cache, op: Op): Cache {
    match op
    case DoIngest(sid, f, cursor) => Ingest(config, c, sid, f, cursor).0
    case DoBaseline(sid, raw) => Install(config, c, sid, raw).0
    case DoDispose(sid) => Dispose(c, sid)
    case DoReset => EMPTY_CACHE
  }

  /** The frame an operation returns for session `sid`, if any. */
  function FrameFor(config: Config, c: Cache, op: Op, sid: string): Option<PublicFrame> {
    if op.DoIngest? && op.sid == sid then
      match Ingest(config, c, sid, op.frame, op.durableCursor).1
      case Emitted(f) => Some(f)
      case _ => None
    else None
  }

  /** A strict client of one session: it folds frames, takes baseline answers, and starts over when the session does. */
  function ClientNext(config: Config, c: Cache, op: Op, sid: string,
      client: Option<PublicBaseline>): Option<PublicBaseline> {
    if client.None? then None
    else match op
      case DoIngest(_, _, _) =>
        var f := FrameFor(config, c, op, sid);
        if f.None? then client else StrictApply(client.value, f.value)
      case DoBaseline(id, raw) =>
        if id != sid then client
        else (match Install(config, c, sid, raw).1 case Ok(b) => Some(b) case Err(_) => client)
      case DoDispose(id) => if id == sid then Some(BaselineOf(FRESH_SESSION)) else client
      case DoReset => Some(BaselineOf(FRESH_SESSION))
  }

  function Run(config: Config, c: Cache, ops: seq<Op>): Cache {
    if ops == [] then c
    else Next(config, Run(config, c, ops[..|ops| - 1]), ops[|ops| - 1])
  }

  function ClientRun(config: Config, c: Cache, ops: seq<Op>, sid: string,
      client: Option<PublicBaseline>): Option<PublicBaseline> {
    if ops == [] then client
    else
      var n := |ops| - 1;
      ClientNext(config, Run(config, c, ops[..n]), ops[n], sid, ClientRun(config, c, ops[..n], sid, client))
  }

  lemma NextAgrees(config: Config, c: Cache, op: Op, sid: string)
    requires ValidConfig(config) && CacheOk(config, c)
    ensures CacheOk(config, Next(config, c, op))
    ensures ClientNext(config, c, op, sid, Some(BaselineOf(SessionOf(c, sid))))
      == Some(BaselineOf(SessionOf(Next(config, c, op), sid)))
  {
    match op
    case DoIngest(id, f, cursor) => IngestAgrees(config, c, id, f, cursor);
    case DoBaseline(id, raw) => InstallAgrees(config, c, id, raw);
    case DoDispose(id) => DisposeAgrees(config, c, id);
    case DoReset =>
      assert ActiveSessions(map[]) == {};
  }

  /** AGREEMENT. For every sequence of calls on every session, a strict client never meets a frame it must reject, and
      what it holds is the cache's own baseline. */
  lemma {:induction false} ClientHoldsBaseline(config: Config, c: Cache, ops: seq<Op>, sid: string)
    requires ValidConfig(config) && CacheOk(config, c)
    ensures CacheOk(config, Run(config, c, ops))
    ensures ClientRun(config, c, ops, sid, Some(BaselineOf(SessionOf(c, sid))))
      == Some(BaselineOf(SessionOf(Run(config, c, ops), sid)))
  {
    if ops != [] {
      var n := |ops| - 1;
      ClientHoldsBaseline(config, c, ops[..n], sid);
      NextAgrees(config, Run(config, c, ops[..n]), ops[n], sid);
    }
  }

  /** LIMITS. In every reachable state the attempt count is the number of sessions with a live attempt and within its
      limit, and each live attempt's bytes and index are those of its chunks and within theirs. */
  lemma ReachableCachesAreExact(config: Config, ops: seq<Op>)
    requires ValidConfig(config)
    ensures CacheOk(config, Run(config, EMPTY_CACHE, ops))
  {
    assert ActiveSessions(map[]) == {};
    ClientHoldsBaseline(config, EMPTY_CACHE, ops, "");
  }

  function Frames(config: Config, c: Cache, ops: seq<Op>, sid: string): seq<PublicFrame> {
    if ops == [] then []
    else
      var n := |ops| - 1;
      Frames(config, c, ops[..n], sid)
      + match FrameFor(config, Run(config, c, ops[..n]), ops[n], sid) case Some(f) => [f] case None => []
  }

  /** No operation starts the session over. */
  predicate Keeps(ops: seq<Op>, sid: string) {
    forall k :: 0 <= k < |ops| ==> ops[k] != DoDispose(sid) && ops[k] != DoReset
  }

  predicate NoBaselines(ops: seq<Op>, sid: string) {
    forall k :: 0 <= k < |ops| ==> !(ops[k].DoBaseline? && ops[k].sid == sid)
  }

  lemma NextRevision(config: Config, c: Cache, op: Op, sid: string)
    requires ValidConfig(config) && CacheOk(config, c) && op != DoDispose(sid) && op != DoReset
    ensures var before, after := SessionOf(c, sid).publicRevision, SessionOf(Next(config, c, op), sid).publicRevision;
      match FrameFor(config, c, op, sid)
      case Some(f) => f.revision == after == before + 1
      case None => if op.DoBaseline? && op.sid == sid then after >= before else after == before
  {
    match op
    case DoIngest(id, f, cursor) => IngestAgrees(config, c, id, f, cursor);
    case DoBaseline(id, raw) => InstallAgrees(config, c, id, raw);
    case DoDispose(id) => DisposeAgrees(config, c, id);
    case DoReset =>
  }

  /** REVISIONS. Until the session is disposed its public revision never falls; and between baselines the emitted
      frames count up by exactly one, whatever the raw revisions did, source restarts included. */
  lemma {:induction false} RevisionsCountUp(config: Config, c: Cache, ops: seq<Op>, sid: string)
    requires ValidConfig(config) && CacheOk(config, c) && Keeps(ops, sid)
    ensures var r0 := SessionOf(c, sid).publicRevision;
      var r1 := SessionOf(Run(config, c, ops), sid).publicRevision;
      var frames := Frames(config, c, ops, sid);
      && r0 <= r1
      && (NoBaselines(ops, sid) ==> r1 == r0 + |frames| && forall i :: 0 <= i < |frames| ==>
         frames[i].revision == r0 + i + 1)
  {
    if ops != [] {
      var n := |ops| - 1;
      assert Keeps(ops[..n], sid) && (NoBaselines(ops, sid) ==> NoBaselines(ops[..n], sid));
      RevisionsCountUp(config, c, ops[..n], sid);
      ClientHoldsBaseline(config, c, ops[..n], sid);
      NextRevision(config, Run(config, c, ops[..n]), ops[n], sid);
    }
  }

  // ---- Compact streams -------------------------------------------------------------------------

  function MemberCount(records: seq<Compact>): nat {
    if records == [] then 0
    else MemberCount(records[..|records| - 1]) + match records[|records| - 1] case OneChunk(_) => 1
      case Run(_, _, _, _, values) => |values|
  }

  /** A packed run expands to one chunk per value, and consecutive members lie its gaps apart. */
  lemma {:induction false} ExpansionShape(records: seq<Compact>)
    requires forall r :: r in records ==> RunSanitary(r)
    ensures |Expand(records)| == MemberCount(records)
    ensures |records| <= |Expand(records)|
  {
    if records != [] {
      var n := |records| - 1;
      assert records[n] in records;
      ExpansionShape(records[..n]);
    }
  }

  lemma RunMembersGaps(r: Compact, i: nat)
    requires r.Run? && RunSanitary(r) && i < |r.dt|
    ensures RunMembers(r)[0].time == r.time0
    ensures RunMembers(r)[i + 1].time - RunMembers(r)[i].time == r.dt[i] >= 0
  {
    assert r.dt[..0] == [];
    assert r.dt[..i + 1][..i] == r.dt[..i];
  }
}
