/** What the current protocol's validator accepts, said of the trace alone: no encoder state is mentioned. */
module SessionFollowTrace {
  import opened Prelude
  import opened SessionFollow
  import opened SessionFollowSimulation

  /** The frame opens an attempt: a `start`, or a snapshot whose baseline carries one. */
  predicate Opens(f: Frame) {
    || (f.Assistant? && f.frame.Start?)
    || (f.Snapshot? && f.assistant.Some? && f.assistant.value.activeAttempt.Some?)
  }

  /** The attempt as its opening frame describes it. */
  function Opened(f: Frame): Attempt
    requires Opens(f)
  {
    match f
    case Assistant(t) => Attempt(t.attemptId, t.startedAfterSeq, t.at, 0, map[])
    case Snapshot(_, _, assistant) =>
      var a := assistant.value.activeAttempt.value;
      Attempt(a.attemptId, a.startedAfterSeq, a.at, a.nextIndex, map[])
  }

  /** The index of the opening frame of the attempt still open after `p`. */
  function OpenAt(p: seq<Frame>): (r: Option<nat>)
    ensures r.Some? ==> r.value < |p| && Opens(p[r.value])
  {
    if p == [] then None
    else
      var last := p[|p| - 1];
      if Opens(last) then Some(|p| - 1)
      else if last.Snapshot? || (last.Assistant? && last.frame.End?) then None
      else OpenAt(p[..|p| - 1])
  }

  function Transients(p: seq<Frame>): nat {
    if p == [] then 0 else Transients(p[..|p| - 1]) + if p[|p| - 1].Assistant? then 1 else 0
  }

  function Durables(p: seq<Frame>): nat {
    if p == [] then 0 else Durables(p[..|p| - 1]) + if p[|p| - 1].Durable? then 1 else 0
  }

  function Chunks(p: seq<Frame>): nat {
    if p == [] then 0 else Chunks(p[..|p| - 1]) + if p[|p| - 1].Assistant? && p[|p| - 1].frame.ChunkAt? then 1 else 0
  }

  /** Frame `m` of `p` durably settles the attempt opened by frame `j`. */
  predicate SettledBy(p: seq<Frame>, j: nat, m: nat)
    requires j < |p| && Opens(p[j])
  {
    && j < m < |p| && p[m].Durable? && p[m].event.seqNo > Opened(p[j]).startedAfterSeq
    && var e, at := p[m].event, Opened(p[j]).at;
       && (e.kind.AssistantAttempt? || (e.kind.AssistantMessage? && e.surfaceAppend))
       && e.data.Some? && e.data.value.turn == Some(at.turn) && e.data.value.step == Some(at.step)
       && 0 <= at.turn <= MAX_SAFE && 0 <= at.step <= MAX_SAFE
  }

  ghost predicate OutcomeInPlace(p: seq<Frame>, j: nat, outcome: Outcome)
    requires j < |p| && Opens(p[j])
  {
    match outcome
    case Abandoned => forall m {:trigger SettledBy(p, j, m)} :: j < m < |p| ==> !SettledBy(p, j, m)
    case Committed(kind, seqNo) => exists m ::
      j < m < |p| && SettledBy(p, j, m) && p[m].event == p[m].event.(kind := kind, seqNo := seqNo)
    case UnknownOutcome => false
  }

  /** The next expected chunk index of the attempt opened by frame `j`. */
  function NextIndex(p: seq<Frame>, j: nat): int
    requires j < |p| && Opens(p[j])
  {
    Opened(p[j]).nextIndex + Chunks(p[j + 1..])
  }

  ghost predicate TransientInPlace(maxChunks: int, p: seq<Frame>, t: Transient) {
    var open := OpenAt(p);
    match t
    case Start(_, _, startedAfterSeq, at) =>
      open.None? && SafeInt(startedAfterSeq, -1) && SafeInt(at.turn, 0) && SafeInt(at.step, 0)
    case ChunkAt(id, _, index, timed) =>
      open.Some? && Opened(p[open.value]).attemptId == id && index == NextIndex(p, open.value) < maxChunks
        && SafeInt(timed.time, 0)
    case End(id, _, index, outcome) =>
      open.Some? && Opened(p[open.value]).attemptId == id && index == NextIndex(p, open.value)
        && OutcomeInPlace(p, open.value, outcome)
    case UnknownTransient => false
  }

  /** A snapshot's baseline: a revision, and an attempt of bounded name, place and length, if one is open. */
  predicate BaselineInPlace(maxChunks: int, b: Baseline) {
    && 0 <= b.revision <= MAX_SAFE
    && (b.activeAttempt.Some? ==>
          var a := b.activeAttempt.value;
          && 0 < |a.attemptId| <= 256 && '\0' !in a.attemptId && -1 <= a.startedAfterSeq <= MAX_SAFE
          && 0 <= a.at.turn <= MAX_SAFE && 0 <= a.at.step <= MAX_SAFE
          && |a.stream| <= a.nextIndex <= maxChunks && a.nextIndex <= MAX_SAFE)
  }

  /** Frame `f` may follow the trace `p`. Revisions and durable seqs count up by one from the snapshot; chunks and
      ends belong to the one open attempt and carry its running index; a committed end names a durable settlement
      of that attempt inside its bracket, and an abandoned end leaves none behind. */
  ghost predicate InPlace(maxChunks: int, p: seq<Frame>, f: Frame) {
    if p == [] then f.Snapshot? && SafeInt(f.cursor, -1) && f.assistant.Some?
      && BaselineInPlace(maxChunks, f.assistant.value)
    else
      && p[0].Snapshot? && p[0].assistant.Some?
      && match f
         case Durable(e) => SafeInt(e.seqNo, 0) && e.seqNo == p[0].cursor + Durables(p) + 1
         case Assistant(t) =>
           && !t.UnknownTransient?
           && 0 < |t.attemptId| <= 256 && '\0' !in t.attemptId && 1 <= t.revision <= MAX_SAFE
           && t.revision == p[0].assistant.value.revision + Transients(p) + 1
           && TransientInPlace(maxChunks, p, t)
         case _ => false
  }

  /** The encoder's state after an accepted trace, described by the trace. */
  ghost predicate Describes(p: seq<Frame>, s: State) {
    if p == [] then s == FRESH
    else
      && p[0].Snapshot? && p[0].assistant.Some?
      && s.begun
      && s.revision == p[0].assistant.value.revision + Transients(p)
      && s.cursor == p[0].cursor + Durables(p)
      && (forall m :: 0 <= m < |p| && p[m].Durable? ==> SafeInt(p[m].event.seqNo, 0) && p[m].event.seqNo <= s.cursor)
      && match OpenAt(p)
         case None => s.active.None?
         case Some(j) => s.active.Some? && DescribesAttempt(p, j, s.active.value)
  }

  ghost predicate DescribesAttempt(p: seq<Frame>, j: nat, a: Attempt)
    requires j < |p| && Opens(p[j])
  {
    && a.(nextIndex := 0, pending := map[]) == Opened(p[j]).(nextIndex := 0)
    && a.nextIndex == NextIndex(p, j)
    && (forall q :: q in a.pending ==>
       exists m :: j < m < |p| && SettledBy(p, j, m) && p[m].event.seqNo == q && p[m].event.kind == a.pending[q])
    && (forall m {:trigger SettledBy(p, j, m)} :: j < m < |p| && SettledBy(p, j, m) ==>
       p[m].event.seqNo in a.pending && a.pending[p[m].event.seqNo] == p[m].event.kind)
  }

  /** A durable event leaves the attempt alone, or is a settlement that becomes pending. */
  lemma AttemptAfterDurable(p: seq<Frame>, j: nat, a: Attempt, event: Event, a': Attempt)
    requires j < |p| && Opens(p[j]) && DescribesAttempt(p, j, a)
    requires forall m :: j < m < |p| && SettledBy(p, j, m) ==> p[m].event.seqNo < event.seqNo
    requires var p' := p + [Durable(event)];
      a' == if SettledBy(p', j, |p|) then a.(pending := a.pending[event.seqNo := event.kind]) else a
    ensures DescribesAttempt(p + [Durable(event)], j, a')
  {
    var f := Durable(event);
    var p' := p + [f];
    assert p'[j + 1..] == p[j + 1..] + [f];
    assert p'[j + 1..][..|p'[j + 1..]| - 1] == p[j + 1..];
    assert forall m :: j < m < |p| ==> SettledBy(p', j, m) == SettledBy(p, j, m);
    hide SettledBy;
    forall q | q in a'.pending
      ensures exists m ::
        j < m < |p'| && SettledBy(p', j, m) && p'[m].event.seqNo == q && p'[m].event.kind == a'.pending[q]
    {
      if q in a.pending && (a' == a || q != event.seqNo) {
        var m :| j < m < |p| && SettledBy(p, j, m) && p[m].event.seqNo == q && p[m].event.kind == a.pending[q];
        assert SettledBy(p', j, m);
      } else {
        assert SettledBy(p', j, |p|);
      }
    }
  }

  lemma DescribesDurable(maxChunks: int, p: seq<Frame>, s: State, event: Event)
    requires p != [] && Describes(p, s) && InPlace(maxChunks, p, Durable(event))
    ensures Describes(p + [Durable(event)], PushDurable(CurrentTarget, s, event).state)
  {
    var p' := p + [Durable(event)];
    assert p'[..|p|] == p;
    var open := OpenAt(p);
    assert OpenAt(p') == open;
    if open.Some? {
      var a' := PushDurable(CurrentTarget, s, event).state.active.value;
      AttemptAfterDurable(p, open.value, s.active.value, event, a');
      hide DescribesAttempt;
    }
  }

  lemma DescribesStart(maxChunks: int, p: seq<Frame>, s: State, t: Transient)
    requires p != [] && Describes(p, s) && t.Start?
    ensures var step := PushTransient(CurrentTarget, maxChunks, s, t);
      && (step.out.Ok? <==> InPlace(maxChunks, p, Assistant(t)))
      && (step.out.Ok? ==> Describes(p + [Assistant(t)], step.state))
  {
    var p' := p + [Assistant(t)];
    assert p'[..|p|] == p;
    assert p'[|p| + 1..] == [];
    assert OpenAt(p') == Some(|p|);
  }

  lemma DescribesChunk(maxChunks: int, p: seq<Frame>, s: State, t: Transient)
    requires p != [] && Describes(p, s) && t.ChunkAt?
    ensures var step := PushTransient(CurrentTarget, maxChunks, s, t);
      && (step.out.Ok? <==> InPlace(maxChunks, p, Assistant(t)))
      && (step.out.Ok? ==> Describes(p + [Assistant(t)], step.state))
  {
    var p' := p + [Assistant(t)];
    assert p'[..|p|] == p;
    var open := OpenAt(p);
    assert OpenAt(p') == open;
    if open.Some? {
      var j := open.value;
      assert p'[j + 1..] == p[j + 1..] + [Assistant(t)];
      assert p'[j + 1..][..|p'[j + 1..]| - 1] == p[j + 1..];
      var a := s.active.value;
      forall q | q in a.pending
        ensures exists m ::
          j < m < |p'| && SettledBy(p', j, m) && p'[m].event.seqNo == q && p'[m].event.kind == a.pending[q]
      {
        var m :| j < m < |p| && SettledBy(p, j, m) && p[m].event.seqNo == q && p[m].event.kind == a.pending[q];
        assert SettledBy(p', j, m);
      }
      forall m | j < m < |p'| && SettledBy(p', j, m)
        ensures p'[m].event.seqNo in a.pending && a.pending[p'[m].event.seqNo] == p'[m].event.kind
      {
        assert SettledBy(p, j, m);
      }
    }
  }

  lemma NonEmptyMap(m: map<int, Kind>)
    ensures m == map[] || exists q :: q in m
  {
    if forall q :: q !in m {
      assert m == map[];
    }
  }

  lemma PendingMeansSettled(p: seq<Frame>, j: nat, a: Attempt, outcome: Outcome)
    requires j < |p| && Opens(p[j]) && DescribesAttempt(p, j, a)
    ensures outcome.Abandoned? ==> (OutcomeInPlace(p, j, outcome) <==> a.pending == map[])
    ensures outcome.Committed? ==>
      (OutcomeInPlace(p, j, outcome) <==> outcome.seqNo in a.pending && a.pending[outcome.seqNo] == outcome.kind)
  {
    if outcome.Abandoned? && a.pending != map[] {
      NonEmptyMap(a.pending);
      var q :| q in a.pending;
      var m :| j < m < |p| && SettledBy(p, j, m) && p[m].event.seqNo == q && p[m].event.kind == a.pending[q];
    }
    if outcome.Committed? && outcome.seqNo in a.pending && a.pending[outcome.seqNo] == outcome.kind {
      var m :| j < m < |p| && SettledBy(p, j, m) && p[m].event.seqNo == outcome.seqNo
        && p[m].event.kind == outcome.kind;
      assert p[m].event == p[m].event.(kind := outcome.kind, seqNo := outcome.seqNo);
    }
  }

  lemma DescribesEnd(maxChunks: int, p: seq<Frame>, s: State, t: Transient)
    requires p != [] && Describes(p, s) && t.End?
    ensures var step := PushTransient(CurrentTarget, maxChunks, s, t);
      && (step.out.Ok? <==> InPlace(maxChunks, p, Assistant(t)))
      && (step.out.Ok? ==> Describes(p + [Assistant(t)], step.state))
  {
    var p' := p + [Assistant(t)];
    assert p'[..|p|] == p;
    assert OpenAt(p') == None;
    var open := OpenAt(p);
    if open.Some? {
      PendingMeansSettled(p, open.value, s.active.value, t.outcome);
    }
  }

  lemma DescribesSnapshot(maxChunks: int, f: Frame)
    ensures var step := PushCurrent(CurrentTarget, maxChunks, FRESH, f);
      && (step.out.Ok? <==> InPlace(maxChunks, [], f))
      && (step.out.Ok? ==> Describes([f], step.state))
  {
    assert [f][..0] == [];
    assert [f][1..] == [];
  }

  lemma DescribesStep(maxChunks: int, p: seq<Frame>, s: State, f: Frame)
    requires Describes(p, s)
    ensures var step := PushCurrent(CurrentTarget, maxChunks, s, f);
      && (step.out.Ok? <==> InPlace(maxChunks, p, f))
      && (step.out.Ok? ==> Describes(p + [f], step.state))
  {
    if p == [] {
      DescribesSnapshot(maxChunks, f);
      assert p + [f] == [f];
    } else if f.Assistant? {
      match f.frame
      case Start(_, _, _, _) => DescribesStart(maxChunks, p, s, f.frame);
      case ChunkAt(_, _, _, _) => DescribesChunk(maxChunks, p, s, f.frame);
      case End(_, _, _, _) => DescribesEnd(maxChunks, p, s, f.frame);
      case UnknownTransient =>
    } else if f.Durable? && InPlace(maxChunks, p, f) {
      DescribesDurable(maxChunks, p, s, f.event);
    }
  }

  /** Every frame of the trace may follow the frames before it. */
  ghost predicate WellBracketed(maxChunks: int, t: seq<Frame>) {
    forall i :: 0 <= i < |t| ==> InPlace(maxChunks, t[..i], t[i])
  }

  lemma WellBracketedLast(maxChunks: int, p: seq<Frame>, f: Frame)
    ensures WellBracketed(maxChunks, p + [f]) <==> WellBracketed(maxChunks, p) && InPlace(maxChunks, p, f)
  {
    var t := p + [f];
    assert t[..|p|] == p && t[|p|] == f;
    assert forall i :: 0 <= i < |p| ==> t[..i] == p[..i] && t[i] == p[i];
    if WellBracketed(maxChunks, t) {
      assert InPlace(maxChunks, t[..|p|], t[|p|]);
      forall i | 0 <= i < |p| ensures InPlace(maxChunks, p[..i], p[i]) {
        assert InPlace(maxChunks, t[..i], t[i]);
      }
    }
  }

  lemma {:induction false} AcceptedPrefix(maxChunks: int, t: seq<Frame>)
    ensures var run := CurrentRun(CurrentTarget, maxChunks, FRESH, t);
      && (run.error.None? <==> WellBracketed(maxChunks, t))
      && (run.error.None? ==> Describes(t, run.state))
    decreases |t|
  {
    if t != [] {
      var n := |t| - 1;
      var p, f := t[..n], t[n];
      assert t == p + [f];
      AcceptedPrefix(maxChunks, p);
      WellBracketedLast(maxChunks, p, f);
      CurrentRunAppend(CurrentTarget, maxChunks, FRESH, p, [f]);
      var run := CurrentRun(CurrentTarget, maxChunks, FRESH, p);
      assert [f][1..] == [];
      if run.error.None? {
        DescribesStep(maxChunks, p, run.state, f);
      }
    }
  }

  /** TRACES. The validator accepts exactly the well-bracketed traces. */
  lemma AcceptedIffWellBracketed(maxChunks: int, t: seq<Frame>)
    ensures CurrentRun(CurrentTarget, maxChunks, FRESH, t).error.None? <==> WellBracketed(maxChunks, t)
  {
    AcceptedPrefix(maxChunks, t);
  }

  /** So is every trace the legacy side emits, while its revisions are safe integers. */
  lemma LegacyOutputIsWellBracketed(maxChunks: int, input: seq<Frame>)
    requires ValidBound(maxChunks)
    ensures var legacy := LegacyRun(CurrentTarget, maxChunks, FRESH, input);
      legacy.state.revision <= MAX_SAFE <==> WellBracketed(maxChunks, legacy.out)
  {
    LegacyOutputIsAccepted(maxChunks, input);
    AcceptedIffWellBracketed(maxChunks, LegacyRun(CurrentTarget, maxChunks, FRESH, input).out);
  }
}
