/** Whole connections: what the legacy side emits, the current side accepts unchanged. Production
    chains the two encoders, so this is the theorem that keeps the chain from ever failing. */
module SessionFollowSimulation {
  import opened Prelude
  import opened SessionFollow

  /** A connection up to its end or its first rejected frame. */
  datatype Run = Run(state: State, out: seq<Frame>, error: Option<StreamError>)

  function LegacyRun(target: Target, maxChunks: int, s: State, frames: seq<Frame>): (r: Run)
    requires s.begun ==> -1 <= s.cursor
    ensures r.state.begun ==> -1 <= r.state.cursor
    decreases frames
  {
    if frames == [] then Run(s, [], None)
    else
      var step := PushLegacy(target, maxChunks, s, frames[0]);
      if step.out.Err? then Run(step.state, [], Some(step.out.error))
      else
        var rest := LegacyRun(target, maxChunks, step.state, frames[1..]);
        Run(rest.state, step.out.value + rest.out, rest.error)
  }

  function CurrentRun(target: Target, maxChunks: int, s: State, frames: seq<Frame>): Run
    decreases frames
  {
    if frames == [] then Run(s, [], None)
    else
      var step := PushCurrent(target, maxChunks, s, frames[0]);
      if step.out.Err? then Run(step.state, [], Some(step.out.error))
      else
        var rest := CurrentRun(target, maxChunks, step.state, frames[1..]);
        Run(rest.state, step.out.value + rest.out, rest.error)
  }

  lemma {:induction false} CurrentRunAppend(target: Target, maxChunks: int, s: State, a: seq<Frame>, b: seq<Frame>)
    ensures var first := CurrentRun(target, maxChunks, s, a);
      var whole := CurrentRun(target, maxChunks, s, a + b);
      if first.error.Some? then whole == first
      else
        var second := CurrentRun(target, maxChunks, first.state, b);
        whole == Run(second.state, first.out + second.out, second.error)
    decreases a
  {
    hide PushCurrent;
    if a == [] {
      assert a + b == b;
    } else {
      assert (a + b)[1..] == a[1..] + b;
      var step := PushCurrent(target, maxChunks, s, a[0]);
      if step.out.Ok? {
        CurrentRunAppend(target, maxChunks, step.state, a[1..], b);
      }
    }
  }

  /** The states a legacy connection can be in once its snapshot is accepted. */
  predicate Good(maxChunks: int, s: State) {
    && s.begun
    && 0 <= s.revision <= MAX_SAFE
    && -1 <= s.cursor <= MAX_SAFE
    && match s.active
       case None => true
       case Some(a) =>
         && BoundedString(a.attemptId)
         && -1 <= a.startedAfterSeq <= s.cursor
         && SafeInt(a.at.turn, 0) && SafeInt(a.at.step, 0)
         && 0 <= a.nextIndex <= maxChunks
         && a.pending == map[]
  }

  /** Feeding `out` to a current-protocol encoder in state `s` leads it to the legacy encoder's state `l`,
      unless the legacy revision counter has left the safe integers: then `out` is rejected. */
  ghost predicate Follows(maxChunks: int, s: State, out: seq<Frame>, l: State) {
    var run := CurrentRun(CurrentTarget, maxChunks, s, out);
    if l.revision <= MAX_SAFE then Good(maxChunks, l) && run == Run(l, out, None)
    else run.error.Some?
  }

  lemma FollowsInSequence(maxChunks: int, s: State, a: seq<Frame>, m: State, b: seq<Frame>, l: State)
    requires Follows(maxChunks, s, a, m)
    requires m.revision <= MAX_SAFE ==> Follows(maxChunks, m, b, l)
    requires m.revision <= l.revision
    ensures Follows(maxChunks, s, a + b, l)
  {
    CurrentRunAppend(CurrentTarget, maxChunks, s, a, b);
  }

  lemma FollowsAbandon(maxChunks: int, s: State)
    requires Good(maxChunks, s)
    ensures Follows(maxChunks, s, AbandonFrames(CurrentTarget, s), AbandonState(s))
  {}

  lemma FollowsStart(maxChunks: int, s: State, at: Coordinates)
    requires ValidBound(maxChunks) && Good(maxChunks, s) && s.active.None?
    requires SafeInt(at.turn, 0) && SafeInt(at.step, 0)
    ensures Follows(maxChunks, s, StartFrames(CurrentTarget, s, at), StartState(s, at))
  {
    LegacyAttemptIdBounded(s.cursor + 1);
  }

  lemma FollowsAppend(maxChunks: int, s: State, timed: Timed)
    requires Good(maxChunks, s) && s.active.Some? && s.active.value.nextIndex < maxChunks && SafeInt(timed.time, 0)
    ensures Follows(maxChunks, s, AppendFrames(CurrentTarget, s, timed), AppendState(s))
  {}

  lemma FollowsDurable(maxChunks: int, s: State, event: Event)
    requires Good(maxChunks, s) && SafeInt(event.seqNo, 0) && event.seqNo == s.cursor + 1
    requires s.active.None? || !Settles(s.active.value, event)
    ensures Follows(maxChunks, s, Emit(CurrentTarget, Durable(event)), s.(cursor := event.seqNo))
  {}

  /** A settlement and its committed end: the first makes the settlement pending, the second consumes it. */
  lemma FollowsSettlement(maxChunks: int, s: State, event: Event)
    requires Good(maxChunks, s) && SafeInt(event.seqNo, 0) && event.seqNo == s.cursor + 1
    requires s.active.Some? && Settles(s.active.value, event)
    ensures Follows(maxChunks, s,
      Emit(CurrentTarget, Durable(event)) +
      Emit(CurrentTarget, Assistant(End(s.active.value.attemptId, s.revision + 1, s.active.value.nextIndex,
        Committed(event.kind, event.seqNo)))),
      AbandonState(s.(cursor := event.seqNo)))
  {
    var durable := Durable(event);
    var a := s.active.value;
    var end := Assistant(End(a.attemptId, s.revision + 1, a.nextIndex, Committed(event.kind, event.seqNo)));
    CurrentRunAppend(CurrentTarget, maxChunks, s, [durable], [end]);
    var mid := PushCurrent(CurrentTarget, maxChunks, s, durable);
    assert mid.state == s.(cursor := event.seqNo, active := Some(a.(pending := map[event.seqNo := event.kind])));
    assert [durable][1..] == [] && [end][1..] == [];
    assert CurrentRun(CurrentTarget, maxChunks, s, [durable]).state == mid.state;
  }

  lemma FollowsChunk(maxChunks: int, s: State, event: Event, chunk: PlacedChunk)
    requires ValidBound(maxChunks) && Good(maxChunks, s) && LegacyChunk(event) == Some(chunk)
      && event.seqNo == s.cursor + 1
    ensures var step := PushChunk(CurrentTarget, maxChunks, s, event, chunk);
      if step.out.Ok? then s.revision <= step.state.revision <= s.revision + 3
        && Follows(maxChunks, s, step.out.value, step.state)
      else step.state == s
  {
    var step := PushChunk(CurrentTarget, maxChunks, s, event, chunk);
    if step.out.Ok? {
      var moved := s.active.Some? && s.active.value.at != chunk.at;
      var s1 := if moved then AbandonState(s) else s;
      var o1 := if moved then AbandonFrames(CurrentTarget, s) else [];
      assert Follows(maxChunks, s, o1, s1) by {
        if moved { FollowsAbandon(maxChunks, s); }
      }
      var s2 := if s1.active.None? then StartState(s1, chunk.at) else s1;
      var o2 := if s1.active.None? then StartFrames(CurrentTarget, s1, chunk.at) else [];
      if s1.revision <= MAX_SAFE && s1.active.None? { FollowsStart(maxChunks, s1, chunk.at); }
      FollowsInSequence(maxChunks, s, o1, s1, o2, s2);
      var s3 := AppendState(s2);
      var o3 := AppendFrames(CurrentTarget, s2, chunk.timed);
      if s2.revision <= MAX_SAFE { FollowsAppend(maxChunks, s2, chunk.timed); }
      FollowsInSequence(maxChunks, s, o1 + o2, s2, o3, s3);
      if s3.revision <= MAX_SAFE { FollowsDurable(maxChunks, s3, event); }
      FollowsInSequence(maxChunks, s, o1 + o2 + o3, s3, Emit(CurrentTarget, Durable(event)), step.state);
    }
  }

  lemma FollowsOther(maxChunks: int, s: State, event: Event)
    requires Good(maxChunks, s) && SafeInt(event.seqNo, 0) && event.seqNo == s.cursor + 1
    ensures var step := PushOther(CurrentTarget, s, event);
      step.out.Ok? && s.revision <= step.state.revision <= s.revision + 3
        && Follows(maxChunks, s, step.out.value, step.state)
  {
    var step := PushOther(CurrentTarget, s, event);
    var bounded := s.active.Some? && Boundary(s.active, event);
    var s1 := if bounded then AbandonState(s) else s;
    var o1 := if bounded then AbandonFrames(CurrentTarget, s) else [];
    assert Follows(maxChunks, s, o1, s1) by {
      if bounded { FollowsAbandon(maxChunks, s); }
    }
    var durable := Emit(CurrentTarget, Durable(event));
    var s2 := s1.(cursor := event.seqNo);
    if s2.active.Some? && Settles(s2.active.value, event) {
      var end := Emit(CurrentTarget,
        Assistant(End(s2.active.value.attemptId, s2.revision + 1, s2.active.value.nextIndex,
          Committed(event.kind, event.seqNo))));
      if s1.revision <= MAX_SAFE { FollowsSettlement(maxChunks, s1, event); }
      FollowsInSequence(maxChunks, s, o1, s1, durable + end, step.state);
      assert o1 + durable + end == o1 + (durable + end);
    } else {
      if s1.revision <= MAX_SAFE { FollowsDurable(maxChunks, s1, event); }
      FollowsInSequence(maxChunks, s, o1, s1, durable, s2);
      if Settlement(event.kind) && s2.active.Some? {
        if s2.revision <= MAX_SAFE { FollowsAbandon(maxChunks, s2); }
        FollowsInSequence(maxChunks, s, o1 + durable, s2, AbandonFrames(CurrentTarget, s2), step.state);
      }
    }
  }

  lemma FollowsOpening(maxChunks: int, frame: Frame)
    requires ValidBound(maxChunks)
    ensures var step := PushLegacy(CurrentTarget, maxChunks, FRESH, frame);
      step.state.revision == 0 && (step.out.Ok? ==> Follows(maxChunks, FRESH, step.out.value, step.state))
  {
    var step := PushLegacy(CurrentTarget, maxChunks, FRESH, frame);
    if step.out.Ok? {
      var chunks := TrailingChunks(frame.records);
      TrailingChunksShape(frame.records);
      if chunks != [] { LegacyAttemptIdBounded(chunks[0].seqNo); }
      assert step.out.value[1..] == [];
    }
  }

  /** One pushed frame: either side of the relation, from any reachable legacy state. */
  lemma FollowsStep(maxChunks: int, s: State, frame: Frame)
    requires ValidBound(maxChunks) && Good(maxChunks, s)
    ensures var step := PushLegacy(CurrentTarget, maxChunks, s, frame);
      if step.out.Ok? then s.revision <= step.state.revision <= s.revision + 3
        && Follows(maxChunks, s, step.out.value, step.state)
      else step.state == s
  {
    if frame.Durable? && CheckDurable(s.cursor, frame).Ok? {
      var chunk := LegacyChunk(frame.event);
      if chunk.Some? { FollowsChunk(maxChunks, s, frame.event, chunk.value); }
      else { FollowsOther(maxChunks, s, frame.event); }
    }
  }

  lemma {:induction false} RevisionGrowth(target: Target, maxChunks: int, s: State, frames: seq<Frame>)
    requires s.begun && -1 <= s.cursor
    ensures s.revision <= LegacyRun(target, maxChunks, s, frames).state.revision <= s.revision + 3 * |frames|
    decreases frames
  {
    if frames != [] {
      var step := PushLegacy(target, maxChunks, s, frames[0]);
      if step.out.Ok? { RevisionGrowth(target, maxChunks, step.state, frames[1..]); }
    }
  }

  lemma {:induction false} FollowsRun(maxChunks: int, s: State, frames: seq<Frame>)
    requires ValidBound(maxChunks) && Good(maxChunks, s)
    ensures var legacy := LegacyRun(CurrentTarget, maxChunks, s, frames);
      Follows(maxChunks, s, legacy.out, legacy.state)
    decreases frames
  {
    if frames != [] {
      var step := PushLegacy(CurrentTarget, maxChunks, s, frames[0]);
      FollowsStep(maxChunks, s, frames[0]);
      if step.out.Ok? {
        var rest := LegacyRun(CurrentTarget, maxChunks, step.state, frames[1..]);
        RevisionGrowth(CurrentTarget, maxChunks, step.state, frames[1..]);
        if step.state.revision <= MAX_SAFE {
          FollowsRun(maxChunks, step.state, frames[1..]);
        }
        FollowsInSequence(maxChunks, s, step.out.value, step.state, rest.out, rest.state);
      }
    }
  }

  /** SIMULATION. Whatever log the legacy side is fed, a fresh current-protocol encoder with the same chunk
      bound accepts everything it emitted, and passes it on unchanged, exactly when the legacy revision counter
      is still a safe integer. */
  lemma LegacyOutputIsAccepted(maxChunks: int, input: seq<Frame>)
    requires ValidBound(maxChunks)
    ensures var legacy := LegacyRun(CurrentTarget, maxChunks, FRESH, input);
      var current := CurrentRun(CurrentTarget, maxChunks, FRESH, legacy.out);
      && (current.error.None? <==> legacy.state.revision <= MAX_SAFE)
      && (current.error.None? ==> current.out == legacy.out)
      && (current.error.None? && legacy.error.None? ==> current.state == legacy.state)
  {
    if input != [] {
      var step := PushLegacy(CurrentTarget, maxChunks, FRESH, input[0]);
      FollowsOpening(maxChunks, input[0]);
      if step.out.Ok? {
        var rest := LegacyRun(CurrentTarget, maxChunks, step.state, input[1..]);
        RevisionGrowth(CurrentTarget, maxChunks, step.state, input[1..]);
        FollowsRun(maxChunks, step.state, input[1..]);
        FollowsInSequence(maxChunks, FRESH, step.out.value, step.state, rest.out, rest.state);
      }
    }
  }

  /** The condition holds for every connection of fewer than 3 * 10^15 frames. */
  lemma LongRunsAreAccepted(maxChunks: int, input: seq<Frame>)
    requires ValidBound(maxChunks) && 3 * |input| <= MAX_SAFE
    ensures CurrentRun(CurrentTarget, maxChunks, FRESH,
      LegacyRun(CurrentTarget, maxChunks, FRESH, input).out).error.None?
  {
    LegacyOutputIsAccepted(maxChunks, input);
    if input != [] {
      var step := PushLegacy(CurrentTarget, maxChunks, FRESH, input[0]);
      FollowsOpening(maxChunks, input[0]);
      if step.out.Ok? { RevisionGrowth(CurrentTarget, maxChunks, step.state, input[1..]); }
    }
  }

  // ---- Erasure ---------------------------------------------------------------------------------

  /** Drop the transient frames and the snapshot's added field. */
  function Erase(frames: seq<Frame>): seq<Frame> {
    if frames == [] then [] else Emit(LegacyTarget, frames[0]) + Erase(frames[1..])
  }

  lemma {:induction false} EraseAppend(a: seq<Frame>, b: seq<Frame>)
    ensures Erase(a + b) == Erase(a) + Erase(b)
  {
    if a == [] {
      assert a + b == b;
    } else {
      assert (a + b)[1..] == a[1..] + b;
      EraseAppend(a[1..], b);
      assert Emit(LegacyTarget, a[0]) + (Erase(a[1..]) + Erase(b)) == (Emit(LegacyTarget, a[0]) + Erase(a[1..]))
        + Erase(b);
    }
  }

  lemma EraseOne(frame: Frame)
    ensures Erase([frame]) == Emit(LegacyTarget, frame)
  {
    assert [frame][1..] == [];
  }

  lemma EraseStep(maxChunks: int, s: State, frame: Frame)
    requires s.begun && -1 <= s.cursor
    ensures var step := PushLegacy(CurrentTarget, maxChunks, s, frame);
      step.out.Ok? ==> Erase(step.out.value) == [frame]
  {
    var step := PushLegacy(CurrentTarget, maxChunks, s, frame);
    if step.out.Ok? {
      var event := frame.event;
      var chunk := LegacyChunk(event);
      EraseOne(frame);
      if chunk.Some? {
        var moved := s.active.Some? && s.active.value.at != chunk.value.at;
        var s1 := if moved then AbandonState(s) else s;
        var o1 := if moved then AbandonFrames(CurrentTarget, s) else [];
        var s2 := if s1.active.None? then StartState(s1, chunk.value.at) else s1;
        var o2 := if s1.active.None? then StartFrames(CurrentTarget, s1, chunk.value.at) else [];
        var o3 := AppendFrames(CurrentTarget, s2, chunk.value.timed);
        EraseAppend(o1, o2);
        EraseAppend(o1 + o2, o3);
        EraseAppend(o1 + o2 + o3, [frame]);
      } else {
        var bounded := s.active.Some? && Boundary(s.active, event);
        var o1 := if bounded then AbandonFrames(CurrentTarget, s) else [];
        EraseAppend(o1, [frame]);
        EraseAppend(o1 + [frame], step.out.value[|o1| + 1..]);
        assert step.out.value == o1 + [frame] + step.out.value[|o1| + 1..];
      }
    }
  }

  lemma {:induction false} EraseRun(maxChunks: int, s: State, frames: seq<Frame>)
    requires s.begun && -1 <= s.cursor
    ensures var run := LegacyRun(CurrentTarget, maxChunks, s, frames);
      run.error.None? ==> Erase(run.out) == frames
    decreases frames
  {
    var run := LegacyRun(CurrentTarget, maxChunks, s, frames);
    if frames != [] && run.error.None? {
      var step := PushLegacy(CurrentTarget, maxChunks, s, frames[0]);
      EraseStep(maxChunks, s, frames[0]);
      EraseRun(maxChunks, step.state, frames[1..]);
      EraseAppend(step.out.value, LegacyRun(CurrentTarget, maxChunks, step.state, frames[1..]).out);
      assert frames == [frames[0]] + frames[1..];
    }
  }

  /** ERASURE. Deleting what the encoder added gives back its input, in order. */
  lemma LegacyOutputErasesToInput(maxChunks: int, input: seq<Frame>)
    requires ValidBound(maxChunks)
    requires input != [] && input[0].Snapshot? ==> input[0].assistant.None?
    ensures var run := LegacyRun(CurrentTarget, maxChunks, FRESH, input);
      run.error.None? ==> Erase(run.out) == input
  {
    var run := LegacyRun(CurrentTarget, maxChunks, FRESH, input);
    if input != [] && run.error.None? {
      var step := PushLegacy(CurrentTarget, maxChunks, FRESH, input[0]);
      FollowsOpening(maxChunks, input[0]);
      EraseOne(step.out.value[0]);
      assert step.out.value == [step.out.value[0]];
      EraseRun(maxChunks, step.state, input[1..]);
      EraseAppend(step.out.value, LegacyRun(CurrentTarget, maxChunks, step.state, input[1..]).out);
      assert input == [input[0]] + input[1..];
    }
  }

  lemma TargetOnlyChangesOutput(maxChunks: int, s: State, frame: Frame)
    ensures var step := PushCurrent(CurrentTarget, maxChunks, s, frame);
      PushCurrent(LegacyTarget, maxChunks, s, frame)
      == Step(step.state, if step.out.Ok? then Ok(Emit(LegacyTarget, frame)) else step.out)
      && (step.out.Ok? ==> step.out.value == [frame])
  {}

  /** Serving a legacy Browser differs from serving a current one by erasure alone. */
  lemma {:induction false} LegacyTargetErases(maxChunks: int, s: State, frames: seq<Frame>)
    ensures var current := CurrentRun(CurrentTarget, maxChunks, s, frames);
      var legacy := CurrentRun(LegacyTarget, maxChunks, s, frames);
      legacy.state == current.state && legacy.error == current.error && legacy.out == Erase(current.out)
    decreases frames
  {
    if frames != [] {
      var step := PushCurrent(CurrentTarget, maxChunks, s, frames[0]);
      TargetOnlyChangesOutput(maxChunks, s, frames[0]);
      hide PushCurrent;
      if step.out.Ok? {
        LegacyTargetErases(maxChunks, step.state, frames[1..]);
        EraseAppend([frames[0]], CurrentRun(CurrentTarget, maxChunks, step.state, frames[1..]).out);
        EraseOne(frames[0]);
      }
    }
  }

  /** The production chain, from a legacy Host through the current protocol to a legacy Browser, is the identity. */
  lemma ChainIsIdentity(maxChunks: int, input: seq<Frame>)
    requires ValidBound(maxChunks) && 3 * |input| <= MAX_SAFE
    requires input != [] && input[0].Snapshot? ==> input[0].assistant.None?
    ensures var carrier := LegacyRun(CurrentTarget, maxChunks, FRESH, input);
      carrier.error.None? ==> CurrentRun(LegacyTarget, maxChunks, FRESH, carrier.out) == Run(carrier.state, input, None)
  {
    var carrier := LegacyRun(CurrentTarget, maxChunks, FRESH, input);
    LongRunsAreAccepted(maxChunks, input);
    LegacyOutputIsAccepted(maxChunks, input);
    LegacyOutputErasesToInput(maxChunks, input);
    LegacyTargetErases(maxChunks, FRESH, carrier.out);
  }

  // ---- Chunk correspondence --------------------------------------------------------------------

  function ChunkFrames(frames: seq<Frame>): seq<Timed> {
    if frames == [] then []
    else (match frames[0] case Assistant(ChunkAt(_, _, _, timed)) => [timed] case _ => []) + ChunkFrames(frames[1..])
  }

  function DurableChunks(frames: seq<Frame>): seq<Timed> {
    if frames == [] then []
    else (if frames[0].Durable? && LegacyChunk(frames[0].event).Some? then [LegacyChunk(frames[0].event).value.timed]
      else [])
         + DurableChunks(frames[1..])
  }

  lemma {:induction false} ChunkFramesAppend(a: seq<Frame>, b: seq<Frame>)
    ensures ChunkFrames(a + b) == ChunkFrames(a) + ChunkFrames(b)
  {
    if a == [] {
      assert a + b == b;
    } else {
      assert (a + b)[1..] == a[1..] + b;
      ChunkFramesAppend(a[1..], b);
      var head := match a[0] case Assistant(ChunkAt(_, _, _, timed)) => [timed] case _ => [];
      assert head + (ChunkFrames(a[1..]) + ChunkFrames(b)) == (head + ChunkFrames(a[1..])) + ChunkFrames(b);
    }
  }

  lemma ChunkFramesOfPieces(s: State, at: Coordinates, timed: Timed, frame: Frame)
    requires -1 <= s.cursor
    ensures ChunkFrames(AbandonFrames(CurrentTarget, s)) == []
    ensures ChunkFrames(StartFrames(CurrentTarget, s, at)) == []
    ensures s.active.Some? ==> ChunkFrames(AppendFrames(CurrentTarget, s, timed)) == [timed]
    ensures frame.Durable? ==> ChunkFrames([frame]) == []
  {
    assert [frame][1..] == [];
  }

  lemma ChunkFramesOfChunk(maxChunks: int, s: State, event: Event, chunk: PlacedChunk)
    requires -1 <= s.cursor
    ensures var step := PushChunk(CurrentTarget, maxChunks, s, event, chunk);
      step.out.Ok? ==> ChunkFrames(step.out.value) == [chunk.timed]
  {
    var moved := s.active.Some? && s.active.value.at != chunk.at;
    var s1 := if moved then AbandonState(s) else s;
    var o1 := if moved then AbandonFrames(CurrentTarget, s) else [];
    var s2 := if s1.active.None? then StartState(s1, chunk.at) else s1;
    var o2 := if s1.active.None? then StartFrames(CurrentTarget, s1, chunk.at) else [];
    var o3 := AppendFrames(CurrentTarget, s2, chunk.timed);
    ChunkFramesOfPieces(s, chunk.at, chunk.timed, Durable(event));
    ChunkFramesOfPieces(s1, chunk.at, chunk.timed, Durable(event));
    ChunkFramesOfPieces(s2, chunk.at, chunk.timed, Durable(event));
    ChunkFramesAppend(o1, o2);
    ChunkFramesAppend(o1 + o2, o3);
    ChunkFramesAppend(o1 + o2 + o3, [Durable(event)]);
  }

  lemma ChunkFramesOfOther(s: State, event: Event)
    requires -1 <= s.cursor
    ensures ChunkFrames(PushOther(CurrentTarget, s, event).out.value) == []
  {
    var out := PushOther(CurrentTarget, s, event).out.value;
    var bounded := s.active.Some? && Boundary(s.active, event);
    var o1 := if bounded then AbandonFrames(CurrentTarget, s) else [];
    var o3 := out[|o1| + 1..];
    assert out == o1 + [Durable(event)] + o3;
    assert |o3| == 0 || (o3 == [o3[0]] && o3[0].Assistant? && o3[0].frame.End?);
    ChunkFramesOfPieces(s, Coordinates(0, 0), Timed(0, ""), Durable(event));
    ChunkFramesAppend(o1, [Durable(event)]);
    ChunkFramesAppend(o1 + [Durable(event)], o3);
    if |o3| != 0 { assert o3[1..] == []; }
  }

  /** CHUNKS. After the snapshot, the emitted chunk frames are the durable legacy chunks, one for one and in order. */
  lemma {:induction false} ChunkFramesMatchDurableChunks(maxChunks: int, s: State, frames: seq<Frame>)
    requires s.begun && -1 <= s.cursor
    ensures var run := LegacyRun(CurrentTarget, maxChunks, s, frames);
      run.error.None? ==> ChunkFrames(run.out) == DurableChunks(frames)
    decreases frames
  {
    var run := LegacyRun(CurrentTarget, maxChunks, s, frames);
    if frames != [] && run.error.None? {
      var step := PushLegacy(CurrentTarget, maxChunks, s, frames[0]);
      var event := frames[0].event;
      if LegacyChunk(event).Some? { ChunkFramesOfChunk(maxChunks, s, event, LegacyChunk(event).value); }
      else { ChunkFramesOfOther(s, event); }
      ChunkFramesMatchDurableChunks(maxChunks, step.state, frames[1..]);
      ChunkFramesAppend(step.out.value, LegacyRun(CurrentTarget, maxChunks, step.state, frames[1..]).out);
    }
  }
}
