/** What a subscriber is handed over a whole life, whatever is emitted, taken and closed in between. */
module SubscriberRuns {
  import opened Prelude
  import opened Subscriber

  /** Every frame handed over or still queued, in order. */
  function All(s: State): seq<Frame> {
    s.taken + s.queue
  }

  function Sum(o: Options, frames: seq<Frame>): int {
    if frames == [] then 0 else SizeOf(o, frames[0]) + Sum(o, frames[1..])
  }

  /** The keys of the frames that have one. */
  function Keys(frames: seq<Frame>): seq<Key> {
    if frames == [] then []
    else
      var f := frames[|frames| - 1];
      Keys(frames[..|frames| - 1]) + if f.Live? && KeyOf(f.event).Some? then [KeyOf(f.event).value] else []
  }

  predicate Of(e: Event, session: string) {
    Durable(e) && e.session.value == session
  }

  /** The seqs a list of frames gives one session. */
  function Received(frames: seq<Frame>, session: string): seq<int> {
    if frames == [] then []
    else
      var f := frames[|frames| - 1];
      Received(frames[..|frames| - 1], session) + if f.Live? && Of(f.event, session) then [f.event.seqNo.value] else []
  }

  /** The seqs of one session the subscriber was offered. */
  function Offered(o: Options, ops: seq<Op>, session: string): seq<int> {
    if ops == [] then []
    else
      var op := ops[|ops| - 1];
      Offered(o, ops[..|ops| - 1], session) + if op.DoEmit? && Wanted(o, op.event) && Of(op.event, session) then
        [op.event.seqNo.value] else []
  }

  /** The seqs that exceed everything before them and the floor. */
  function Maxima(seqs: seq<int>, floor: Option<int>): seq<int> {
    if seqs == [] then []
    else
      var top := seqs[|seqs| - 1];
      var before := Maxima(seqs[..|seqs| - 1], floor);
      if (before != [] && top <= before[|before| - 1]) || (floor.Some? && top <= floor.value) then before
        else before + [top]
  }

  ghost predicate Rising(seqs: seq<int>, floor: Option<int>) {
    && (forall i, j :: 0 <= i < j < |seqs| ==> seqs[i] < seqs[j])
    && (floor.Some? ==> forall i :: 0 <= i < |seqs| ==> seqs[i] > floor.value)
  }

  // ---- The invariant ---------------------------------------------------------------------------

  /** Byte and length accounting. */
  ghost predicate Accounted(o: Options, s: State) {
    s.queuedBytes == Sum(o, s.queue) && (!s.done ==> |s.queue| <= o.maxQueue && s.queuedBytes <= o.maxBytes)
  }

  /** At most one overflow frame is ever handed over, and nothing after it. */
  ghost predicate EndsOnce(s: State) {
    && (forall i :: 0 <= i < |All(s)| - 1 ==> All(s)[i].Live?)
    && (!s.done ==> forall i :: 0 <= i < |All(s)| ==> All(s)[i].Live?)
    && (s.done ==> s.queue == [] || s.queue == [OverflowFrame])
  }

  /** The remembered keys are the newest ones handed over. */
  ghost predicate SeenExact(o: Options, s: State) {
    && s.seen == Members(s.seenOrder) && Distinct(s.seenOrder) && |s.seenOrder| <= o.maxSeen
    && (!s.done ==> s.seenOrder == Trim(Keys(All(s)), o.maxSeen))
  }

  /** A session's last seq is the last one handed over. */
  ghost predicate LastOf(s: State, k: string) {
    var received := Received(All(s), k);
    (k in s.lastSeq <==> received != []) && (k in s.lastSeq ==> s.lastSeq[k] == received[|received| - 1])
  }

  ghost predicate LastExact(s: State) {
    !s.done ==> forall k :: LastOf(s, k)
  }

  ghost predicate PassedExact(s: State) {
    forall k, q :: EventKey(k, q) in s.seen ==> k in s.lastSeq && q <= s.lastSeq[k]
  }

  ghost predicate Invariant(o: Options, s: State) {
    Accounted(o, s) && EndsOnce(s) && SeenExact(o, s) && LastExact(s) && PassedExact(s)
  }

  // ---- Appending a frame -----------------------------------------------------------------------

  lemma {:induction false} SumAppend(o: Options, frames: seq<Frame>, f: Frame)
    ensures Sum(o, frames + [f]) == Sum(o, frames) + SizeOf(o, f)
  {
    if frames != [] {
      SumAppend(o, frames[1..], f);
      assert (frames + [f])[1..] == frames[1..] + [f];
    } else {
      assert frames + [f] == [f] && [f][1..] == [];
    }
  }

  lemma {:induction false} SumNatural(o: Options, frames: seq<Frame>)
    ensures Sum(o, frames) >= 0
  {
    if frames != [] { SumNatural(o, frames[1..]); }
  }

  lemma AppendFrame(frames: seq<Frame>, f: Frame, session: string)
    ensures Keys(frames + [f]) == Keys(frames) + if f.Live? && KeyOf(f.event).Some? then [KeyOf(f.event).value] else []
    ensures Received(frames + [f], session) == Received(frames, session) + if f.Live? && Of(f.event, session) then
      [f.event.seqNo.value] else []
  {
    assert (frames + [f])[..|frames|] == frames;
  }

  /** What an event that is not passed and not remembered leads to. */
  lemma JoinedAll(s: State, e: Event)
    ensures s.taken + (s.queue + [Live(e)]) == All(s) + [Live(e)]
  {}

  lemma TrimAppend(keys: seq<Key>, key: Key, limit: nat)
    ensures Trim(Trim(keys, limit) + [key], limit) == Trim(keys + [key], limit)
  {}

  lemma RememberedShape(o: Options, s: State, key: Key)
    requires s.seen == Members(s.seenOrder) && Distinct(s.seenOrder) && key !in s.seen
    ensures var t := Remember(o, s, key);
      t.seen == Members(t.seenOrder) && Distinct(t.seenOrder) && |t.seenOrder| <= o.maxSeen
  {
    var all := s.seenOrder + [key];
    assert forall k :: k in all <==> k in s.seenOrder || k == key;
    assert forall k :: k in Trim(all, o.maxSeen) ==> k in all;
  }

  /** A durable event that is not passed has a key nobody remembers. */
  lemma NewSeqUnseen(o: Options, s: State, e: Event)
    requires PassedExact(s) && Durable(e) && !Passed(o, s, e)
    ensures KeyOf(e).value !in s.seen
  {}

  /** The state after an event is queued. */
  function Joined(o: Options, s: State, e: Event): State {
    var s1 := if Durable(e) then s.(lastSeq := s.lastSeq[e.session.value := e.seqNo.value]) else s;
    var s2 := if KeyOf(e).Some? then Remember(o, s1, KeyOf(e).value) else s1;
    s2.(queue := s.queue + [Live(e)], queuedBytes := s.queuedBytes + e.bytes)
  }

  /** The event is news to the client. */
  ghost predicate News(o: Options, s: State, e: Event) {
    !s.done && Wanted(o, e) && !Passed(o, s, e) && (KeyOf(e).Some? ==> KeyOf(e).value !in s.seen)
  }

  /** An emit ignores the event, queues it, or ends the stream. */
  lemma EmitShape(o: Options, s: State, e: Event)
    requires PassedExact(s)
    ensures Emit(o, s, e) == if !News(o, s, e) then s else if Full(o, s, e) then Fail(o, s) else Joined(o, s, e)
    ensures Durable(e) && !s.done && Wanted(o, e) ==> (News(o, s, e) <==> !Passed(o, s, e))
  {
    if Durable(e) && !Passed(o, s, e) { NewSeqUnseen(o, s, e); }
  }

  lemma JoinedAccounted(o: Options, s: State, e: Event)
    requires Accounted(o, s) && !s.done && !Full(o, s, e)
    ensures Accounted(o, Joined(o, s, e))
  {
    SumAppend(o, s.queue, Live(e));
  }

  lemma JoinedSeen(o: Options, s: State, e: Event)
    requires SeenExact(o, s) && News(o, s, e)
    ensures SeenExact(o, Joined(o, s, e))
  {
    JoinedAll(s, e);
    AppendFrame(All(s), Live(e), "");
    if KeyOf(e).Some? {
      RememberedShape(o, s, KeyOf(e).value);
      TrimAppend(Keys(All(s)), KeyOf(e).value, o.maxSeen);
    }
  }

  lemma JoinedPassed(o: Options, s: State, e: Event)
    requires PassedExact(s) && News(o, s, e)
    ensures PassedExact(Joined(o, s, e))
  {}

  lemma JoinedLast(o: Options, s: State, e: Event, k: string)
    requires LastOf(s, k)
    ensures LastOf(Joined(o, s, e), k)
  {
    JoinedFields(o, s, e);
    AppendFrame(All(s), Live(e), k);
    hide Joined, Received, Keys, All;
  }

  lemma JoinedFields(o: Options, s: State, e: Event)
    ensures All(Joined(o, s, e)) == All(s) + [Live(e)]
    ensures Joined(o, s, e).lastSeq == if Durable(e) then s.lastSeq[e.session.value := e.seqNo.value] else s.lastSeq
  {}

  lemma JoinedKeeps(o: Options, s: State, e: Event)
    requires Invariant(o, s) && News(o, s, e) && !Full(o, s, e)
    ensures Invariant(o, Joined(o, s, e))
  {
    JoinedAll(s, e);
    assert EndsOnce(Joined(o, s, e));
    hide Accounted, EndsOnce, SeenExact, PassedExact, LastOf, Joined;
    JoinedAccounted(o, s, e);
    JoinedSeen(o, s, e);
    JoinedPassed(o, s, e);
    forall k ensures LastOf(Joined(o, s, e), k) {
      assert LastOf(s, k);
      JoinedLast(o, s, e, k);
    }
  }

  lemma FailKeeps(o: Options, s: State)
    requires Invariant(o, s) && !s.done
    ensures Invariant(o, Fail(o, s))
  {
    var t := Fail(o, s);
    assert [OverflowFrame][1..] == [];
    assert All(t) == s.taken + [OverflowFrame];
    forall i | 0 <= i < |s.taken| ensures s.taken[i].Live? {
      assert All(s)[i] == s.taken[i];
    }
  }

  lemma EmitKeeps(o: Options, s: State, e: Event)
    requires Invariant(o, s)
    ensures Invariant(o, Emit(o, s, e))
  {
    EmitShape(o, s, e);
    hide Invariant, Emit, Joined, Fail;
    if News(o, s, e) {
      if Full(o, s, e) { FailKeeps(o, s); } else { JoinedKeeps(o, s, e); }
    }
  }

  lemma TakeKeeps(o: Options, s: State)
    requires Invariant(o, s) && s.queue != []
    ensures Invariant(o, Take(o, s)) && All(Take(o, s)) == All(s)
  {
    SumNatural(o, s.queue[1..]);
    assert All(Take(o, s)) == All(s);
    hide Keys, Received, Sum;
    assert Sum(o, s.queue) == SizeOf(o, s.queue[0]) + Sum(o, s.queue[1..]) by { SumFirst(o, s.queue); }
    forall k ensures !s.done ==> LastOf(Take(o, s), k) {
      assert !s.done ==> LastOf(s, k);
    }
  }

  lemma SumFirst(o: Options, frames: seq<Frame>)
    requires frames != []
    ensures Sum(o, frames) == SizeOf(o, frames[0]) + Sum(o, frames[1..])
  {}

  lemma CloseKeeps(o: Options, s: State)
    requires Invariant(o, s)
    ensures Invariant(o, Close(s))
  {
    assert forall i :: 0 <= i < |s.taken| ==> s.taken[i] == All(s)[i];
  }

  lemma {:induction false} RunKeeps(o: Options, ops: seq<Op>)
    ensures Invariant(o, Run(o, ops))
  {
    if ops != [] {
      var s := Run(o, ops[..|ops| - 1]);
      RunKeeps(o, ops[..|ops| - 1]);
      hide Invariant, Emit, Take, Close;
      match ops[|ops| - 1]
      case DoEmit(e) => EmitKeeps(o, s, e);
      case DoTake => if s.queue != [] { TakeKeeps(o, s); }
      case DoClose => CloseKeeps(o, s);
    }
  }

  // ---- What the client receives ----------------------------------------------------------------

  /** What a session has been given so far is exactly what exceeded everything offered before it. */
  lemma {:induction false} ReceivedIsMaxima(o: Options, ops: seq<Op>, session: string)
    requires !Run(o, ops).done
    ensures Received(All(Run(o, ops)), session) == Maxima(Offered(o, ops, session), o.sinceSeq)
  {
    if ops != [] {
      var n := |ops| - 1;
      var s := Run(o, ops[..n]);
      RunKeeps(o, ops[..n]);
      DoneStays(o, s, ops[n]);
      ReceivedIsMaxima(o, ops[..n], session);
      hide Invariant, Emit, Take, Received, Maxima, Offered;
      match ops[n]
      case DoEmit(e) =>
        OfferedStep(o, ops, session);
        EmittedNext(o, s, e, session, Offered(o, ops[..n], session));
      case DoTake =>
        OfferedSame(o, ops, session);
        if s.queue != [] { TakeKeeps(o, s); }
      case DoClose =>
    }
  }

  lemma DoneStays(o: Options, s: State, op: Op)
    ensures s.done ==> Next(o, s, op).done
  {}

  lemma OfferedSame(o: Options, ops: seq<Op>, session: string)
    requires ops != [] && !ops[|ops| - 1].DoEmit?
    ensures Offered(o, ops, session) == Offered(o, ops[..|ops| - 1], session)
  {}

  lemma OfferedStep(o: Options, ops: seq<Op>, session: string)
    requires ops != [] && ops[|ops| - 1].DoEmit?
    ensures var e := ops[|ops| - 1].event; var before := Offered(o, ops[..|ops| - 1], session);
      Offered(o, ops, session) == if Wanted(o, e) && Of(e, session) then before + [e.seqNo.value] else before
  {}

  lemma MaximaStep(seqs: seq<int>, top: int, floor: Option<int>)
    ensures var before := Maxima(seqs, floor);
      Maxima(seqs + [top], floor) ==
        if (before != [] && top <= before[|before| - 1]) || (floor.Some? && top <= floor.value) then before
          else before + [top]
  {
    assert (seqs + [top])[..|seqs|] == seqs;
  }

  lemma EmittedNext(o: Options, s: State, e: Event, session: string, offered: seq<int>)
    requires Invariant(o, s) && !Emit(o, s, e).done && Received(All(s), session) == Maxima(offered, o.sinceSeq)
    ensures Received(All(Emit(o, s, e)), session) ==
            Maxima(if Wanted(o, e) && Of(e, session) then offered + [e.seqNo.value] else offered, o.sinceSeq)
  {
    EmitShape(o, s, e);
    assert LastOf(s, session);
    if News(o, s, e) {
      JoinedAll(s, e);
      AppendFrame(All(s), Live(e), session);
    }
    if Wanted(o, e) && Of(e, session) {
      MaximaStep(offered, e.seqNo.value, o.sinceSeq);
    }
  }

  lemma {:induction false} MaximaRise(seqs: seq<int>, floor: Option<int>)
    ensures Rising(Maxima(seqs, floor), floor)
  {
    if seqs != [] {
      MaximaRise(seqs[..|seqs| - 1], floor);
    }
  }

  lemma {:induction false} RisingIsItsMaxima(seqs: seq<int>, floor: Option<int>)
    requires Rising(seqs, floor)
    ensures Maxima(seqs, floor) == seqs
  {
    if seqs != [] {
      var n := |seqs| - 1;
      RisingIsItsMaxima(seqs[..n], floor);
      assert seqs == seqs[..n] + [seqs[n]];
    }
  }

  lemma MaximaGrow(o: Options, ops: seq<Op>, session: string)
    requires ops != []
    ensures Maxima(Offered(o, ops[..|ops| - 1], session), o.sinceSeq) <= Maxima(Offered(o, ops, session), o.sinceSeq)
  {
    var before := Offered(o, ops[..|ops| - 1], session);
    if Offered(o, ops, session) != before {
      MaximaStep(before, ops[|ops| - 1].event.seqNo.value, o.sinceSeq);
    }
  }

  lemma {:induction false} ReceivedSplits(a: seq<Frame>, b: seq<Frame>, session: string)
    ensures Received(a + b, session) == Received(a, session) + Received(b, session)
  {
    if b == [] {
      assert a + b == a;
    } else {
      assert (a + b)[..|a + b| - 1] == a + b[..|b| - 1];
      ReceivedSplits(a, b[..|b| - 1], session);
    }
  }

  /** A step that ends or follows the end hands over no event. */
  lemma EndHandsNothing(o: Options, s: State, op: Op, session: string)
    requires Invariant(o, s) && Next(o, s, op).done
    ensures Received(Next(o, s, op).taken, session) == Received(s.taken, session)
  {
    if op.DoTake? && s.queue != [] {
      AppendFrame(s.taken, OverflowFrame, session);
    }
    if op.DoEmit? {
      EmitShape(o, s, op.event);
    }
  }

  /** What the client has been handed of a session, overflow or not, is a prefix of the full delivery. */
  lemma {:induction false} HandedOverIsPrefix(o: Options, ops: seq<Op>, session: string)
    ensures Received(Run(o, ops).taken, session) <= Maxima(Offered(o, ops, session), o.sinceSeq)
  {
    var s := Run(o, ops);
    if !s.done {
      ReceivedIsMaxima(o, ops, session);
      ReceivedSplits(s.taken, s.queue, session);
    } else if ops != [] {
      var n := |ops| - 1;
      HandedOverIsPrefix(o, ops[..n], session);
      MaximaGrow(o, ops, session);
      RunKeeps(o, ops[..n]);
      EndHandsNothing(o, Run(o, ops[..n]), ops[n], session);
    }
  }

  /** So the seqs handed over rise strictly above `sinceSeq`; and of events emitted in order, none is skipped. */
  lemma InOrderNothingIsSkipped(o: Options, ops: seq<Op>, session: string)
    ensures Rising(Received(Run(o, ops).taken, session), o.sinceSeq)
    ensures Rising(Offered(o, ops, session), o.sinceSeq) ==>
      && Received(Run(o, ops).taken, session) <= Offered(o, ops, session)
      && (!Run(o, ops).done ==> Received(All(Run(o, ops)), session) == Offered(o, ops, session))
  {
    HandedOverIsPrefix(o, ops, session);
    MaximaRise(Offered(o, ops, session), o.sinceSeq);
    if Rising(Offered(o, ops, session), o.sinceSeq) {
      RisingIsItsMaxima(Offered(o, ops, session), o.sinceSeq);
      if !Run(o, ops).done {
        ReceivedIsMaxima(o, ops, session);
      }
    }
  }

  // ---- The end ---------------------------------------------------------------------------------

  /** An overflow replaces everything queued by one frame, the last the client is ever handed. */
  lemma {:induction false} OverflowIsTheLastFrame(o: Options, before: seq<Op>, e: Event, later: seq<Op>)
    requires !Run(o, before).done && Run(o, before + [DoEmit(e)]).done && forall op :: op in later ==> !op.DoClose?
    ensures var s := Run(o, before + [DoEmit(e)] + later);
      s.done && All(s) == Run(o, before).taken + [OverflowFrame]
  {
    var ops := before + [DoEmit(e)];
    if later == [] {
      assert ops + later == ops && ops[..|before|] == before;
      RunKeeps(o, before);
      EmitShape(o, Run(o, before), e);
    } else {
      var n := |later| - 1;
      assert (ops + later)[..|ops + later| - 1] == ops + later[..n];
      OverflowIsTheLastFrame(o, before, e, later[..n]);
      var s := Run(o, ops + later[..n]);
      assert later[n] in later;
      if s.queue != [] { AllAfterTake(o, s); }
    }
  }

  lemma AllAfterTake(o: Options, s: State)
    requires s.queue != []
    ensures All(Take(o, s)) == All(s)
  {}

  /** Control events: the same one is not handed over again before `maxSeen` others that carry an identity. */
  ghost predicate Spaced(keys: seq<Key>, gap: nat) {
    forall i, j :: 0 <= i < j < |keys| && keys[i] == keys[j] ==> j - i > gap
  }

  lemma SpacedAppend(keys: seq<Key>, key: Key, gap: nat)
    requires Spaced(keys, gap) && key !in Trim(keys, gap)
    ensures Spaced(keys + [key], gap)
  {
    forall i | 0 <= i < |keys| && |keys| - i <= gap ensures keys[i] != key {
      NewestInTrim(keys, gap, i);
    }
  }

  lemma NewestInTrim(keys: seq<Key>, gap: nat, i: nat)
    requires i < |keys| && |keys| - i <= gap
    ensures keys[i] in Trim(keys, gap)
  {
    assert Trim(keys, gap)[if |keys| <= gap then i else i - (|keys| - gap)] == keys[i];
  }

  lemma {:induction false} NoControlRepeatsSoon(o: Options, ops: seq<Op>)
    requires !Run(o, ops).done
    ensures Spaced(Keys(All(Run(o, ops))), o.maxSeen)
  {
    if ops != [] {
      var n := |ops| - 1;
      var s := Run(o, ops[..n]);
      RunKeeps(o, ops[..n]);
      DoneStays(o, s, ops[n]);
      NoControlRepeatsSoon(o, ops[..n]);
      match ops[n]
      case DoEmit(e) => EmittedSpaced(o, s, e);
      case DoTake => if s.queue != [] { AllAfterTake(o, s); }
      case DoClose =>
    }
  }

  lemma EmittedSpaced(o: Options, s: State, e: Event)
    requires Invariant(o, s) && !Emit(o, s, e).done && Spaced(Keys(All(s)), o.maxSeen)
    ensures Spaced(Keys(All(Emit(o, s, e))), o.maxSeen)
  {
    EmitShape(o, s, e);
    if News(o, s, e) {
      JoinedAll(s, e);
      AppendFrame(All(s), Live(e), "");
      if KeyOf(e).Some? { SpacedAppend(Keys(All(s)), KeyOf(e).value, o.maxSeen); }
    }
  }
}
