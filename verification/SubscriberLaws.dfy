/** What a subscriber does with each event, said of the event, the filters and the frames it has been given before. */
module SubscriberLaws {
  import opened Prelude
  import opened Subscriber
  import opened SubscriberRuns

  // ---- Keys ------------------------------------------------------------------------------------

  /** The frame is an event of this session with this seq. */
  predicate Numbered(f: Frame, session: string, n: int) {
    f.Live? && f.event.session == Some(session) && f.event.seqNo == Some(n)
  }

  /** The frame is a control event about this topic. */
  predicate About(f: Frame, topic: string) {
    f.Live? && f.event.topic == Some(topic) && (f.event.session.None? || f.event.seqNo.None?)
  }

  predicate Keyed(f: Frame) {
    f.Live? && ((f.event.session.Some? && f.event.seqNo.Some?) || f.event.topic.Some?)
  }

  lemma KeyLaw(e: Event)
    ensures forall session, n :: KeyOf(e) == Some(EventKey(session, n)) <==> Numbered(Live(e), session, n)
    ensures forall topic :: KeyOf(e) == Some(TopicKey(topic)) <==> About(Live(e), topic)
    ensures KeyOf(e).Some? <==> Keyed(Live(e))
  {}

  /** How many of the frames have a key. */
  function CountKeyed(frames: seq<Frame>): nat {
    if frames == [] then 0
    else CountKeyed(frames[..|frames| - 1]) + if Keyed(frames[|frames| - 1]) then 1 else 0
  }

  /** Frame `i` is about the topic, and fewer than `limit` frames with keys came after it. */
  predicate RecentAt(frames: seq<Frame>, topic: string, limit: nat, i: nat) {
    i < |frames| && About(frames[i], topic) && CountKeyed(frames[i + 1..]) < limit
  }

  ghost predicate Recent(frames: seq<Frame>, topic: string, limit: nat) {
    exists i: nat :: RecentAt(frames, topic, limit, i)
  }

  lemma CountAfter(frames: seq<Frame>, f: Frame, i: nat)
    requires i < |frames|
    ensures CountKeyed((frames + [f])[i + 1..]) == CountKeyed(frames[i + 1..]) + if Keyed(f) then 1 else 0
  {
    assert (frames + [f])[i + 1..][..|frames| - i - 1] == frames[i + 1..];
  }

  lemma RecentAppend(frames: seq<Frame>, f: Frame, topic: string, limit: nat)
    ensures Recent(frames + [f], topic, limit) <==>
            || (limit > 0 && About(f, topic))
            || (if Keyed(f) then limit > 0 && Recent(frames, topic, limit - 1) else Recent(frames, topic, limit))
  {
    var all, less: nat := frames + [f], if Keyed(f) && limit > 0 then limit - 1 else limit;
    assert all[|frames| + 1..] == [];
    hide Keyed, About, CountKeyed;
    if i: nat :| RecentAt(all, topic, limit, i) {
      if i < |frames| {
        CountAfter(frames, f, i);
        assert RecentAt(frames, topic, less, i);
      }
    }
    if i: nat :| RecentAt(frames, topic, less, i) {
      CountAfter(frames, f, i);
      if !Keyed(f) || limit > 0 { assert RecentAt(all, topic, limit, i); }
    }
    assert CountKeyed([]) == 0 by { EmptyHasNone(); }
    if limit > 0 && About(f, topic) { assert RecentAt(all, topic, limit, |frames|); }
  }

  lemma EmptyHasNone()
    ensures CountKeyed([]) == 0
  {}

  /** The newest keys hold a topic exactly if it is recent. */
  lemma {:induction false} TrimmedKeys(frames: seq<Frame>, topic: string, limit: nat)
    ensures TopicKey(topic) in Trim(Keys(frames), limit) <==> Recent(frames, topic, limit)
  {
    hide *;
    if frames != [] {
      var front, f := frames[..|frames| - 1], frames[|frames| - 1];
      assert frames == front + [f];
      RecentAppend(front, f, topic, limit);
      TrimStep(front, f, topic, limit);
      if !Keyed(f) {
        TrimmedKeys(front, topic, limit);
      } else if limit > 0 {
        TrimmedKeys(front, topic, limit - 1);
      }
    } else {
      NothingTrimmed(topic, limit);
    }
  }

  lemma NothingTrimmed(topic: string, limit: nat)
    ensures TopicKey(topic) !in Trim(Keys([]), limit) && !Recent([], topic, limit)
  {
    assert Keys([]) == [];
  }

  /** What one more frame does to the newest keys. */
  lemma TrimStep(front: seq<Frame>, f: Frame, topic: string, limit: nat)
    ensures About(f, topic) ==> Keyed(f)
    ensures TopicKey(topic) in Trim(Keys(front + [f]), limit) <==>
            || (limit > 0 && About(f, topic))
            || (if Keyed(f) then limit > 0 && TopicKey(topic) in Trim(Keys(front), limit - 1)
                else TopicKey(topic) in Trim(Keys(front), limit))
  {
    AppendFrame(front, f, "");
    hide Keys;
    if f.Live? { KeyLaw(f.event); }
    if Keyed(f) {
      var key := KeyOf(f.event).value;
      assert About(f, topic) <==> key == TopicKey(topic);
      if limit > 0 { TrimLast(Keys(front), key, limit); }
    } else {
      assert Keys(front + [f]) == Keys(front);
    }
  }

  lemma TrimLast(keys: seq<Key>, key: Key, limit: nat)
    requires limit > 0
    ensures Trim(keys + [key], limit) == Trim(keys, limit - 1) + [key]
  {}

  // ---- What becomes of an event ----------------------------------------------------------------

  /** The event belongs to the channel, to the session asked for if it has a session, and it is no older than asked
      for. */
  predicate Asked(o: Options, e: Event) {
    && o.belongs(e)
    && (o.session.Some? && e.session.Some? ==> e.session.value == "" || e.session == o.session)
    && (e.seqNo.Some? && o.sinceSeq.Some? ==> e.seqNo.value > o.sinceSeq.value)
  }

  /** Every frame so far of the event's session has a smaller seq. */
  ghost predicate Newest(frames: seq<Frame>, session: string, n: int) {
    forall i, q :: 0 <= i < |frames| && Numbered(frames[i], session, q) ==> q < n
  }

  /** The event is asked for, its seq is new to its session, and a control event's topic is not recent. */
  ghost predicate IsNews(o: Options, frames: seq<Frame>, e: Event) {
    && Asked(o, e)
    && (e.session.Some? && e.seqNo.Some? ==> Newest(frames, e.session.value, e.seqNo.value))
    && ((e.session.None? || e.seqNo.None?) && e.topic.Some? ==> !Recent(frames, e.topic.value, o.maxSeen))
  }

  function Bytes(o: Options, frames: seq<Frame>): int {
    if frames == [] then 0
    else (match frames[0] case Live(e) => e.bytes case OverflowFrame => o.overflowBytes) + Bytes(o, frames[1..])
  }

  /** One more event would exceed the limits. */
  predicate TooSlow(o: Options, queue: seq<Frame>, e: Event) {
    |queue| + 1 > o.maxQueue || Bytes(o, queue) + e.bytes > o.maxBytes
  }

  lemma {:induction false} BytesAreSum(o: Options, frames: seq<Frame>)
    ensures Bytes(o, frames) == Sum(o, frames)
  {
    if frames != [] { BytesAreSum(o, frames[1..]); }
  }

  lemma {:induction false} RisingHoldsAll(frames: seq<Frame>, session: string, i: nat)
    requires i < |frames| && frames[i].Live? && Of(frames[i].event, session)
    ensures frames[i].event.seqNo.value in Received(frames, session)
  {
    var n := |frames| - 1;
    if i < n { RisingHoldsAll(frames[..n], session, i); }
  }

  lemma {:induction false} ReceivedHolds(frames: seq<Frame>, session: string, q: int) returns (i: nat)
    requires q in Received(frames, session)
    ensures i < |frames| && frames[i].Live? && Of(frames[i].event, session) && frames[i].event.seqNo.value == q
  {
    var n := |frames| - 1;
    if q in Received(frames[..n], session) { i := ReceivedHolds(frames[..n], session, q); } else { i := n; }
  }

  lemma NewestLaw(frames: seq<Frame>, session: string, n: int)
    requires Rising(Received(frames, session), None)
    ensures var r := Received(frames, session);
      Newest(frames, session, n) <==> r == [] || r[|r| - 1] < n
  {
    var r := Received(frames, session);
    if Newest(frames, session, n) && r != [] {
      var i := ReceivedHolds(frames, session, r[|r| - 1]);
      assert Numbered(frames[i], session, r[|r| - 1]);
    }
    if r == [] || r[|r| - 1] < n {
      forall i, q | 0 <= i < |frames| && Numbered(frames[i], session, q) ensures q < n {
        RisingHoldsAll(frames, session, i);
      }
    }
  }

  lemma ReceivedRises(o: Options, ops: seq<Op>, session: string)
    requires !Run(o, ops).done
    ensures Rising(Received(All(Run(o, ops)), session), None)
  {
    ReceivedIsMaxima(o, ops, session);
    MaximaRise(Offered(o, ops, session), o.sinceSeq);
  }

  lemma NewsLaw(o: Options, ops: seq<Op>, e: Event)
    requires !Run(o, ops).done
    ensures News(o, Run(o, ops), e) <==> IsNews(o, All(Run(o, ops)), e)
  {
    var s := Run(o, ops);
    RunKeeps(o, ops);
    EmitShape(o, s, e);
    KeyLaw(e);
    assert Wanted(o, e) <==> Asked(o, e);
    if e.session.Some? && e.seqNo.Some? {
      ReceivedRises(o, ops, e.session.value);
      NewestLaw(All(s), e.session.value, e.seqNo.value);
      assert LastOf(s, e.session.value);
    } else if e.topic.Some? {
      TrimmedKeys(All(s), e.topic.value, o.maxSeen);
    }
    hide Run, Received, Keys, Newest, Recent, Accounted, EndsOnce, Emit, Rising;
  }

  /** EMITTED. What an event leads to, from every reachable state: nothing, once the subscriber is done or when the
      event is no news; else it is queued behind the others, unless that would exceed a limit: then all that is queued
      gives way to one overflow frame, and the subscriber is done. */
  lemma Emitted(o: Options, ops: seq<Op>, e: Event)
    ensures var s, t := Run(o, ops), Run(o, ops + [DoEmit(e)]);
      t.taken == s.taken &&
      if s.done || !IsNews(o, s.taken + s.queue, e) then t.queue == s.queue && t.done == s.done
      else if TooSlow(o, s.queue, e) then t.queue == [OverflowFrame] && t.done
      else t.queue == s.queue + [Live(e)] && !t.done
  {
    var s := Run(o, ops);
    RunKeeps(o, ops);
    LastStep(o, ops, DoEmit(e));
    EmitShape(o, s, e);
    BytesAreSum(o, s.queue);
    if !s.done { NewsLaw(o, ops, e); }
    hide Run, IsNews, Emit, EndsOnce, SeenExact, LastExact, PassedExact, Sum, Bytes;
  }

  lemma LastStep(o: Options, ops: seq<Op>, op: Op)
    ensures Run(o, ops + [op]) == Next(o, Run(o, ops), op)
  {
    assert (ops + [op])[..|ops|] == ops;
  }

  /** TAKEN AND CLOSED. A take hands over the oldest frame; closing empties the queue for good. */
  lemma TakenAndClosed(o: Options, ops: seq<Op>)
    ensures var s, t := Run(o, ops), Run(o, ops + [DoTake]);
      t.done == s.done && (if s.queue == [] then t.queue == [] && t.taken == s.taken
                           else t.queue == s.queue[1..] && t.taken == s.taken + [s.queue[0]])
    ensures var s, t := Run(o, ops), Run(o, ops + [DoClose]); t.queue == [] && t.taken == s.taken && t.done
  {
    LastStep(o, ops, DoTake);
    LastStep(o, ops, DoClose);
    hide Run;
  }
}
