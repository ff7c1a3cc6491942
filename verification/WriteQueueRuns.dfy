/** What the write queue keeps in every reachable state: one write at a time per session, in submission order, and none
    after an unknown outcome. */
module WriteQueueRuns {
  import opened Prelude
  import opened WriteQueue

  predicate Chained(w: Write) {
    !w.phase.Rejected?
  }

  /** The operation was invoked on the service. */
  predicate Began(w: Write) {
    w.phase.Running? || ((w.phase.Settled? || w.phase.Retired?) && w.phase.outcome != Refused)
  }

  predicate EndedUnknown(w: Write) {
    (w.phase.Settled? || w.phase.Retired?) && w.phase.outcome == Unknown
  }

  /** `a` and `b` are chained writes of one session, `a` submitted first. */
  predicate Earlier(w: seq<Write>, a: int, b: int) {
    0 <= a < b < |w| && w[a].id == w[b].id && Chained(w[a]) && Chained(w[b])
  }

  /** The predecessor is the last chained write before; without one, all earlier writes have retired. */
  ghost predicate Linked(w: seq<Write>) {
    && (forall a, b :: Earlier(w, a, b) ==> if w[b].previous.Some? then a <= w[b].previous.value
       else w[a].phase.Retired?)
    && (forall b :: 0 <= b < |w| && Chained(w[b]) && w[b].previous.Some? ==> Earlier(w, w[b].previous.value, b))
  }

  /** A write leaves the waiting state only after every earlier write of its session has retired. */
  ghost predicate Serial(w: seq<Write>) {
    forall a, b :: Earlier(w, a, b) && !w[b].phase.Waiting? ==> w[a].phase.Retired?
  }

  /** `queues` names the last chained write of exactly those sessions whose writes have not all retired. */
  ghost predicate QueuesExact(w: seq<Write>, queues: map<string, nat>) {
    && (forall t :: 0 <= t < |w| && Chained(w[t]) ==> if w[t].id in queues then t <= queues[w[t].id]
       else w[t].phase.Retired?)
    && (forall id :: id in queues ==>
       queues[id] < |w| && w[queues[id]].id == id && Chained(w[queues[id]]) && !w[queues[id]].phase.Retired?)
  }

  /** Service invocations: exactly the writes that began, each once, one session's in submission order. */
  ghost predicate StartedExact(w: seq<Write>, started: seq<nat>) {
    && (forall i :: 0 <= i < |started| ==> started[i] < |w| && Began(w[started[i]]))
    && (forall t :: 0 <= t < |w| && Began(w[t]) ==> t in started)
    && (forall i, j :: 0 <= i < j < |started| && w[started[i]].id == w[started[j]].id ==> started[i] < started[j])
  }

  ghost predicate HasUnknown(w: seq<Write>, id: string) {
    exists t :: 0 <= t < |w| && w[t].id == id && EndedUnknown(w[t])
  }

  /** The latch holds exactly the sessions with a write whose outcome is unknown, and none of these is running. */
  ghost predicate LatchExact(w: seq<Write>, uncertain: set<string>) {
    && (forall id :: id in uncertain <==> HasUnknown(w, id))
    && (forall t :: 0 <= t < |w| && w[t].phase.Running? ==> w[t].id !in uncertain)
  }

  ghost predicate Invariant(s: State) {
    Linked(s.writes) && Serial(s.writes) && QueuesExact(s.writes, s.queues) && StartedExact(s.writes, s.started)
      && LatchExact(s.writes, s.uncertain)
  }

  // ---- Submitting ------------------------------------------------------------------------------

  lemma EarlierAppend(w: seq<Write>, x: Write, a: int, b: int)
    ensures b < |w| ==> (Earlier(w + [x], a, b) <==> Earlier(w, a, b))
  {}

  lemma SubmitLinks(s: State, id: string)
    requires Linked(s.writes) && Serial(s.writes) && QueuesExact(s.writes, s.queues)
    ensures Linked(Submit(s, id).writes) && Serial(Submit(s, id).writes)
  {
    var w := Submit(s, id).writes;
    forall a, b ensures b < |s.writes| ==> (Earlier(w, a, b) <==> Earlier(s.writes, a, b)) {
      EarlierAppend(s.writes, w[|s.writes|], a, b);
    }
  }

  lemma SubmitQueues(s: State, id: string)
    requires QueuesExact(s.writes, s.queues)
    ensures QueuesExact(Submit(s, id).writes, Submit(s, id).queues)
  {}

  lemma SubmitStarted(s: State, id: string)
    requires StartedExact(s.writes, s.started)
    ensures StartedExact(Submit(s, id).writes, Submit(s, id).started)
  {}

  lemma SubmitLatch(s: State, id: string)
    requires LatchExact(s.writes, s.uncertain)
    ensures LatchExact(Submit(s, id).writes, Submit(s, id).uncertain)
  {
    var w := Submit(s, id).writes;
    forall k ensures HasUnknown(w, k) <==> HasUnknown(s.writes, k) {
      if HasUnknown(s.writes, k) {
        var t :| 0 <= t < |s.writes| && s.writes[t].id == k && EndedUnknown(s.writes[t]);
        assert w[t] == s.writes[t];
      }
    }
  }

  lemma SubmitKeeps(s: State, id: string)
    requires Invariant(s)
    ensures Invariant(Submit(s, id))
  {
    hide Linked, Serial, QueuesExact, StartedExact, LatchExact, Submit;
    SubmitLinks(s, id);
    SubmitQueues(s, id);
    SubmitStarted(s, id);
    SubmitLatch(s, id);
  }

  // ---- Moving a write on -----------------------------------------------------------------------

  function Moved(w: seq<Write>, t: nat, phase: Phase): seq<Write>
    requires t < |w|
  {
    w[t := w[t].(phase := phase)]
  }

  /** Every earlier write of the session has retired when a write's turn comes. */
  lemma ReadyMeansAlone(s: State, t: nat, a: nat)
    requires Linked(s.writes) && Serial(s.writes) && Ready(s, t) && Earlier(s.writes, a, t)
    ensures s.writes[a].phase.Retired?
  {
    if s.writes[t].previous.Some? {
      var p := s.writes[t].previous.value;
      if a < p { assert Earlier(s.writes, a, p); }
    }
  }

  /** Moving a live write on, once its elders have retired, keeps the chain. */
  lemma MovedLinks(w: seq<Write>, t: nat, phase: Phase)
    requires Linked(w) && Serial(w) && t < |w| && Chained(w[t]) && !w[t].phase.Retired?
    requires !phase.Waiting? && !phase.Rejected? && forall a :: Earlier(w, a, t) ==> w[a].phase.Retired?
    ensures Linked(Moved(w, t, phase)) && Serial(Moved(w, t, phase))
  {
    var u := Moved(w, t, phase);
    assert forall a, b :: Earlier(u, a, b) <==> Earlier(w, a, b);
  }

  lemma MovedQueues(w: seq<Write>, queues: map<string, nat>, t: nat, phase: Phase)
    requires QueuesExact(w, queues) && t < |w| && Chained(w[t]) && !w[t].phase.Retired? && !phase.Retired?
      && !phase.Rejected?
    ensures QueuesExact(Moved(w, t, phase), queues)
  {}

  /** A move within or outside the service keeps the record of invocations. */
  lemma MovedStarted(w: seq<Write>, started: seq<nat>, t: nat, phase: Phase)
    requires StartedExact(w, started) && t < |w| && Began(w[t]) == Began(w[t].(phase := phase))
    ensures StartedExact(Moved(w, t, phase), started)
  {}

  lemma MovedLatch(w: seq<Write>, uncertain: set<string>, t: nat, phase: Phase)
    requires LatchExact(w, uncertain) && t < |w|
    requires EndedUnknown(w[t]) == EndedUnknown(w[t].(phase := phase)) && (phase.Running? ==> w[t].id !in uncertain)
    ensures LatchExact(Moved(w, t, phase), uncertain)
  {
    var u := Moved(w, t, phase);
    forall k ensures HasUnknown(u, k) <==> HasUnknown(w, k) {
      if HasUnknown(w, k) {
        var i :| 0 <= i < |w| && w[i].id == k && EndedUnknown(w[i]);
        assert EndedUnknown(u[i]);
      }
      if HasUnknown(u, k) {
        var i :| 0 <= i < |u| && u[i].id == k && EndedUnknown(u[i]);
        assert EndedUnknown(w[i]);
      }
    }
  }

  lemma BegunStarted(w: seq<Write>, started: seq<nat>, t: nat)
    requires Serial(w) && StartedExact(w, started) && t < |w| && w[t].phase.Waiting?
    ensures StartedExact(Moved(w, t, Running), started + [t])
  {
    var u := Moved(w, t, Running);
    forall i | 0 <= i < |started| && w[started[i]].id == w[t].id ensures started[i] < t {
      if started[i] > t { assert Earlier(w, t, started[i]); }
    }
    forall x | 0 <= x < |u| && Began(u[x]) ensures x in started + [t] {
      if x != t { assert Began(w[x]); }
    }
  }

  lemma BeginKeeps(s: State, t: nat)
    requires Invariant(s) && Ready(s, t)
    ensures Invariant(Begin(s, t))
  {
    forall a | Earlier(s.writes, a, t) ensures s.writes[a].phase.Retired? {
      ReadyMeansAlone(s, t, a);
    }
    hide Linked, Serial, QueuesExact, StartedExact, LatchExact;
    var phase := if s.writes[t].id in s.uncertain then Settled(Refused) else Running;
    MovedLinks(s.writes, t, phase);
    MovedQueues(s.writes, s.queues, t, phase);
    MovedLatch(s.writes, s.uncertain, t, phase);
    if phase.Running? { BegunStarted(s.writes, s.started, t); } else { MovedStarted(s.writes, s.started, t, phase); }
  }

  lemma FinishedLatch(w: seq<Write>, uncertain: set<string>, t: nat)
    requires Serial(w) && LatchExact(w, uncertain) && t < |w| && w[t].phase.Running?
    ensures LatchExact(Moved(w, t, Settled(Unknown)), uncertain + {w[t].id})
  {
    var u := Moved(w, t, Settled(Unknown));
    assert EndedUnknown(u[t]);
    forall k ensures HasUnknown(u, k) <==> HasUnknown(w, k) || k == w[t].id {
      if HasUnknown(w, k) {
        var i :| 0 <= i < |w| && w[i].id == k && EndedUnknown(w[i]);
        assert EndedUnknown(u[i]);
      }
    }
    forall i | 0 <= i < |u| && u[i].phase.Running? ensures u[i].id != w[t].id {
      RunningAlone(w, t, i);
    }
  }

  /** Two running writes belong to different sessions. */
  lemma RunningAlone(w: seq<Write>, t: nat, i: nat)
    requires Serial(w) && t < |w| && i < |w| && t != i && w[t].phase.Running? && w[i].phase.Running?
    ensures w[i].id != w[t].id
  {
    assert Earlier(w, i, t) || Earlier(w, t, i) || w[i].id != w[t].id;
  }

  lemma EldersRetired(w: seq<Write>, t: nat)
    requires Serial(w) && t < |w| && !w[t].phase.Waiting?
    ensures forall a :: Earlier(w, a, t) ==> w[a].phase.Retired?
  {}

  lemma FinishKeeps(s: State, t: nat, outcome: Outcome)
    requires Invariant(s) && t < |s.writes| && s.writes[t].phase.Running? && outcome != Refused
    ensures Invariant(Finish(s, t, outcome))
  {
    hide Linked, Serial, QueuesExact, StartedExact, LatchExact;
    EldersRetired(s.writes, t);
    MovedLinks(s.writes, t, Settled(outcome));
    MovedQueues(s.writes, s.queues, t, Settled(outcome));
    MovedStarted(s.writes, s.started, t, Settled(outcome));
    if outcome.Unknown? {
      FinishedLatch(s.writes, s.uncertain, t); } else { MovedLatch(s.writes, s.uncertain, t, Settled(outcome));
    }
  }

  lemma RetiredQueues(s: State, t: nat)
    requires Serial(s.writes) && QueuesExact(s.writes, s.queues) && t < |s.writes| && s.writes[t].phase.Settled?
    ensures QueuesExact(Retire(s, t).writes, Retire(s, t).queues)
  {
    var u := Retire(s, t);
    forall a | 0 <= a < |u.writes| && Chained(u.writes[a]) && u.writes[a].id !in u.queues
      ensures u.writes[a].phase.Retired? {
      if a < t && s.writes[a].id == s.writes[t].id { assert Earlier(s.writes, a, t); }
    }
  }

  lemma RetireKeeps(s: State, t: nat)
    requires Invariant(s) && t < |s.writes| && s.writes[t].phase.Settled?
    ensures Invariant(Retire(s, t))
  {
    hide Linked, Serial, QueuesExact, StartedExact, LatchExact;
    var phase := Retired(s.writes[t].phase.outcome);
    EldersRetired(s.writes, t);
    MovedLinks(s.writes, t, phase);
    RetiredQueues(s, t);
    MovedStarted(s.writes, s.started, t, phase);
    MovedLatch(s.writes, s.uncertain, t, phase);
  }

  lemma NextKeeps(s: State, op: Op)
    requires Invariant(s)
    ensures Invariant(Next(s, op))
  {
    hide Invariant, Submit, Begin, Finish, Retire;
    match op
    case DoSubmit(id) => SubmitKeeps(s, id);
    case DoBegin(t) => if Ready(s, t) { BeginKeeps(s, t); }
    case DoFinish(t, outcome) => if t < |s.writes| && s.writes[t].phase.Running?
      && outcome != Refused { FinishKeeps(s, t, outcome); }
    case DoRetire(t) => if t < |s.writes| && s.writes[t].phase.Settled? { RetireKeeps(s, t); }
  }

  lemma {:induction false} RunKeeps(s: State, ops: seq<Op>)
    requires Invariant(s)
    ensures Invariant(RunFrom(s, ops))
  {
    if ops != [] {
      hide Invariant, Next;
      RunKeeps(s, ops[..|ops| - 1]);
      NextKeeps(RunFrom(s, ops[..|ops| - 1]), ops[|ops| - 1]);
    }
  }

  // ---- What it means ---------------------------------------------------------------------------

  lemma ReachableKeeps(ops: seq<Op>)
    ensures Invariant(RunFrom(IDLE, ops))
  {
    assert Invariant(IDLE);
    hide Invariant;
    RunKeeps(IDLE, ops);
  }

  /** In every reachable state at most one write of a session runs. */
  lemma OneWriteAtATime(ops: seq<Op>, a: nat, b: nat)
    requires var w := RunFrom(IDLE, ops).writes;
      a < |w| && b < |w| && a != b && w[a].phase.Running? && w[b].phase.Running?
    ensures RunFrom(IDLE, ops).writes[a].id != RunFrom(IDLE, ops).writes[b].id
  {
    ReachableKeeps(ops);
    RunningAlone(RunFrom(IDLE, ops).writes, b, a);
  }

  /** The tickets of one session among those started. */
  function StartedOf(started: seq<nat>, w: seq<Write>, id: string): seq<nat> {
    if started == [] then []
    else
      var t := started[|started| - 1];
      StartedOf(started[..|started| - 1], w, id) + if t < |w| && w[t].id == id then [t] else []
  }

  lemma {:induction false} StartedOfSame(started: seq<nat>, before: seq<Write>, after: seq<Write>, id: string)
    requires |before| <= |after| && forall i :: 0 <= i < |started| ==> started[i] < |before|
    requires forall t :: 0 <= t < |before| ==> after[t].id == before[t].id
    ensures StartedOf(started, after, id) == StartedOf(started, before, id)
  {
    if started != [] {
      StartedOfSame(started[..|started| - 1], before, after, id);
    }
  }

  /** One session's writes reach the service in the order they were submitted. */
  lemma {:induction false} StartsAscend(w: seq<Write>, started: seq<nat>, id: string)
    requires forall i :: 0 <= i < |started| ==> started[i] < |w|
    requires forall i, j :: 0 <= i < j < |started| && w[started[i]].id == w[started[j]].id ==> started[i] < started[j]
    ensures forall t :: t in StartedOf(started, w, id) ==> t in started && t < |w| && w[t].id == id
    ensures forall i, j :: 0 <= i < j < |StartedOf(started, w, id)| ==>
      StartedOf(started, w, id)[i] < StartedOf(started, w, id)[j]
  {
    if started != [] {
      var n := |started| - 1;
      StartsAscend(w, started[..n], id);
      var mine := StartedOf(started[..n], w, id);
      forall i | 0 <= i < |mine| && w[started[n]].id == id ensures mine[i] < started[n] {
        assert mine[i] in mine;
        var k :| 0 <= k < n && started[k] == mine[i];
      }
    }
  }

  lemma InSubmissionOrder(ops: seq<Op>, id: string)
    ensures var s := RunFrom(IDLE, ops); var mine := StartedOf(s.started, s.writes, id);
      forall i, j :: 0 <= i < j < |mine| ==> mine[i] < mine[j]
  {
    ReachableKeeps(ops);
    StartsAscend(RunFrom(IDLE, ops).writes, RunFrom(IDLE, ops).started, id);
  }

  /** What one turn does to the writes and to the record of invocations. */
  lemma TurnShape(s: State, op: Op)
    ensures var t := Next(s, op);
      && |s.writes| <= |t.writes| && (forall i :: 0 <= i < |s.writes| ==> t.writes[i].id == s.writes[i].id)
      && (t.started == s.started
         || (op.DoBegin? && op.t < |s.writes| && s.writes[op.t].id !in s.uncertain && t.started == s.started + [op.t]))
      && s.uncertain <= t.uncertain
  {}

  lemma TurnStarts(s: State, op: Op, id: string)
    requires forall i :: 0 <= i < |s.started| ==> s.started[i] < |s.writes|
    requires id in s.uncertain || !About(s, op, id)
    ensures StartedOf(Next(s, op).started, Next(s, op).writes, id) == StartedOf(s.started, s.writes, id)
  {
    hide Next;
    var t := Next(s, op);
    TurnShape(s, op);
    StartedOfSame(s.started, s.writes, t.writes, id);
    if t.started != s.started {
      assert t.started[..|s.started|] == s.started;
    }
  }

  /** The latch: after a write of the session ended with an unknown outcome, no further write of it reaches the
      service. */
  lemma {:induction false} NothingAfterUnknown(s: State, ops: seq<Op>, id: string)
    requires Invariant(s) && HasUnknown(s.writes, id)
    ensures id in RunFrom(s, ops).uncertain
    ensures StartedOf(RunFrom(s, ops).started, RunFrom(s, ops).writes, id) == StartedOf(s.started, s.writes, id)
  {
    if ops != [] {
      NothingAfterUnknown(s, ops[..|ops| - 1], id);
      RunKeeps(s, ops[..|ops| - 1]);
      TurnShape(RunFrom(s, ops[..|ops| - 1]), ops[|ops| - 1]);
      TurnStarts(RunFrom(s, ops[..|ops| - 1]), ops[|ops| - 1], id);
      hide Next;
    }
  }

  /** The session a turn is about. */
  predicate About(s: State, op: Op, id: string) {
    match op
    case DoSubmit(k) => k == id
    case DoBegin(t) => t < |s.writes| && s.writes[t].id == id
    case DoFinish(t, _) => t < |s.writes| && s.writes[t].id == id
    case DoRetire(t) => t < |s.writes| && s.writes[t].id == id
  }

  lemma OtherWritesUntouched(s: State, op: Op, id: string)
    requires !About(s, op, id)
    ensures var t := Next(s, op);
      forall i :: 0 <= i < |t.writes| && t.writes[i].id == id ==> i < |s.writes| && t.writes[i] == s.writes[i]
  {}

  lemma OtherQueueUntouched(s: State, op: Op, id: string)
    requires !About(s, op, id)
    ensures var t := Next(s, op);
      (id in t.queues <==> id in s.queues) && (id in s.queues ==> t.queues[id] == s.queues[id])
        && (id in t.uncertain <==> id in s.uncertain)
  {}

  /** A turn about another session leaves this one alone: its writes, its queue, its latch and what it has started. */
  lemma OthersUntouched(s: State, op: Op, id: string)
    requires Invariant(s) && !About(s, op, id)
    ensures var t := Next(s, op);
      && (forall i :: 0 <= i < |t.writes| && t.writes[i].id == id ==> i < |s.writes| && t.writes[i] == s.writes[i])
      && (id in t.queues <==> id in s.queues) && (id in s.queues ==> t.queues[id] == s.queues[id])
      && (id in t.uncertain <==> id in s.uncertain)
      && StartedOf(t.started, t.writes, id) == StartedOf(s.started, s.writes, id)
  {
    hide Next, StartedOf, Linked, Serial, QueuesExact, LatchExact;
    OtherWritesUntouched(s, op, id);
    OtherQueueUntouched(s, op, id);
    TurnStarts(s, op, id);
  }

  /** Never stuck: while a session has an unfinished write, its oldest one can take its next turn. */
  lemma NeverStuck(ops: seq<Op>, t: nat)
    requires var w := RunFrom(IDLE, ops).writes; t < |w| && Chained(w[t]) && !w[t].phase.Retired?
    requires forall a :: Earlier(RunFrom(IDLE, ops).writes, a, t) ==> RunFrom(IDLE, ops).writes[a].phase.Retired?
    ensures var s := RunFrom(IDLE, ops); Ready(s, t) || s.writes[t].phase.Running? || s.writes[t].phase.Settled?
  {
    ReachableKeeps(ops);
    hide RunFrom, Serial, QueuesExact, StartedExact, LatchExact;
  }
}
