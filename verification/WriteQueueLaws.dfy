/** What each turn does to the writes, said of the writes before it. */
module WriteQueueLaws {
  import opened Prelude
  import opened WriteQueue
  import opened WriteQueueRuns

  /** The last chained write of the session, if it has not retired. */
  predicate Newest(w: seq<Write>, id: string, t: nat) {
    && t < |w| && w[t].id == id && Chained(w[t]) && !w[t].phase.Retired?
    && forall i :: t < i < |w| && w[i].id == id ==> !Chained(w[i])
  }

  /** SUBMITTED. A session with a write of unknown outcome has every later one turned away; otherwise the write waits
      for the session's newest unfinished one, or for none if there is none. */
  lemma Submitted(ops: seq<Op>, id: string)
    ensures var s, t := RunFrom(IDLE, ops), RunFrom(IDLE, ops + [DoSubmit(id)]);
      && |t.writes| == |s.writes| + 1 && t.writes[..|s.writes|] == s.writes && t.started == s.started
      && var w := t.writes[|s.writes|];
      && w.id == id
      && if HasUnknown(s.writes, id) then w.phase.Rejected?
         else
           && w.phase.Waiting?
           && (w.previous.Some? ==> Newest(s.writes, id, w.previous.value))
           && (w.previous.None? ==> forall i :: 0 <= i < |s.writes| && s.writes[i].id == id && Chained(s.writes[i]) ==>
                 s.writes[i].phase.Retired?)
  {
    var s := RunFrom(IDLE, ops);
    ReachableKeeps(ops);
    LastTurn(ops, DoSubmit(id));
    hide RunFrom, Linked, Serial, StartedExact, HasUnknown;
  }

  lemma LastTurn(ops: seq<Op>, op: Op)
    ensures RunFrom(IDLE, ops + [op]) == Next(RunFrom(IDLE, ops), op)
  {
    assert (ops + [op])[..|ops|] == ops;
  }

  /** The write waits, and every earlier write of its session that was not turned away has retired. */
  ghost predicate Due(w: seq<Write>, t: nat) {
    t < |w| && w[t].phase.Waiting? && forall a :: Earlier(w, a, t) ==> w[a].phase.Retired?
  }

  lemma DueLaw(s: State, t: nat)
    requires Invariant(s)
    ensures Ready(s, t) <==> Due(s.writes, t)
  {
    if Ready(s, t) {
      forall a | Earlier(s.writes, a, t) ensures s.writes[a].phase.Retired? { ReadyMeansAlone(s, t, a); }
    }
    if Due(s.writes, t) && s.writes[t].previous.Some? { assert Earlier(s.writes, s.writes[t].previous.value, t); }
    hide Serial, QueuesExact, StartedExact, LatchExact;
  }

  /** Only write `t` has changed, to this phase. */
  ghost predicate MovesTo(s: State, u: State, t: nat, phase: Phase)
    requires t < |s.writes|
  {
    u.writes == s.writes[t := s.writes[t].(phase := phase)]
  }

  /** TURNS. A write that is due runs, and that is the one time it is handed to the service, unless its session has an
      unknown outcome: then it is refused. A running write settles as the service ends it; a settled one retires. No
      other turn changes anything. */
  lemma Turns(ops: seq<Op>, t: nat, outcome: Outcome)
    ensures var s, u := RunFrom(IDLE, ops), RunFrom(IDLE, ops + [DoBegin(t)]);
      if !Due(s.writes, t) then u == s
      else if HasUnknown(s.writes, s.writes[t].id) then MovesTo(s, u, t, Settled(Refused)) && u.started == s.started
      else MovesTo(s, u, t, Running) && u.started == s.started + [t]
    ensures var s, u := RunFrom(IDLE, ops), RunFrom(IDLE, ops + [DoFinish(t, outcome)]);
      if t < |s.writes| && s.writes[t].phase.Running? && outcome != Refused then
        MovesTo(s, u, t, Settled(outcome)) && u.started == s.started
      else u == s
    ensures var s, u := RunFrom(IDLE, ops), RunFrom(IDLE, ops + [DoRetire(t)]);
      if t < |s.writes| && s.writes[t].phase.Settled? then
        MovesTo(s, u, t, Retired(s.writes[t].phase.outcome)) && u.started == s.started
      else u == s
  {
    hide *;
    ReachableKeeps(ops);
    LastTurn(ops, DoBegin(t));
    LastTurn(ops, DoFinish(t, outcome));
    LastTurn(ops, DoRetire(t));
    Begins(RunFrom(IDLE, ops), t);
    Finishes(RunFrom(IDLE, ops), t, outcome);
    Retires(RunFrom(IDLE, ops), t);
    assert Due(RunFrom(IDLE, ops).writes, t) ==> t < |RunFrom(IDLE, ops).writes| by {
      DueInRange(RunFrom(IDLE, ops).writes, t);
    }
  }

  lemma DueInRange(w: seq<Write>, t: nat)
    ensures Due(w, t) ==> t < |w|
  {}

  lemma Begins(s: State, t: nat)
    requires Invariant(s)
    ensures var u := Next(s, DoBegin(t));
      if !Due(s.writes, t) then u == s
      else if HasUnknown(s.writes, s.writes[t].id) then MovesTo(s, u, t, Settled(Refused)) && u.started == s.started
      else MovesTo(s, u, t, Running) && u.started == s.started + [t]
  {
    DueLaw(s, t);
    hide Linked, Serial, QueuesExact, StartedExact, HasUnknown, Due;
  }

  lemma Finishes(s: State, t: nat, outcome: Outcome)
    ensures var u := Next(s, DoFinish(t, outcome));
      if t < |s.writes| && s.writes[t].phase.Running? && outcome != Refused then
        MovesTo(s, u, t, Settled(outcome)) && u.started == s.started
      else u == s
  {}

  lemma Retires(s: State, t: nat)
    ensures var u := Next(s, DoRetire(t));
      if t < |s.writes| && s.writes[t].phase.Settled? then
        MovesTo(s, u, t, Retired(s.writes[t].phase.outcome)) && u.started == s.started
      else u == s
  {}
}
