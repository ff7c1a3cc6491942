/** The per-session write queue of packages/runtime-interface/src/session-persistence.js. */
module WriteQueue {
  import opened Prelude

  // ---- One write -------------------------------------------------------------------------------

  datatype Outcome = Wrote | Failed | Unknown | Refused

  /** What the service does during one current-contract write, whether or not the write gets that far. */
  datatype Script = Script(create: bool, opens: bool, knownFailure: bool, handle: Option<Handle>, events: nat,
                           appends: bool, flushes: bool, closes: bool)

  /** Which of its methods a handle has. */
  datatype Handle = Handle(hasAppend: bool, hasFlush: bool, hasClose: bool)

  datatype Call = Open | Append | Flush | CloseHandle

  /** The events, if any, are appended. */
  predicate Appends(s: Script) {
    s.handle.Some? && s.handle.value.hasAppend && (s.events > 0 ==> s.appends)
  }

  /** `withCurrentWriteHandle`: the calls made and how the write ends. */
  method WithCurrentWriteHandle(s: Script) returns (calls: seq<Call>, outcome: Outcome)
    ensures outcome == Wrote
      <==> s.opens && Appends(s) && s.handle.value.hasFlush && s.flushes && (s.handle.value.hasClose ==> s.closes)
    ensures outcome == Failed <==> !s.opens && (!s.create || s.knownFailure)
    ensures outcome != Refused
    ensures calls == [Open] + (if !s.opens then [] else
                       (if s.handle.Some? && s.handle.value.hasAppend && s.events > 0 then [Append] else [])
                       + (if Appends(s) && s.handle.value.hasFlush then [Flush] else [])
                       + (if s.handle.Some? && s.handle.value.hasClose then [CloseHandle] else []))
  {
    calls := [Open];
    if !s.opens {
      if !s.create || s.knownFailure {
        return calls, Failed;
      }
      return calls, Unknown;
    }
    outcome := Wrote;
    if s.handle.None? || !s.handle.value.hasAppend {
      outcome := Unknown;
    } else {
      if s.events > 0 {
        calls := calls + [Append];
        if !s.appends {
          outcome := Unknown;
        }
      }
      if outcome == Wrote {
        if !s.handle.value.hasFlush {
          outcome := Unknown;
        } else {
          calls := calls + [Flush];
          if !s.flushes {
            outcome := Unknown;
          }
        }
      }
    }
    if s.handle.Some? && s.handle.value.hasClose {
      calls := calls + [CloseHandle];
      if !s.closes && outcome == Wrote {
        outcome := Unknown;
      }
    }
  }

  // ---- The queue -------------------------------------------------------------------------------

  /** A write waits for its predecessor's tracked promise, runs, settles, and retires when its own tracked promise does;
      a write the latch turns away at submission never joins the chain. */
  datatype Phase = Waiting | Running | Settled(outcome: Outcome) | Retired(outcome: Outcome) | Rejected

  /** `previous` is the tracked promise the write was chained to, if the session had one. */
  datatype Write = Write(id: string, previous: Option<nat>, phase: Phase)

  /** `queues` holds each session's newest tracked promise, `uncertain` the latched sessions. Writes are numbered as
      they are submitted; `started` records, in order, those whose operation was invoked on the service. */
  datatype State = State(writes: seq<Write>, queues: map<string, nat>, uncertain: set<string>, started: seq<nat>)

  const IDLE := State([], map[], {}, [])

  function Submit(s: State, id: string): State {
    if id in s.uncertain then s.(writes := s.writes + [Write(id, None, Rejected)])
    else
      var previous := if id in s.queues then Some(s.queues[id]) else None;
      s.(writes := s.writes + [Write(id, previous, Waiting)], queues := s.queues[id := |s.writes|])
  }

  function SetPhase(s: State, t: nat, phase: Phase): State
    requires t < |s.writes|
  {
    s.(writes := s.writes[t := s.writes[t].(phase := phase)])
  }

  /** The write's turn has come. */
  predicate Ready(s: State, t: nat) {
    && t < |s.writes| && s.writes[t].phase.Waiting?
    && (s.writes[t].previous.Some? ==>
       s.writes[t].previous.value < |s.writes| && s.writes[s.writes[t].previous.value].phase.Retired?)
  }

  function Begin(s: State, t: nat): State
    requires Ready(s, t)
  {
    if s.writes[t].id in s.uncertain then SetPhase(s, t, Settled(Refused))
    else SetPhase(s, t, Running).(started := s.started + [t])
  }

  function Finish(s: State, t: nat, outcome: Outcome): State
    requires t < |s.writes|
  {
    var s1 := SetPhase(s, t, Settled(outcome));
    if outcome.Unknown? then s1.(uncertain := s.uncertain + {s.writes[t].id}) else s1
  }

  function Retire(s: State, t: nat): State
    requires t < |s.writes| && s.writes[t].phase.Settled?
  {
    var id := s.writes[t].id;
    var s1 := SetPhase(s, t, Retired(s.writes[t].phase.outcome));
    if id in s.queues && s.queues[id] == t then s1.(queues := s.queues - {id}) else s1
  }

  datatype Op = DoSubmit(id: string) | DoBegin(t: nat) | DoFinish(t: nat, outcome: Outcome) | DoRetire(t: nat)

  /** One turn of the event loop; a turn that is not due changes nothing. */
  function Next(s: State, op: Op): State {
    match op
    case DoSubmit(id) => Submit(s, id)
    case DoBegin(t) => if Ready(s, t) then Begin(s, t) else s
    case DoFinish(t, outcome) => if t < |s.writes| && s.writes[t].phase.Running? && outcome != Refused then
      Finish(s, t, outcome) else s
    case DoRetire(t) => if t < |s.writes| && s.writes[t].phase.Settled? then Retire(s, t) else s
  }

  function RunFrom(s: State, ops: seq<Op>): State {
    if ops == [] then s else Next(RunFrom(s, ops[..|ops| - 1]), ops[|ops| - 1])
  }

  /** The closure's two collections, with the promises it chains. */
  class PersistencePort {
    var queues: map<string, nat>
    var uncertain: set<string>
    var writes: seq<Write>
    ghost var started: seq<nat>

    ghost function Abstract(): State
      reads this
    {
      State(writes, queues, uncertain, started)
    }

    constructor ()
      ensures Abstract() == IDLE
    {
      queues, uncertain, writes, started := map[], {}, [], [];
    }

    method EnqueueWrite(id: string) returns (t: nat)
      modifies this
      ensures Abstract() == Submit(old(Abstract()), id) && t == |old(writes)|
    {
      t := |writes|;
      if id in uncertain {
        writes := writes + [Write(id, None, Rejected)];
        return;
      }
      var previous := if id in queues then Some(queues[id]) else None;
      writes := writes + [Write(id, previous, Waiting)];
      queues := queues[id := t];
    }

    /** The continuation of the predecessor; `false` when the latch refuses the write. */
    method BeginWrite(t: nat) returns (runs: bool)
      requires Ready(Abstract(), t)
      modifies this`writes, this`started
      ensures Abstract() == Begin(old(Abstract()), t) && runs == (writes[t].id !in uncertain)
    {
      var w := writes[t];
      runs := w.id !in uncertain;
      if !runs {
        writes := writes[t := w.(phase := Settled(Refused))];
        return;
      }
      writes := writes[t := w.(phase := Running)];
      started := started + [t];
    }

    method FinishWrite(t: nat, outcome: Outcome)
      requires t < |writes| && writes[t].phase.Running?
      modifies this`writes, this`uncertain
      ensures Abstract() == Finish(old(Abstract()), t, outcome)
    {
      var w := writes[t];
      if outcome.Unknown? {
        uncertain := uncertain + {w.id};
      }
      writes := writes[t := w.(phase := Settled(outcome))];
    }

    method RetireWrite(t: nat)
      requires t < |writes| && writes[t].phase.Settled?
      modifies this`writes, this`queues
      ensures Abstract() == Retire(old(Abstract()), t)
    {
      var w := writes[t];
      writes := writes[t := w.(phase := Retired(w.phase.outcome))];
      if w.id in queues && queues[w.id] == t {
        queues := queues - {w.id};
      }
    }
  }
}
