/** The bootstrap scheduler of packages/mobile-stream-compat-rc1/src/index.js: a few expensive reads run at once, at
    most one of them for any session, and the rest wait their turn. */
module Bootstrap {
  import opened Prelude

  /** A waiter is known by the ticket its request drew; a request without a usable session id names none. */
  datatype Waiter = Waiter(ticket: nat, session: Option<string>)

  /** A grant and the state of its release function. `slot` is the session-state object the grant captured. */
  datatype Grant = Grant(ticket: nat, session: Option<string>, slot: nat, released: bool)

  /** The scheduler's fields. Session-state objects are numbered in the order of their creation, and `busy` holds those
      whose `active` flag is set. `grants`, `rejected` and `tickets` record what became of every request;
      `aborted` is the set of requests whose signal has fired. */
  datatype Scheduler = Scheduler(active: nat, queue: seq<Waiter>, sessions: map<string, nat>, busy: set<nat>,
                                 slots: nat, grants: seq<Grant>, rejected: set<nat>, tickets: nat, aborted: set<nat>)

  const IDLE := Scheduler(0, [], map[], {}, 0, [], {}, 0, {})

  /** The session's state object is marked active. */
  predicate Busy(s: Scheduler, session: Option<string>) {
    session.Some? && session.value in s.sessions && s.sessions[session.value] in s.busy
  }

  /** `get(key) ?? { active: false }`, stored when it was missing. */
  function Known(s: Scheduler, session: Option<string>): Scheduler {
    if session.None? || session.value in s.sessions then s
    else s.(sessions := s.sessions[session.value := s.slots], slots := s.slots + 1)
  }

  /** `grantBootstrap`. */
  function Granted(s: Scheduler, w: Waiter): Scheduler {
    var known := Known(s, w.session);
    var slot := if w.session.Some? then known.sessions[w.session.value] else 0;
    known.(active := s.active + 1, busy := if w.session.Some? then s.busy + {slot} else s.busy,
           grants := s.grants + [Grant(w.ticket, w.session, slot, false)])
  }

  lemma GrantedAfterKnown(s: Scheduler, w: Waiter)
    ensures Granted(Known(s, w.session), w) == Granted(s, w)
    ensures w.session.None? ==> Known(s, w.session) == s
  {}

  /** An empty id names no session. */
  function Key(requested: Option<string>): Option<string> {
    if requested == Some("") then None else requested
  }

  function Acquire(s: Scheduler, limit: nat, session: Option<string>, aborted: bool): Scheduler {
    var w := Waiter(s.tickets, session);
    var s1 := s.(tickets := s.tickets + 1);
    if aborted then s1.(rejected := s.rejected + {w.ticket}, aborted := s.aborted + {w.ticket})
    else
      var s2 := Known(s1, session);
      if s.active < limit && !Busy(s2, session) then Granted(s2, w)
      else s2.(queue := s.queue + [w])
  }

  /** The first waiter whose session is not busy; the queue's length if there is none. */
  function FirstEligible(s: Scheduler, from: nat): (i: nat)
    requires from <= |s.queue|
    ensures from <= i <= |s.queue|
    ensures forall j :: from <= j < i ==> Busy(s, s.queue[j].session)
    ensures i < |s.queue| ==> !Busy(s, s.queue[i].session)
    decreases |s.queue| - from
  {
    if from == |s.queue| || !Busy(s, s.queue[from].session) then from else FirstEligible(s, from + 1)
  }

  function Removed(queue: seq<Waiter>, i: nat): seq<Waiter>
    requires i < |queue|
  {
    queue[..i] + queue[i + 1..]
  }

  /** A waiter leaves the queue: rejected if its signal has fired meanwhile, else granted. */
  function Served(s: Scheduler, i: nat): (t: Scheduler)
    requires i < |s.queue|
    ensures |t.queue| < |s.queue|
  {
    var w := s.queue[i];
    var taken := s.(queue := Removed(s.queue, i));
    if w.ticket in s.aborted then taken.(rejected := s.rejected + {w.ticket}) else Granted(taken, w)
  }

  /** `drainBootstrapQueue`. */
  function Drain(s: Scheduler, limit: nat): Scheduler
    decreases |s.queue|
  {
    var i := FirstEligible(s, 0);
    if s.active >= limit || i == |s.queue| then s else Drain(Served(s, i), limit)
  }

  /** A release function frees its slot once. */
  function Freed(s: Scheduler, g: nat): Scheduler
    requires g < |s.grants|
  {
    var grant := s.grants[g];
    s.(active := if s.active > 0 then s.active - 1 else 0,
       busy := if grant.session.Some? then s.busy - {grant.slot} else s.busy,
       grants := s.grants[g := grant.(released := true)])
  }

  /** The session is forgotten once nobody holds it or waits for it. */
  function Forgotten(s: Scheduler, grant: Grant): Scheduler {
    if grant.session.Some? && grant.slot !in s.busy && !exists w :: w in s.queue && w.session == grant.session
    then s.(sessions := s.sessions - {grant.session.value}) else s
  }

  function Release(s: Scheduler, limit: nat, g: nat): Scheduler
    requires g < |s.grants|
  {
    if s.grants[g].released then s else Forgotten(Drain(Freed(s, g), limit), s.grants[g])
  }

  /** A waiting request's abort listener. */
  function AbortListener(s: Scheduler, i: nat): Scheduler
    requires i < |s.queue|
  {
    s.(queue := Removed(s.queue, i), rejected := s.rejected + {s.queue[i].ticket})
  }

  function Tickets(queue: seq<Waiter>): set<nat> {
    set w | w in queue :: w.ticket
  }

  /** The part of `dispose` that concerns the scheduler. */
  function Disposed(s: Scheduler): Scheduler {
    s.(queue := [], rejected := s.rejected + Tickets(s.queue))
  }

  datatype Op =
    | DoAcquire(requested: Option<string>, aborted: bool)
    | DoRelease(grant: nat)
    | SignalFires(ticket: nat)
    | ListenerRuns(waiter: nat)
    | DoDispose

  /** One step of the scheduler's life. A signal fires some time before its listener runs, so a drain may come
      between. */
  function Next(s: Scheduler, limit: nat, op: Op): Scheduler {
    match op
    case DoAcquire(requested, aborted) => Acquire(s, limit, Key(requested), aborted)
    case DoRelease(g) => if g < |s.grants| then Release(s, limit, g) else s
    case SignalFires(ticket) => if ticket < s.tickets then s.(aborted := s.aborted + {ticket}) else s
    case ListenerRuns(i) => if i < |s.queue| && s.queue[i].ticket in s.aborted then AbortListener(s, i) else s
    case DoDispose => Disposed(s)
  }

  function Run(s: Scheduler, limit: nat, ops: seq<Op>): Scheduler {
    if ops == [] then s else Next(Run(s, limit, ops[..|ops| - 1]), limit, ops[|ops| - 1])
  }

  // ---- The class -------------------------------------------------------------------------------

  class BootstrapScheduler {
    const limit: nat
    var active: nat
    var queue: seq<Waiter>
    var sessions: map<string, nat>
    var busy: set<nat>
    var slots: nat
    var grants: seq<Grant>
    var rejected: set<nat>
    var tickets: nat
    var aborted: set<nat>

    function State(): Scheduler
      reads this
    {
      Scheduler(active, queue, sessions, busy, slots, grants, rejected, tickets, aborted)
    }

    constructor (limit: nat)
      ensures State() == IDLE && this.limit == limit
    {
      this.limit := limit;
      active, queue, sessions, busy, slots, grants, rejected, tickets, aborted := 0, [], map[], {}, 0, [], {}, 0, {};
    }

    /** The session's state object, created when there is none. */
    method SessionState(key: string) returns (slot: nat)
      modifies this`sessions, this`slots
      ensures State() == Known(old(State()), Some(key)) && key in sessions && sessions[key] == slot
    {
      if key in sessions {
        return sessions[key];
      }
      slot := slots;
      sessions, slots := sessions[key := slot], slots + 1;
    }

    method GrantBootstrap(w: Waiter)
      requires w.session.Some? ==> w.session.value in sessions
      modifies this`active, this`busy, this`grants
      ensures State() == Granted(old(State()), w)
    {
      var slot := 0;
      if w.session.Some? {
        slot := sessions[w.session.value];
        busy := busy + {slot};
      }
      active := active + 1;
      grants := grants + [Grant(w.ticket, w.session, slot, false)];
    }

    method AcquireBootstrap(requested: Option<string>, signalAborted: bool)
      modifies this
      ensures State() == Acquire(old(State()), limit, Key(requested), signalAborted)
    {
      var session := if requested == Some("") then None else requested;
      var w := Waiter(tickets, session);
      tickets := tickets + 1;
      if signalAborted {
        rejected, aborted := rejected + {w.ticket}, aborted + {w.ticket};
        return;
      }
      var free := true;
      if session.Some? {
        var slot := SessionState(session.value);
        free := slot !in busy;
      }
      if active < limit && free {
        GrantBootstrap(w);
      } else {
        queue := queue + [w];
      }
    }

    /** The search of `drainBootstrapQueue`. */
    method EligibleWaiter() returns (index: nat)
      ensures index == FirstEligible(State(), 0)
    {
      for candidate := 0 to |queue|
        invariant FirstEligible(State(), candidate) == FirstEligible(State(), 0)
      {
        if !Busy(State(), queue[candidate].session) {
          return candidate;
        }
      }
      return |queue|;
    }

    method DrainBootstrapQueue()
      modifies this
      ensures State() == Drain(old(State()), limit)
    {
      hide Granted, Known, Busy;
      while active < limit && |queue| > 0
        invariant Drain(State(), limit) == Drain(old(State()), limit)
        decreases |queue|
      {
        var index := EligibleWaiter();
        if index == |queue| {
          break;
        }
        ghost var before := State();
        var w := queue[index];
        queue := Removed(queue, index);
        if w.ticket in aborted {
          rejected := rejected + {w.ticket};
          continue;
        }
        ghost var taken := State();
        if w.session.Some? {
          var _ := SessionState(w.session.value);
        }
        GrantedAfterKnown(taken, w);
        GrantBootstrap(w);
      }
    }

    method ReleaseGrant(g: nat)
      requires g < |grants|
      modifies this
      ensures State() == Release(old(State()), limit, g)
    {
      var grant := grants[g];
      if grant.released {
        return;
      }
      grants := grants[g := grant.(released := true)];
      if grant.session.Some? {
        busy := busy - {grant.slot};
      }
      active := if active > 0 then active - 1 else 0;
      assert State() == Freed(old(State()), g);
      DrainBootstrapQueue();
      if grant.session.Some? && grant.slot !in busy && !exists w :: w in queue && w.session == grant.session {
        sessions := sessions - {grant.session.value};
      }
    }

    method OnAbort(i: nat)
      requires i < |queue|
      modifies this`queue, this`rejected
      ensures State() == AbortListener(old(State()), i)
    {
      var w := queue[i];
      queue := Removed(queue, i);
      rejected := rejected + {w.ticket};
    }

    method Dispose()
      modifies this`queue, this`rejected
      ensures State() == Disposed(old(State()))
    {
      ghost var waiting := queue;
      while queue != []
        invariant rejected + Tickets(queue) == old(rejected) + Tickets(waiting)
        decreases |queue|
      {
        var w := queue[0];
        assert queue == [w] + queue[1..];
        assert Tickets(queue) == {w.ticket} + Tickets(queue[1..]);
        queue := queue[1..];
        rejected := rejected + {w.ticket};
      }
    }
  }
}
