/** What every reachable state of the bootstrap scheduler keeps, and in which order it serves requests. */
module BootstrapRuns {
  import opened Prelude
  import opened Bootstrap

  function Unreleased(grants: seq<Grant>): nat {
    if grants == [] then 0
    else Unreleased(grants[..|grants| - 1]) + if grants[|grants| - 1].released then 0 else 1
  }

  /** The active count is the number of grants not yet released, and the limit holds. */
  ghost predicate Counted(s: Scheduler, limit: nat) {
    s.active == Unreleased(s.grants) <= limit
  }

  predicate Holds(g: Grant) {
    !g.released && g.session.Some?
  }

  /** A session's state object is shared by everyone who uses the session, and is no other session's. */
  ghost predicate ObjectsShared(s: Scheduler) {
    && (forall k :: k in s.sessions ==> s.sessions[k] < s.slots)
    && (forall k, l :: k in s.sessions && l in s.sessions && s.sessions[k] == s.sessions[l] ==> k == l)
    && (forall g :: 0 <= g < |s.grants| && Holds(s.grants[g]) ==>
          s.grants[g].session.value in s.sessions && s.sessions[s.grants[g].session.value] == s.grants[g].slot)
    && (forall w :: w in s.queue && w.session.Some? ==> w.session.value in s.sessions)
  }

  /** No session has two unreleased grants. */
  ghost predicate Exclusive(s: Scheduler) {
    forall g, h :: 0 <= g < h < |s.grants| && Holds(s.grants[g]) && Holds(s.grants[h]) ==>
      s.grants[g].session != s.grants[h].session
  }

  /** A session is marked active exactly while it has an unreleased grant. */
  ghost predicate BusyExact(s: Scheduler) {
    && (forall g :: 0 <= g < |s.grants| && Holds(s.grants[g]) ==> s.grants[g].slot in s.busy)
    && (forall slot :: slot in s.busy ==>
       slot < s.slots && exists g :: 0 <= g < |s.grants| && Holds(s.grants[g]) && s.grants[g].slot == slot)
  }

  /** No free slot stands idle while a waiter could use it. */
  ghost predicate NoIdleSlot(s: Scheduler, limit: nat) {
    s.active < limit ==> forall w :: w in s.queue ==> Busy(s, w.session)
  }

  /** Waiters stand in the order of their requests. */
  ghost predicate Queued(s: Scheduler) {
    && (forall i, j :: 0 <= i < j < |s.queue| ==> s.queue[i].ticket < s.queue[j].ticket)
    && (forall w :: w in s.queue ==> w.ticket < s.tickets)
    && (forall g :: 0 <= g < |s.grants| ==> s.grants[g].ticket < s.tickets)
  }

  /** Requests for one session are granted in the order they were made. */
  ghost predicate InOrder(s: Scheduler) {
    && (forall g, h :: 0 <= g < h < |s.grants| && s.grants[g].session == s.grants[h].session ==>
       s.grants[g].ticket < s.grants[h].ticket)
    && (forall g, w :: 0 <= g < |s.grants| && w in s.queue && w.session == s.grants[g].session ==>
       s.grants[g].ticket < w.ticket)
  }

  function GrantTickets(grants: seq<Grant>): set<nat> {
    set g | g in grants :: g.ticket
  }

  /** Every request is waiting, granted or rejected, and only one of these. */
  ghost predicate Accounted(s: Scheduler) {
    && (forall t: nat :: t < s.tickets <==> t in Tickets(s.queue) || t in GrantTickets(s.grants) || t in s.rejected)
    && Tickets(s.queue) !! GrantTickets(s.grants) && Tickets(s.queue) !! s.rejected
       && GrantTickets(s.grants) !! s.rejected
  }

  /** What holds in the middle of a drain too. */
  ghost predicate Kept(s: Scheduler, limit: nat) {
    Counted(s, limit) && ObjectsShared(s) && Exclusive(s) && BusyExact(s) && Queued(s) && InOrder(s) && Accounted(s)
  }

  ghost predicate Invariant(s: Scheduler, limit: nat) {
    Kept(s, limit) && NoIdleSlot(s, limit)
  }

  // ---- Granting --------------------------------------------------------------------------------

  /** The request about to be granted: nobody who asked earlier for its session still waits. */
  ghost predicate Next1(s: Scheduler, w: Waiter) {
    && w.ticket < s.tickets && w.ticket !in Tickets(s.queue) && w.ticket !in GrantTickets(s.grants)
       && w.ticket !in s.rejected
    && (forall v :: v in s.queue && v.session == w.session ==> w.ticket < v.ticket)
    && (forall g :: 0 <= g < |s.grants| && s.grants[g].session == w.session ==> s.grants[g].ticket < w.ticket)
  }

  /** As Accounted, but for one request in hand. */
  ghost predicate AccountedBut(s: Scheduler, t: nat) {
    && t < s.tickets && t !in Tickets(s.queue) && t !in GrantTickets(s.grants) && t !in s.rejected
    && (forall u: nat ::
       u < s.tickets <==> u == t || u in Tickets(s.queue) || u in GrantTickets(s.grants) || u in s.rejected)
    && Tickets(s.queue) !! GrantTickets(s.grants) && Tickets(s.queue) !! s.rejected
       && GrantTickets(s.grants) !! s.rejected
  }

  ghost predicate KeptBut(s: Scheduler, limit: nat, w: Waiter) {
    && Counted(s, limit) && ObjectsShared(s) && Exclusive(s) && BusyExact(s) && Queued(s) && InOrder(s)
    && AccountedBut(s, w.ticket) && Next1(s, w) && (w.session.Some? ==> w.session.value in s.sessions)
  }

  lemma GrantTicketsAppend(grants: seq<Grant>, g: Grant)
    ensures GrantTickets(grants + [g]) == GrantTickets(grants) + {g.ticket}
  {}

  lemma GrantedCounts(s: Scheduler, limit: nat, w: Waiter)
    requires Counted(s, limit) && s.active < limit
    ensures Counted(Granted(s, w), limit)
  {
    assert Granted(s, w).grants[..|s.grants|] == s.grants;
  }

  lemma GrantedHolds(s: Scheduler, w: Waiter)
    requires ObjectsShared(s) && Exclusive(s) && BusyExact(s)
    requires (w.session.Some? ==> w.session.value in s.sessions) && !Busy(s, w.session)
    ensures ObjectsShared(Granted(s, w)) && Exclusive(Granted(s, w))
  {}

  lemma GrantedBusy(s: Scheduler, w: Waiter)
    requires ObjectsShared(s) && BusyExact(s) && (w.session.Some? ==> w.session.value in s.sessions)
    ensures BusyExact(Granted(s, w))
  {
    var t := Granted(s, w);
    var n := |s.grants|;
    forall slot | slot in t.busy
      ensures slot < t.slots && exists g :: 0 <= g < |t.grants| && Holds(t.grants[g]) && t.grants[g].slot == slot {
      if slot in s.busy {
        var g :| 0 <= g < n && Holds(s.grants[g]) && s.grants[g].slot == slot;
        assert Holds(t.grants[g]) && t.grants[g].slot == slot;
      } else {
        assert Holds(t.grants[n]) && t.grants[n].slot == slot;
      }
    }
  }

  lemma GrantedInOrder(s: Scheduler, w: Waiter)
    requires Queued(s) && InOrder(s) && AccountedBut(s, w.ticket) && Next1(s, w)
    ensures Queued(Granted(s, w)) && InOrder(Granted(s, w)) && Accounted(Granted(s, w))
  {
    GrantTicketsAppend(s.grants, Granted(s, w).grants[|s.grants|]);
  }

  lemma GrantedKeeps(s: Scheduler, limit: nat, w: Waiter)
    requires KeptBut(s, limit, w) && s.active < limit && !Busy(s, w.session)
    ensures Kept(Granted(s, w), limit)
  {
    hide Counted, ObjectsShared, Exclusive, BusyExact, Queued, InOrder, Accounted, AccountedBut, Next1, Granted;
    GrantedCounts(s, limit, w);
    GrantedHolds(s, w);
    GrantedBusy(s, w);
    GrantedInOrder(s, w);
  }

  // ---- Leaving the queue -----------------------------------------------------------------------

  lemma RemovedMembers(queue: seq<Waiter>, i: nat)
    requires i < |queue| && forall a, b :: 0 <= a < b < |queue| ==> queue[a].ticket < queue[b].ticket
    ensures forall w :: w in Removed(queue, i) <==> w in queue && w != queue[i]
  {
    var rest := Removed(queue, i);
    forall w ensures w in rest <==> w in queue && w != queue[i] {
      if w in queue && w != queue[i] {
        var a :| 0 <= a < |queue| && queue[a] == w;
        assert rest[if a < i then a else a - 1] == w;
      }
      if w in rest {
        var a :| 0 <= a < |rest| && rest[a] == w;
        assert queue[if a < i then a else a + 1] == w;
      }
    }
  }

  lemma RemovedShape(queue: seq<Waiter>, i: nat)
    requires i < |queue| && forall a, b :: 0 <= a < b < |queue| ==> queue[a].ticket < queue[b].ticket
    ensures forall w :: w in Removed(queue, i) <==> w in queue && w != queue[i]
    ensures Tickets(Removed(queue, i)) == Tickets(queue) - {queue[i].ticket}
    ensures forall a, b :: 0 <= a < b < |queue| - 1 ==> Removed(queue, i)[a].ticket < Removed(queue, i)[b].ticket
  {
    RemovedMembers(queue, i);
    forall t ensures t in Tickets(Removed(queue, i)) <==> t in Tickets(queue) && t != queue[i].ticket {
      if t in Tickets(queue) && t != queue[i].ticket {
        var w :| w in queue && w.ticket == t;
        assert w in Removed(queue, i);
      }
    }
  }

  /** A request leaves the queue and is still to be answered. */
  lemma TakenKeeps(s: Scheduler, limit: nat, i: nat)
    requires Kept(s, limit) && i < |s.queue|
    ensures KeptOut(s.(queue := Removed(s.queue, i)), limit, s.queue[i])
  {
    RemovedShape(s.queue, i);
    assert s.queue[i] in s.queue;
  }

  /** Kept, but for one request that has left the queue. */
  ghost predicate KeptOut(s: Scheduler, limit: nat, w: Waiter) {
    && Counted(s, limit) && ObjectsShared(s) && Exclusive(s) && BusyExact(s) && Queued(s) && InOrder(s)
    && AccountedBut(s, w.ticket) && (w.session.Some? ==> w.session.value in s.sessions)
  }

  lemma RejectedKeeps(s: Scheduler, limit: nat, w: Waiter)
    requires KeptOut(s, limit, w)
    ensures Kept(s.(rejected := s.rejected + {w.ticket}), limit)
  {}

  /** The first eligible waiter is the first of its session. */
  lemma FirstOfItsSession(s: Scheduler, i: nat, v: Waiter)
    requires Queued(s) && i == FirstEligible(s, 0) < |s.queue| && v in Removed(s.queue, i)
      && v.session == s.queue[i].session
    ensures s.queue[i].ticket < v.ticket
  {
    RemovedMembers(s.queue, i);
    var a :| 0 <= a < |s.queue| && s.queue[a] == v;
    assert a > i;
  }

  lemma FirstIsNext(s: Scheduler, limit: nat, i: nat)
    requires Kept(s, limit) && i == FirstEligible(s, 0) < |s.queue|
    ensures KeptBut(s.(queue := Removed(s.queue, i)), limit, s.queue[i])
  {
    var w := s.queue[i];
    var taken := s.(queue := Removed(s.queue, i));
    TakenKeeps(s, limit, i);
    assert w in s.queue;
    forall v | v in taken.queue && v.session == w.session ensures w.ticket < v.ticket {
      FirstOfItsSession(s, i, v);
    }
    hide ObjectsShared, Exclusive, BusyExact, Counted;
  }

  lemma ServedKeeps(s: Scheduler, limit: nat, i: nat)
    requires Kept(s, limit) && s.active < limit && i == FirstEligible(s, 0) < |s.queue|
    ensures Kept(Served(s, i), limit)
  {
    hide Kept, KeptBut, KeptOut, Granted;
    var w := s.queue[i];
    var taken := s.(queue := Removed(s.queue, i));
    if w.ticket in s.aborted {
      TakenKeeps(s, limit, i);
      RejectedKeeps(taken, limit, w);
    } else {
      FirstIsNext(s, limit, i);
      GrantedKeeps(taken, limit, w);
    }
  }

  lemma {:induction false} DrainKeeps(s: Scheduler, limit: nat)
    requires Kept(s, limit)
    ensures Kept(Drain(s, limit), limit)
    decreases |s.queue|
  {
    hide Kept, Served;
    var i := FirstEligible(s, 0);
    if s.active < limit && i < |s.queue| {
      ServedKeeps(s, limit, i);
      DrainKeeps(Served(s, i), limit);
    }
  }

  /** A drain stops only when the slots are taken or every waiter's session is busy. */
  lemma {:induction false} DrainSettles(s: Scheduler, limit: nat)
    ensures NoIdleSlot(Drain(s, limit), limit)
    decreases |s.queue|
  {
    hide Served;
    var i := FirstEligible(s, 0);
    if s.active < limit && i < |s.queue| {
      DrainSettles(Served(s, i), limit);
    }
  }

  // ---- Releasing -------------------------------------------------------------------------------

  lemma {:induction false} UnreleasedAfterRelease(grants: seq<Grant>, g: nat)
    requires g < |grants| && !grants[g].released
    ensures Unreleased(grants[g := grants[g].(released := true)]) == Unreleased(grants) - 1
  {
    var n := |grants| - 1;
    var after := grants[g := grants[g].(released := true)];
    if g < n {
      UnreleasedAfterRelease(grants[..n], g);
      assert after[..n] == grants[..n][g := grants[g].(released := true)];
    } else {
      assert after[..n] == grants[..n];
    }
  }

  lemma GrantTicketsSame(grants: seq<Grant>, after: seq<Grant>)
    requires |grants| == |after| && forall g :: 0 <= g < |grants| ==> after[g].ticket == grants[g].ticket
    ensures GrantTickets(after) == GrantTickets(grants)
  {
    forall t ensures t in GrantTickets(after) <==> t in GrantTickets(grants) {
      if t in GrantTickets(after) {
        var g :| 0 <= g < |after| && after[g].ticket == t;
        assert grants[g] in grants;
      }
      if t in GrantTickets(grants) {
        var g :| 0 <= g < |grants| && grants[g].ticket == t;
        assert after[g] in after;
      }
    }
  }

  lemma FreedKeeps(s: Scheduler, limit: nat, g: nat)
    requires Kept(s, limit) && g < |s.grants| && !s.grants[g].released
    ensures Kept(Freed(s, g), limit)
  {
    hide ObjectsShared, Exclusive, BusyExact, Queued, InOrder, Accounted, Freed;
    assert Counted(Freed(s, g), limit) by { FreedCounts(s, limit, g); }
    FreedHolds(s, g);
    FreedBusy(s, g);
    FreedInOrder(s, g);
  }

  lemma FreedCounts(s: Scheduler, limit: nat, g: nat)
    requires Counted(s, limit) && g < |s.grants| && !s.grants[g].released
    ensures Counted(Freed(s, g), limit)
  {
    UnreleasedAfterRelease(s.grants, g);
  }

  lemma FreedHolds(s: Scheduler, g: nat)
    requires ObjectsShared(s) && Exclusive(s) && g < |s.grants|
    ensures ObjectsShared(Freed(s, g)) && Exclusive(Freed(s, g))
  {}

  lemma FreedInOrder(s: Scheduler, g: nat)
    requires Queued(s) && InOrder(s) && Accounted(s) && g < |s.grants|
    ensures Queued(Freed(s, g)) && InOrder(Freed(s, g)) && Accounted(Freed(s, g))
  {
    GrantTicketsSame(s.grants, Freed(s, g).grants);
  }

  lemma FreedBusy(s: Scheduler, g: nat)
    requires ObjectsShared(s) && Exclusive(s) && BusyExact(s) && g < |s.grants| && !s.grants[g].released
    ensures BusyExact(Freed(s, g))
  {
    var t := Freed(s, g);
    forall slot | slot in t.busy
      ensures slot < t.slots && exists h :: 0 <= h < |t.grants| && Holds(t.grants[h]) && t.grants[h].slot == slot {
      var h :| 0 <= h < |s.grants| && Holds(s.grants[h]) && s.grants[h].slot == slot;
      assert h != g;
      assert Holds(t.grants[h]) && t.grants[h].slot == slot;
    }
  }

  lemma ForgottenKeeps(s: Scheduler, limit: nat, grant: Grant)
    requires Invariant(s, limit)
    requires grant.session.Some? && grant.session.value in s.sessions ==> s.sessions[grant.session.value] == grant.slot
    ensures Invariant(Forgotten(s, grant), limit)
  {
  }

  // ---- Every step ------------------------------------------------------------------------------

  lemma ReleaseKeeps(s: Scheduler, limit: nat, g: nat)
    requires Invariant(s, limit) && g < |s.grants|
    ensures Invariant(Release(s, limit, g), limit)
  {
    if !s.grants[g].released {
      hide Kept, Freed, Drain, Forgotten, NoIdleSlot;
      FreedKeeps(s, limit, g);
      DrainKeeps(Freed(s, g), limit);
      DrainSettles(Freed(s, g), limit);
      CapturedObject(s, limit, g);
      ForgottenKeeps(Drain(Freed(s, g), limit), limit, s.grants[g]);
    }
  }

  /** While anything remembers the session, it remembers the object the release captured. */
  lemma CapturedObject(s: Scheduler, limit: nat, g: nat)
    requires Kept(s, limit) && g < |s.grants| && !s.grants[g].released
    ensures var session := s.grants[g].session;
      session.Some? && session.value in Drain(Freed(s, g), limit).sessions ==>
        Drain(Freed(s, g), limit).sessions[session.value] == s.grants[g].slot
  {
    var session := s.grants[g].session;
    if session.Some? {
      assert Holds(s.grants[g]);
      DrainRemembers(Freed(s, g), limit, session.value);
    }
  }

  lemma {:induction false} DrainRemembers(s: Scheduler, limit: nat, k: string)
    requires k in s.sessions
    ensures k in Drain(s, limit).sessions && Drain(s, limit).sessions[k] == s.sessions[k]
    decreases |s.queue|
  {
    var i := FirstEligible(s, 0);
    if s.active < limit && i < |s.queue| {
      DrainRemembers(Served(s, i), limit, k);
    }
  }

  /** A request that has drawn its ticket. */
  function Drawn(s: Scheduler, session: Option<string>): Scheduler {
    Known(s.(tickets := s.tickets + 1), session)
  }

  lemma DrawnSlots(s: Scheduler, limit: nat, session: Option<string>)
    requires Counted(s, limit) && ObjectsShared(s) && Exclusive(s) && BusyExact(s)
    ensures Counted(Drawn(s, session), limit) && ObjectsShared(Drawn(s, session)) && Exclusive(Drawn(s, session))
      && BusyExact(Drawn(s, session))
    ensures session.Some? ==> session.value in Drawn(s, session).sessions
    ensures forall w :: w in s.queue ==> Busy(Drawn(s, session), w.session) == Busy(s, w.session)
  {}

  lemma DrawnOrder(s: Scheduler, session: Option<string>)
    requires Queued(s) && InOrder(s) && Accounted(s)
    ensures Queued(Drawn(s, session)) && InOrder(Drawn(s, session)) && AccountedBut(Drawn(s, session), s.tickets)
  {
    assert forall w :: w in s.queue ==> w.ticket != s.tickets;
    assert forall g :: g in s.grants ==> g.ticket != s.tickets;
  }

  lemma DrawnKeeps(s: Scheduler, limit: nat, session: Option<string>)
    requires Invariant(s, limit)
    ensures KeptOut(Drawn(s, session), limit, Waiter(s.tickets, session)) && NoIdleSlot(Drawn(s, session), limit)
  {
    hide Counted, ObjectsShared, Exclusive, BusyExact, Queued, InOrder, Accounted, AccountedBut, Busy;
    DrawnSlots(s, limit, session);
    DrawnOrder(s, session);
  }

  lemma GrantedAtOnce(s: Scheduler, limit: nat, session: Option<string>)
    requires Invariant(s, limit) && s.active < limit && !Busy(Drawn(s, session), session)
    ensures Invariant(Granted(Drawn(s, session), Waiter(s.tickets, session)), limit)
  {
    var w := Waiter(s.tickets, session);
    var t := Drawn(s, session);
    DrawnKeeps(s, limit, session);
    assert Next1(t, w) by {
      assert forall v :: v in t.queue ==> Busy(t, v.session) && v.session != session;
    }
    GrantedKeeps(t, limit, w);
    assert forall v :: v in t.queue ==> Busy(t, v.session) && Busy(Granted(t, w), v.session);
  }

  lemma TicketsAppend(queue: seq<Waiter>, w: Waiter)
    ensures Tickets(queue + [w]) == Tickets(queue) + {w.ticket}
  {}

  lemma AppendedOrder(s: Scheduler, w: Waiter)
    requires Queued(s) && InOrder(s) && AccountedBut(s, w.ticket)
    requires forall v :: v in s.queue ==> v.ticket < w.ticket
    requires forall g :: 0 <= g < |s.grants| ==> s.grants[g].ticket < w.ticket
    ensures var t := s.(queue := s.queue + [w]); Queued(t) && InOrder(t) && Accounted(t)
  {
    TicketsAppend(s.queue, w);
    assert forall v :: v in s.queue + [w] <==> v in s.queue || v == w;
    assert forall i :: 0 <= i < |s.queue| ==> s.queue[i] in s.queue;
  }

  lemma AppendedSlots(s: Scheduler, limit: nat, w: Waiter)
    requires ObjectsShared(s) && Exclusive(s) && BusyExact(s) && NoIdleSlot(s, limit)
    requires (w.session.Some? ==> w.session.value in s.sessions) && (s.active >= limit || Busy(s, w.session))
    ensures var t := s.(queue := s.queue + [w]);
      ObjectsShared(t) && Exclusive(t) && BusyExact(t) && NoIdleSlot(t, limit)
  {
    assert forall v :: v in s.queue + [w] <==> v in s.queue || v == w;
  }

  lemma QueuedLast(s: Scheduler, limit: nat, session: Option<string>)
    requires Invariant(s, limit) && (s.active >= limit || Busy(Drawn(s, session), session))
    ensures Invariant(Drawn(s, session).(queue := s.queue + [Waiter(s.tickets, session)]), limit)
  {
    hide ObjectsShared, Exclusive, BusyExact, InOrder, Accounted, AccountedBut, Busy, NoIdleSlot;
    var w := Waiter(s.tickets, session);
    DrawnKeeps(s, limit, session);
    AppendedOrder(Drawn(s, session), w);
    AppendedSlots(Drawn(s, session), limit, w);
  }

  lemma SignalKeeps(s: Scheduler, limit: nat, aborted: set<nat>)
    requires Invariant(s, limit)
    ensures Invariant(s.(aborted := aborted), limit)
  {}

  lemma RefusedKeeps(s: Scheduler, limit: nat, session: Option<string>)
    requires Invariant(s, limit)
    ensures Invariant(Acquire(s, limit, session, true), limit)
  {
    var drawn := s.(tickets := s.tickets + 1);
    assert Drawn(s, None) == drawn;
    DrawnKeeps(s, limit, None);
    RejectedKeeps(drawn, limit, Waiter(s.tickets, None));
    var rejected := drawn.(rejected := s.rejected + {s.tickets});
    assert Acquire(s, limit, session, true) == rejected.(aborted := s.aborted + {s.tickets});
    hide Kept, KeptOut, Busy, Drawn, Acquire;
    assert NoIdleSlot(rejected, limit) by { SameIdle(drawn, rejected, limit); }
    SignalKeeps(rejected, limit, s.aborted + {s.tickets});
  }

  lemma SameIdle(s: Scheduler, t: Scheduler, limit: nat)
    requires NoIdleSlot(s, limit) && t == s.(rejected := t.rejected)
    ensures NoIdleSlot(t, limit)
  {
    forall w | w in t.queue && t.active < limit ensures Busy(t, w.session) {
      assert Busy(s, w.session);
    }
  }

  lemma AcquireKeeps(s: Scheduler, limit: nat, session: Option<string>, aborted: bool)
    requires Invariant(s, limit)
    ensures Invariant(Acquire(s, limit, session, aborted), limit)
  {
    hide Invariant, Granted, Known, Busy;
    if aborted {
      RefusedKeeps(s, limit, session);
    } else {
      if s.active < limit && !Busy(Drawn(s, session), session) {
        GrantedAtOnce(s, limit, session);
      } else {
        QueuedLast(s, limit, session);
      }
    }
  }

  lemma ListenerKeeps(s: Scheduler, limit: nat, i: nat)
    requires Invariant(s, limit) && i < |s.queue|
    ensures Invariant(AbortListener(s, i), limit)
  {
    RemovedShape(s.queue, i);
    TakenKeeps(s, limit, i);
    RejectedKeeps(s.(queue := Removed(s.queue, i)), limit, s.queue[i]);
  }

  lemma DisposedKeeps(s: Scheduler, limit: nat)
    requires Invariant(s, limit)
    ensures Invariant(Disposed(s), limit)
  {}

  lemma NextKeeps(s: Scheduler, limit: nat, op: Op)
    requires Invariant(s, limit)
    ensures Invariant(Next(s, limit, op), limit)
  {
    match op
    case DoAcquire(requested, aborted) => AcquireKeeps(s, limit, Key(requested), aborted);
    case DoRelease(g) => if g < |s.grants| { ReleaseKeeps(s, limit, g); }
    case SignalFires(ticket) => SignalKeeps(s, limit, s.aborted + {ticket});
    case ListenerRuns(i) => if i < |s.queue| { ListenerKeeps(s, limit, i); }
    case DoDispose => DisposedKeeps(s, limit);
  }

  /** Every reachable state keeps the scheduler's invariant, whatever is requested, released, aborted or disposed. */
  lemma {:induction false} RunKeeps(limit: nat, ops: seq<Op>)
    ensures Invariant(Run(IDLE, limit, ops), limit)
  {
    if ops != [] {
      hide Invariant, Next;
      RunKeeps(limit, ops[..|ops| - 1]);
      NextKeeps(Run(IDLE, limit, ops[..|ops| - 1]), limit, ops[|ops| - 1]);
    } else {
      assert Invariant(IDLE, limit);
    }
  }

  // ---- What it means ---------------------------------------------------------------------------

  /** A request granted at once overtakes no waiter that could have had the slot. */
  lemma ImmediateGrantOvertakesNobody(limit: nat, ops: seq<Op>, session: Option<string>)
    ensures var s := Run(IDLE, limit, ops); var t := Acquire(s, limit, session, false);
      |t.grants| > |s.grants| ==> forall w :: w in s.queue ==> Busy(s, w.session) && w.session != session
  {
    RunKeeps(limit, ops);
    DrawnKeeps(Run(IDLE, limit, ops), limit, session);
  }

  lemma {:induction false} DrainGrows(s: Scheduler, limit: nat)
    ensures var t := Drain(s, limit); |s.grants| <= |t.grants| && t.grants[..|s.grants|] == s.grants
    ensures forall w :: w in Drain(s, limit).queue ==> w in s.queue
    ensures forall session :: Busy(s, session) ==> Busy(Drain(s, limit), session)
    decreases |s.queue|
  {
    var i := FirstEligible(s, 0);
    if s.active < limit && i < |s.queue| {
      ServedGrows(s, i);
      DrainGrows(Served(s, i), limit);
    }
  }

  lemma ServedGrows(s: Scheduler, i: nat)
    requires i < |s.queue|
    ensures var t := Served(s, i); |s.grants| <= |t.grants| && t.grants[..|s.grants|] == s.grants
    ensures forall w :: w in Served(s, i).queue ==> w in s.queue
    ensures forall session :: Busy(s, session) ==> Busy(Served(s, i), session)
  {}

  lemma EarlierWaitersBusy(s: Scheduler, i: nat, w: Waiter)
    requires Queued(s) && i == FirstEligible(s, 0) < |s.queue| && w in s.queue && w.ticket < s.queue[i].ticket
    ensures Busy(s, w.session)
  {
    var a :| 0 <= a < |s.queue| && s.queue[a] == w;
    assert a < i;
  }

  /** A grant made by a drain overtakes only waiters whose session is busy. */
  lemma {:induction false} DrainOvertakesOnlyBusy(s: Scheduler, limit: nat, g: nat, w: Waiter)
    requires Kept(s, limit) && |s.grants| <= g < |Drain(s, limit).grants|
    requires w in Drain(s, limit).queue && w.ticket < Drain(s, limit).grants[g].ticket
    ensures Busy(Drain(s, limit), w.session)
    decreases |s.queue|
  {
    var i := FirstEligible(s, 0);
    if s.active < limit && i < |s.queue| {
      var s1 := Served(s, i);
      hide Served;
      ServedKeeps(s, limit, i);
      ServedGrows(s, i);
      DrainGrows(s, limit);
      DrainGrows(s1, limit);
      if g >= |s1.grants| {
        DrainOvertakesOnlyBusy(s1, limit, g, w);
      } else {
        ServedGrant(s, i);
        assert Drain(s, limit).grants[g] == s1.grants[g];
        EarlierWaitersBusy(s, i, w);
      }
    }
  }

  lemma ServedGrant(s: Scheduler, i: nat)
    requires i < |s.queue|
    ensures |Served(s, i).grants| > |s.grants| ==>
      |Served(s, i).grants| == |s.grants| + 1 && Served(s, i).grants[|s.grants|].ticket == s.queue[i].ticket
  {}

  /** Nobody waits for nobody: once every grant is released the queue is empty. */
  lemma NobodyWaitsForNobody(limit: nat, ops: seq<Op>)
    requires limit > 0
    ensures var s := Run(IDLE, limit, ops);
      (forall g :: g in s.grants ==> g.released) ==> s.active == 0 && s.queue == []
  {
    var s := Run(IDLE, limit, ops);
    RunKeeps(limit, ops);
    if forall g :: g in s.grants ==> g.released {
      AllReleased(s.grants);
      assert s.busy == {};
      SomeWaiter(s.queue);
      assert forall w :: w in s.queue ==> Busy(s, w.session);
    }
  }

  lemma SomeWaiter(queue: seq<Waiter>)
    ensures queue != [] ==> exists w :: w in queue
  {
    if queue != [] {
      assert queue[0] in queue;
    }
  }

  lemma {:induction false} AllReleased(grants: seq<Grant>)
    requires forall g :: g in grants ==> g.released
    ensures Unreleased(grants) == 0
  {
    if grants != [] {
      AllReleased(grants[..|grants| - 1]);
    }
  }

  // ---- What is remembered ----------------------------------------------------------------------

  predicate Waits(s: Scheduler, k: string) {
    exists i :: 0 <= i < |s.queue| && s.queue[i].session == Some(k)
  }

  /** Somebody holds the session or waits for it. */
  predicate InUse(s: Scheduler, k: string) {
    Busy(s, Some(k)) || Waits(s, k)
  }

  /** The session is remembered for nobody. */
  predicate Lingers(s: Scheduler, k: string) {
    k in s.sessions && !InUse(s, k)
  }

  /** A drain comes to waiter `i` before it grants anything: everyone up to it is aborted or has a busy session. */
  predicate Swept(s: Scheduler, i: nat)
    requires i < |s.queue|
  {
    forall j :: 0 <= j <= i ==> s.queue[j].ticket in s.aborted || Busy(s, s.queue[j].session)
  }

  /** A drain rejects every waiter of a session that nobody holds. */
  predicate DrainStrands(s: Scheduler, limit: nat, k: string) {
    && s.active < limit && !Busy(s, Some(k)) && Waits(s, k)
    && forall i :: 0 <= i < |s.queue| && s.queue[i].session == Some(k) ==> Swept(s, i)
  }

  /** The drain has one slot to give, or none that matters to the session. */
  predicate OneSlot(s: Scheduler, limit: nat, k: string) {
    s.active + 1 >= limit || Busy(s, Some(k)) || !Waits(s, k)
  }

  /** Positions before and after a waiter leaves the queue. */
  lemma RemovedAt(queue: seq<Waiter>, i: nat)
    requires i < |queue|
    ensures |Removed(queue, i)| == |queue| - 1
    ensures forall a :: 0 <= a < i ==> Removed(queue, i)[a] == queue[a]
    ensures forall a :: i < a < |queue| ==> Removed(queue, i)[a - 1] == queue[a]
  {}

  lemma WaitsAfter(s: Scheduler, i: nat, k: string)
    requires i < |s.queue|
    ensures var t := s.(queue := Removed(s.queue, i));
      Waits(t, k) <==> exists j :: 0 <= j < |s.queue| && j != i && s.queue[j].session == Some(k)
  {
    var t := s.(queue := Removed(s.queue, i));
    RemovedAt(s.queue, i);
    if j :| 0 <= j < |s.queue| && j != i && s.queue[j].session == Some(k) {
      assert t.queue[if j < i then j else j - 1].session == Some(k);
    }
    if Waits(t, k) {
      var a :| 0 <= a < |t.queue| && t.queue[a].session == Some(k);
      assert s.queue[if a < i then a else a + 1].session == Some(k);
    }
  }

  /** Rejecting an aborted waiter sweeps those behind it as before. */
  lemma SweptAfter(s: Scheduler, i: nat, a: nat)
    requires i < |s.queue| && s.queue[i].ticket in s.aborted && a < |s.queue| && a != i
    ensures var t := s.(queue := Removed(s.queue, i), rejected := s.rejected + {s.queue[i].ticket});
      |t.queue| == |s.queue| - 1 && (Swept(t, if a < i then a else a - 1) <==> Swept(s, a))
  {
    RemovedAt(s.queue, i);
    var t := s.(queue := Removed(s.queue, i), rejected := s.rejected + {s.queue[i].ticket});
    var a' := if a < i then a else a - 1;
    if Swept(t, a') {
      forall j | 0 <= j <= a ensures s.queue[j].ticket in s.aborted || Busy(s, s.queue[j].session) {
        if j != i { assert t.queue[if j < i then j else j - 1] == s.queue[j]; }
      }
    }
    if Swept(s, a) {
      forall j | 0 <= j <= a' ensures t.queue[j].ticket in t.aborted || Busy(t, t.queue[j].session) {
        assert t.queue[j] == s.queue[if j < i then j else j + 1];
      }
    }
  }

  /** The drain's first eligible waiter is aborted: rejecting it changes neither side of the equivalence. */
  lemma RejectedLingers(s: Scheduler, limit: nat, i: nat, k: string)
    requires ObjectsShared(s) && s.active < limit && i == FirstEligible(s, 0) < |s.queue|
      && s.queue[i].ticket in s.aborted
    ensures var t := Served(s, i);
      (Lingers(t, k) || DrainStrands(t, limit, k) <==> Lingers(s, k) || DrainStrands(s, limit, k))
      && (OneSlot(s, limit, k) ==> OneSlot(t, limit, k))
  {
    var t := Served(s, i);
    RemovedAt(s.queue, i);
    WaitsAfter(s, i, k);
    assert s.queue[i] in s.queue;
    if !Busy(s, Some(k)) && Waits(s, k) {
      assert k in s.sessions by {
        var j :| 0 <= j < |s.queue| && s.queue[j].session == Some(k);
        assert s.queue[j] in s.queue;
      }
      if !Waits(t, k) {
        assert Swept(s, i);
      } else {
        assert DrainStrands(t, limit, k) <==> DrainStrands(s, limit, k) by { StrandedAlike(s, t, limit, i, k); }
      }
    }
  }

  lemma StrandedAlike(s: Scheduler, t: Scheduler, limit: nat, i: nat, k: string)
    requires i == FirstEligible(s, 0) < |s.queue| && s.queue[i].ticket in s.aborted && t == Served(s, i)
    requires s.active < limit && !Busy(s, Some(k)) && Waits(s, k) && Waits(t, k)
    ensures DrainStrands(t, limit, k) <==> DrainStrands(s, limit, k)
  {
    RemovedAt(s.queue, i);
    assert Swept(s, i);
    assert forall a :: 0 <= a < i ==> s.queue[a].session != Some(k);
    forall a | i < a < |s.queue| ensures t.queue[a - 1] == s.queue[a] && (Swept(t, a - 1) <==> Swept(s, a)) {
      SweptAfter(s, i, a);
    }
    assert !Busy(t, Some(k));
    hide Swept, FirstEligible, Served, Busy;
    if DrainStrands(s, limit, k) {
      forall b | 0 <= b < |t.queue| && t.queue[b].session == Some(k) ensures Swept(t, b) {
        if b >= i { assert t.queue[b] == s.queue[b + 1] && Swept(s, b + 1); }
      }
    }
    if DrainStrands(t, limit, k) {
      forall a | 0 <= a < |s.queue| && s.queue[a].session == Some(k) ensures Swept(s, a) {
        if a > i { assert Swept(t, a - 1); }
      }
    }
  }

  /** It is granted instead. If that was the last slot, the drain is over; else the session does not mind. */
  lemma GrantedLingers(s: Scheduler, limit: nat, i: nat, k: string)
    requires ObjectsShared(s) && s.active < limit && OneSlot(s, limit, k)
    requires i == FirstEligible(s, 0) < |s.queue| && s.queue[i].ticket !in s.aborted
    ensures var t := Served(s, i);
      (Lingers(t, k) || DrainStrands(t, limit, k) <==> Lingers(s, k) || DrainStrands(s, limit, k))
        && OneSlot(t, limit, k)
  {
    var w, t := s.queue[i], Served(s, i);
    RemovedAt(s.queue, i);
    WaitsAfter(s, i, k);
    assert w in s.queue;
    if w.session == Some(k) {
      assert Busy(t, Some(k)) && !Swept(s, i);
    } else {
      assert Busy(t, Some(k)) <==> Busy(s, Some(k));
      if Waits(s, k) && !Busy(s, Some(k)) {
        var j :| 0 <= j < |s.queue| && s.queue[j].session == Some(k);
        assert j > i && !Swept(s, j);
        assert Waits(t, k);
      }
    }
  }

  lemma {:induction false} DrainLingers(s: Scheduler, limit: nat, k: string)
    requires Kept(s, limit) && OneSlot(s, limit, k)
    ensures Lingers(Drain(s, limit), k) <==> Lingers(s, k) || DrainStrands(s, limit, k)
    decreases |s.queue|
  {
    var i := FirstEligible(s, 0);
    if s.active < limit && i < |s.queue| {
      ServedKeeps(s, limit, i);
      if s.queue[i].ticket in s.aborted {
        RejectedLingers(s, limit, i, k);
      } else {
        GrantedLingers(s, limit, i, k);
      }
      hide Kept, Served, OneSlot, Lingers, DrainStrands;
      DrainLingers(Served(s, i), limit, k);
    }
  }

  /** The sessions that stay busy when grant `g` is released. */
  predicate StaysBusy(s: Scheduler, g: nat, session: Option<string>)
    requires g < |s.grants|
  {
    Busy(s, session) && session != s.grants[g].session
  }

  /** The step leaves the session to nobody, as can be seen before it:
      - an abort listener runs for the only waiter of a session that nobody holds;
      - everything is disposed while somebody waits for a session that nobody holds;
      - another session's grant is released, and each waiter of the session is aborted and behind none but waiters
        that are aborted as well or whose sessions stay busy. */
  predicate Strands(s: Scheduler, op: Op, k: string) {
    !Busy(s, Some(k)) &&
    match op
    case DoAcquire(_, _) => false
    case SignalFires(_) => false
    case ListenerRuns(i) =>
      && i < |s.queue| && s.queue[i].ticket in s.aborted && s.queue[i].session == Some(k)
      && forall j :: 0 <= j < |s.queue| && j != i ==> s.queue[j].session != Some(k)
    case DoDispose => Waits(s, k)
    case DoRelease(g) =>
      && g < |s.grants| && !s.grants[g].released && Waits(s, k)
      && forall i, j :: 0 <= j <= i < |s.queue| && s.queue[i].session == Some(k)
           ==> s.queue[j].ticket in s.aborted || StaysBusy(s, g, s.queue[j].session)
  }

  lemma FreedBusySessions(s: Scheduler, g: nat, session: Option<string>)
    requires ObjectsShared(s) && BusyExact(s) && g < |s.grants| && !s.grants[g].released
    ensures Busy(Freed(s, g), session) <==> StaysBusy(s, g, session)
  {
    assert s.grants[g].session.Some? ==> Holds(s.grants[g]);
  }

  lemma FreedStrands(s: Scheduler, limit: nat, g: nat, k: string)
    requires Invariant(s, limit) && g < |s.grants| && !s.grants[g].released && Some(k) != s.grants[g].session
    ensures var f := Freed(s, g);
      && OneSlot(f, limit, k) && (Lingers(f, k) <==> Lingers(s, k))
      && (DrainStrands(f, limit, k) <==> Strands(s, DoRelease(g), k))
  {
    var f := Freed(s, g);
    forall session ensures Busy(f, session) <==> StaysBusy(s, g, session) { FreedBusySessions(s, g, session); }
    FreedKeeps(s, limit, g);
    FreedCountsDown(s, limit, g);
    hide Kept, Freed;
    assert !Busy(s, Some(k)) && s.active < limit ==> !Waits(s, k) by {
      if Waits(s, k) {
        var i :| 0 <= i < |s.queue| && s.queue[i].session == Some(k);
        assert s.queue[i] in s.queue;
      }
    }
    SweptByRelease(s, f, g, k);
  }

  lemma SweptByRelease(s: Scheduler, f: Scheduler, g: nat, k: string)
    requires g < |s.grants| && f.queue == s.queue && f.aborted == s.aborted
    requires forall session :: Busy(f, session) <==> StaysBusy(s, g, session)
    ensures (forall i :: 0 <= i < |f.queue| && f.queue[i].session == Some(k) ==> Swept(f, i))
      <==> (forall i, j :: 0 <= j <= i < |s.queue| && s.queue[i].session == Some(k)
              ==> s.queue[j].ticket in s.aborted || StaysBusy(s, g, s.queue[j].session))
  {}

  lemma FreedCountsDown(s: Scheduler, limit: nat, g: nat)
    requires Counted(s, limit) && g < |s.grants| && !s.grants[g].released
    ensures Freed(s, g).active == s.active - 1 < limit && Freed(s, g).queue == s.queue
      && Freed(s, g).aborted == s.aborted
    ensures Freed(s, g).sessions == s.sessions
  {
    UnreleasedAfterRelease(s.grants, g);
  }

  lemma ReleaseLingers(s: Scheduler, limit: nat, g: nat, k: string)
    requires Invariant(s, limit) && g < |s.grants| && !s.grants[g].released
    ensures Lingers(Release(s, limit, g), k) <==> Lingers(s, k) || Strands(s, DoRelease(g), k)
  {
    var grant := s.grants[g];
    var drained := Drain(Freed(s, g), limit);
    CapturedObject(s, limit, g);
    if grant.session == Some(k) {
      HeldIsBusy(s, g);
      hide Drain, Freed, Invariant, Kept;
      ForgottenLingers(drained, grant, k);
    } else {
      FreedKeeps(s, limit, g);
      FreedStrands(s, limit, g, k);
      DrainLingers(Freed(s, g), limit, k);
      hide Drain, Freed, Invariant, Kept, Lingers, Strands;
      OthersForgotten(drained, grant, k);
    }
  }

  lemma HeldIsBusy(s: Scheduler, g: nat)
    requires ObjectsShared(s) && BusyExact(s) && g < |s.grants| && !s.grants[g].released && s.grants[g].session.Some?
    ensures Busy(s, s.grants[g].session)
  {
    assert Holds(s.grants[g]);
  }

  lemma ForgottenLingers(s: Scheduler, grant: Grant, k: string)
    requires grant.session == Some(k) && (k in s.sessions ==> s.sessions[k] == grant.slot)
    ensures !Lingers(Forgotten(s, grant), k)
  {
    if w :| w in s.queue && w.session == Some(k) {
      var i :| 0 <= i < |s.queue| && s.queue[i] == w;
    }
  }

  lemma OthersForgotten(s: Scheduler, grant: Grant, k: string)
    requires grant.session != Some(k)
    ensures Lingers(Forgotten(s, grant), k) <==> Lingers(s, k)
  {}

  lemma AcquireLingers(s: Scheduler, limit: nat, session: Option<string>, aborted: bool, k: string)
    requires Kept(s, limit)
    ensures Lingers(Acquire(s, limit, session, aborted), k) <==> Lingers(s, k) && (aborted || session != Some(k))
  {
    var t := Acquire(s, limit, session, aborted);
    if Waits(s, k) {
      var i :| 0 <= i < |s.queue| && s.queue[i].session == Some(k);
      assert t.queue[i].session == Some(k);
    }
    if !aborted && session == Some(k) && |t.queue| > |s.queue| {
      assert t.queue[|s.queue|].session == Some(k);
    }
  }

  /** The step is a new request for the session. */
  predicate AsksFor(op: Op, k: string) {
    op.DoAcquire? && !op.aborted && Key(op.requested) == Some(k)
  }

  /** Remembered for nobody after the step: exactly if the step strands the session, or it was so before and the step is
      not a new request for it. */
  lemma StepLingers(s: Scheduler, limit: nat, op: Op, k: string)
    requires Invariant(s, limit)
    ensures Lingers(Next(s, limit, op), k) <==> Strands(s, op, k) || (Lingers(s, k) && !AsksFor(op, k))
  {
    match op
    case DoAcquire(requested, aborted) => AcquireLingers(s, limit, Key(requested), aborted, k);
    case DoRelease(g) => if g < |s.grants| && !s.grants[g].released { ReleaseLingers(s, limit, g, k); }
    case ListenerRuns(i) => if i < |s.queue| && s.queue[i].ticket in s.aborted { ListenerLingers(s, i, k); }
    case DoDispose => DisposedLingers(s, k);
    case SignalFires(_) =>
  }

  lemma ListenerLingers(s: Scheduler, i: nat, k: string)
    requires ObjectsShared(s) && i < |s.queue| && s.queue[i].ticket in s.aborted
    ensures Lingers(AbortListener(s, i), k) <==> Strands(s, ListenerRuns(i), k) || Lingers(s, k)
  {
    WaitsAfter(s, i, k);
    assert s.queue[i] in s.queue;
  }

  lemma DisposedLingers(s: Scheduler, k: string)
    requires ObjectsShared(s)
    ensures Lingers(Disposed(s), k) <==> Strands(s, DoDispose, k) || Lingers(s, k)
  {
    if Waits(s, k) {
      var i :| 0 <= i < |s.queue| && s.queue[i].session == Some(k);
      assert s.queue[i] in s.queue;
    }
  }

  /** Some step of the run strands the session, and nobody asks for it afterwards. */
  predicate StrandedForGood(limit: nat, ops: seq<Op>, k: string) {
    exists n: nat :: n < |ops| && StrandedAt(limit, ops, n, k)
  }

  predicate StrandedAt(limit: nat, ops: seq<Op>, n: nat, k: string)
    requires n < |ops|
  {
    Strands(Run(IDLE, limit, ops[..n]), ops[n], k) && forall m :: n < m < |ops| ==> !AsksFor(ops[m], k)
  }

  lemma StrandedStep(limit: nat, ops: seq<Op>, k: string)
    requires ops != []
    ensures var n := |ops| - 1;
      StrandedForGood(limit, ops, k)
      <==> (|| Strands(Run(IDLE, limit, ops[..n]), ops[n], k)
            || (StrandedForGood(limit, ops[..n], k) && !AsksFor(ops[n], k)))
  {
    var n := |ops| - 1;
    hide Strands, Run;
    forall m: nat | m < n ensures ops[..n][..m] == ops[..m] && ops[..n][m] == ops[m] {}
    if StrandedForGood(limit, ops[..n], k) && !AsksFor(ops[n], k) {
      var m: nat :| m < n && StrandedAt(limit, ops[..n], m, k);
      assert ops[..n][..m] == ops[..m];
      forall j | m < j < |ops| ensures !AsksFor(ops[j], k) {
        if j < n { assert ops[j] == ops[..n][j]; }
      }
      assert StrandedAt(limit, ops, m, k);
    }
    if Strands(Run(IDLE, limit, ops[..n]), ops[n], k) {
      assert StrandedAt(limit, ops, n, k);
    }
    if StrandedForGood(limit, ops, k) {
      var m: nat :| m < |ops| && StrandedAt(limit, ops, m, k);
      if m < n {
        assert ops[..n][..m] == ops[..m];
        assert StrandedAt(limit, ops[..n], m, k);
      }
    }
  }

  /** Over every run, aborts and disposals included: a session is remembered although nobody holds it or waits for it if
      and only if some step stranded it and nobody has asked for it since. */
  lemma {:induction false} LingersIffStranded(limit: nat, ops: seq<Op>, k: string)
    ensures Lingers(Run(IDLE, limit, ops), k) <==> StrandedForGood(limit, ops, k)
  {
    if ops != [] {
      var n := |ops| - 1;
      var s := Run(IDLE, limit, ops[..n]);
      LingersIffStranded(limit, ops[..n], k);
      RunKeeps(limit, ops[..n]);
      StrandedStep(limit, ops, k);
      hide Invariant, Lingers, Strands, StrandedForGood, Next;
      StepLingers(s, limit, ops[n], k);
    }
  }

  /** One session holds the only slot, another waits. */
  const CONTENDED := Scheduler(1, [Waiter(1, Some("b"))], map["a" := 0, "b" := 1], {0}, 2,
    [Grant(0, Some("a"), 0, false)], {}, 2, {})

  lemma Contend()
    ensures Run(IDLE, 1, [DoAcquire(Some("a"), false), DoAcquire(Some("b"), false)]) == CONTENDED
  {
    var a, b := DoAcquire(Some("a"), false), DoAcquire(Some("b"), false);
    RunLast(1, [], a);
    RunLast(1, [a], b);
    assert [] + [a] == [a] && [a] + [b] == [a, b];
    assert Acquire(IDLE, 1, Some("a"), false)
      == Scheduler(1, [], map["a" := 0], {0}, 1, [Grant(0, Some("a"), 0, false)], {}, 1, {});
  }

  /** A waiter that is aborted leaves its session behind: nobody holds it, nobody waits for it, and it is remembered. */
  lemma AnAbortLingers()
    ensures var ops := [DoAcquire(Some("a"), false), DoAcquire(Some("b"), false), SignalFires(1), ListenerRuns(0)];
      var s := Run(IDLE, 1, ops); "b" in s.sessions && !InUse(s, "b")
  {
    var a, b, fires, runs := DoAcquire(Some("a"), false), DoAcquire(Some("b"), false), SignalFires(1), ListenerRuns(0);
    Contend();
    RunLast(1, [a, b], fires);
    RunLast(1, [a, b, fires], runs);
    assert [a, b] + [fires] == [a, b, fires] && [a, b, fires] + [runs] == [a, b, fires, runs];
    hide Run;
    assert Removed(CONTENDED.queue, 0) == [];
  }

  lemma RunLast(limit: nat, ops: seq<Op>, op: Op)
    ensures Run(IDLE, limit, ops + [op]) == Next(Run(IDLE, limit, ops), limit, op)
  {
    assert (ops + [op])[..|ops|] == ops;
  }
}
