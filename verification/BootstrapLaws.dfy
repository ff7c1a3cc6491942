/** What becomes of each request, said of the requests, the grants not yet released and the signals that have fired. */
module BootstrapLaws {
  import opened Prelude
  import opened Bootstrap
  import opened BootstrapRuns

  /** A grant for the session has not been released. */
  predicate InHand(s: Scheduler, session: Option<string>) {
    session.Some? && exists g :: 0 <= g < |s.grants| && !s.grants[g].released && s.grants[g].session == session
  }

  lemma BusyLaw(s: Scheduler, limit: nat, session: Option<string>)
    requires Kept(s, limit)
    ensures Busy(s, session) <==> InHand(s, session)
  {
    if Busy(s, session) {
      var g :| 0 <= g < |s.grants| && Holds(s.grants[g]) && s.grants[g].slot == s.sessions[session.value];
    }
    if InHand(s, session) {
      var g :| 0 <= g < |s.grants| && !s.grants[g].released && s.grants[g].session == session;
      assert Holds(s.grants[g]);
    }
  }

  /** The session a request names; the empty id names none. */
  predicate Names(requested: Option<string>, session: Option<string>) {
    if requested.Some? && |requested.value| > 0 then session == requested else session.None?
  }

  /** REQUESTS. A request whose signal has fired is rejected; any other is granted at once if a slot is free and no
      grant for its session is in hand, and otherwise waits behind the others. */
  lemma Requests(limit: nat, ops: seq<Op>, requested: Option<string>, aborted: bool, session: Option<string>)
    requires Names(requested, session)
    ensures var s, t := Run(IDLE, limit, ops), Run(IDLE, limit, ops + [DoAcquire(requested, aborted)]);
      && t.tickets == s.tickets + 1
      && if aborted then
           t.queue == s.queue && t.grants == s.grants && t.rejected == s.rejected + {s.tickets}
         else if Unreleased(s.grants) < limit && !InHand(s, session) then
           && t.queue == s.queue && t.rejected == s.rejected && |t.grants| == |s.grants| + 1
           && t.grants[..|s.grants|] == s.grants
           && var g := t.grants[|s.grants|];
           && g.ticket == s.tickets && g.session == session && !g.released
         else t.queue == s.queue + [Waiter(s.tickets, session)] && t.grants == s.grants && t.rejected == s.rejected
  {
    var s := Run(IDLE, limit, ops);
    RunLast(limit, ops, DoAcquire(requested, aborted));
    RunKeeps(limit, ops);
    BusyLaw(s, limit, session);
    assert Key(requested) == session;
    BusyOfKnown(s, session);
    hide Run, ObjectsShared, Exclusive, BusyExact, Queued, InOrder, Accounted, NoIdleSlot, Busy, InHand;
  }

  lemma BusyOfKnown(s: Scheduler, session: Option<string>)
    ensures s.slots !in s.busy ==>
      (Busy(Known(s.(tickets := s.tickets + 1), session), session) <==> Busy(s, session))
  {}

  // ---- Releases --------------------------------------------------------------------------------

  /** The grants of one state are those of the other, more may follow, and grant `g` is released. */
  ghost predicate OnlyReleases(s: Scheduler, t: Scheduler, g: nat) {
    && |s.grants| <= |t.grants|
    && forall k :: 0 <= k < |s.grants| ==> t.grants[k] == s.grants[k].(released := s.grants[k].released || k == g)
  }

  /** What a drain takes from the queue: each waiter that goes is rejected if its signal has fired, and granted for its
      session if not; those that stay keep their order. */
  ghost predicate Drained(s: Scheduler, t: Scheduler) {
    && |s.grants| <= |t.grants| && t.grants[..|s.grants|] == s.grants && t.tickets == s.tickets
    && t.aborted == s.aborted && s.rejected <= t.rejected
    && (forall w :: w in t.queue ==> w in s.queue)
    && (forall w :: w in s.queue && w !in t.queue ==>
          if w.ticket in s.aborted then w.ticket in t.rejected else GrantedSince(s, t, w))
    && (forall k :: |s.grants| <= k < |t.grants| ==>
          !t.grants[k].released && t.grants[k].ticket !in s.aborted && WaitedIn(s, t.grants[k]))
    && (forall n :: n in t.rejected && n !in s.rejected ==> n in s.aborted)
  }

  ghost predicate GrantedSince(s: Scheduler, t: Scheduler, w: Waiter) {
    exists k :: |s.grants| <= k < |t.grants| && t.grants[k].ticket == w.ticket && t.grants[k].session == w.session
  }

  ghost predicate WaitedIn(s: Scheduler, g: Grant) {
    exists w :: w in s.queue && w.ticket == g.ticket && w.session == g.session
  }

  lemma ServedLaw(s: Scheduler, i: nat)
    requires i < |s.queue| && Queued(s)
    ensures Drained(s, Served(s, i))
  {
    var w, t := s.queue[i], Served(s, i);
    RemovedMembers(s.queue, i);
    if w.ticket !in s.aborted {
      assert t.grants[|s.grants|].ticket == w.ticket;
      assert WaitedIn(s, t.grants[|s.grants|]);
    }
  }

  lemma DrainedChain(s: Scheduler, t: Scheduler, u: Scheduler)
    requires Drained(s, t) && Drained(t, u)
    ensures Drained(s, u)
  {
    forall w | w in s.queue && w !in u.queue
      ensures if w.ticket in s.aborted then w.ticket in u.rejected else GrantedSince(s, u, w)
    {
      if w.ticket !in s.aborted {
        if w in t.queue {
          var k :| |t.grants| <= k < |u.grants| && u.grants[k].ticket == w.ticket && u.grants[k].session == w.session;
        } else {
          var k :| |s.grants| <= k < |t.grants| && t.grants[k].ticket == w.ticket && t.grants[k].session == w.session;
          assert u.grants[..|t.grants|][k] == u.grants[k];
        }
      }
    }
    forall k | |s.grants| <= k < |u.grants|
      ensures !u.grants[k].released && u.grants[k].ticket !in s.aborted && WaitedIn(s, u.grants[k])
    {
      if k < |t.grants| {
        assert u.grants[..|t.grants|][k] == u.grants[k];
      } else {
        assert WaitedIn(t, u.grants[k]);
      }
    }
    assert u.grants[..|s.grants|] == u.grants[..|t.grants|][..|s.grants|];
  }

  lemma DrainedAtRest(s: Scheduler)
    ensures Drained(s, s)
  {
    assert s.grants[..|s.grants|] == s.grants;
  }

  lemma {:induction false} DrainLaw(s: Scheduler, limit: nat)
    requires Kept(s, limit)
    ensures Drained(s, Drain(s, limit))
    decreases |s.queue|
  {
    var i := FirstEligible(s, 0);
    DrainOnce(s, limit);
    hide Drain, Served, Drained, Kept;
    if s.active < limit && i < |s.queue| {
      ServedKeeps(s, limit, i);
      assert Queued(s) by { KeptInOrder(s, limit); }
      ServedLaw(s, i);
      DrainLaw(Served(s, i), limit);
      DrainedChain(s, Served(s, i), Drain(s, limit));
    } else {
      DrainedAtRest(s);
    }
  }

  lemma KeptInOrder(s: Scheduler, limit: nat)
    requires Kept(s, limit)
    ensures Queued(s)
  {}

  lemma DrainOnce(s: Scheduler, limit: nat)
    ensures var i := FirstEligible(s, 0);
      Drain(s, limit) == if s.active < limit && i < |s.queue| then Drain(Served(s, i), limit) else s
  {
    hide Served;
  }

  /** RELEASES. A release function marks its grant released, once; then waiters leave the queue while slots are free: a
      waiter whose signal has fired is rejected, any other is granted; and none is left that could have been. */
  lemma Releases(limit: nat, ops: seq<Op>, g: nat)
    requires g < |Run(IDLE, limit, ops).grants|
    ensures var s, t := Run(IDLE, limit, ops), Run(IDLE, limit, ops + [DoRelease(g)]);
      if s.grants[g].released then t == s
      else
        && OnlyReleases(s, t, g) && Drained(s.(grants := t.grants[..|s.grants|]), t)
        && (Unreleased(t.grants) < limit ==> forall w :: w in t.queue ==> InHand(t, w.session))
  {
    var s := Run(IDLE, limit, ops);
    RunLast(limit, ops, DoRelease(g));
    RunKeeps(limit, ops);
    RunKeeps(limit, ops + [DoRelease(g)]);
    var t := Run(IDLE, limit, ops + [DoRelease(g)]);
    if !s.grants[g].released {
      FreedKeeps(s, limit, g);
      DrainLaw(Freed(s, g), limit);
      forall w | Unreleased(t.grants) < limit && w in t.queue ensures InHand(t, w.session) {
        BusyLaw(t, limit, w.session);
      }
      ReleasedLaw(s, limit, g);
    }
    hide Run, Release, Drain;
  }

  lemma ReleasedLaw(s: Scheduler, limit: nat, g: nat)
    requires g < |s.grants| && !s.grants[g].released && Drained(Freed(s, g), Drain(Freed(s, g), limit))
    ensures var t := Release(s, limit, g);
      OnlyReleases(s, t, g) && Drained(s.(grants := t.grants[..|s.grants|]), t)
  {
    var f := Freed(s, g);
    var d := Drain(f, limit);
    var t := Release(s, limit, g);
    hide Drain;
    assert t.grants == d.grants && t.queue == d.queue && t.rejected == d.rejected;
    forall k | 0 <= k < |s.grants| ensures t.grants[k] == s.grants[k].(released := s.grants[k].released || k == g) {
      assert d.grants[..|f.grants|][k] == f.grants[k];
    }
    assert t.grants[..|s.grants|] == f.grants;
    var r := s.(grants := t.grants[..|s.grants|]);
    assert forall w :: GrantedSince(f, d, w) ==> GrantedSince(r, t, w);
    assert forall x :: WaitedIn(f, x) ==> WaitedIn(r, x);
  }

  // ---- Signals and disposal --------------------------------------------------------------------

  /** SIGNALS. A signal that fires changes nothing but itself; its listener takes the request out of the queue and
      rejects it; disposal rejects every request that waits. */
  lemma Signals(limit: nat, ops: seq<Op>, ticket: nat, i: nat)
    ensures var s, t := Run(IDLE, limit, ops), Run(IDLE, limit, ops + [SignalFires(ticket)]);
      t == s.(aborted := if ticket < s.tickets then s.aborted + {ticket} else s.aborted)
    ensures var s, t := Run(IDLE, limit, ops), Run(IDLE, limit, ops + [ListenerRuns(i)]);
      if i < |s.queue| && s.queue[i].ticket in s.aborted then
        && t.rejected == s.rejected + {s.queue[i].ticket} && t.grants == s.grants && |t.queue| == |s.queue| - 1
        && (forall j :: 0 <= j < |t.queue| ==> t.queue[j] == s.queue[if j < i then j else j + 1])
      else t == s
    ensures var s, t := Run(IDLE, limit, ops), Run(IDLE, limit, ops + [DoDispose]);
      && t.queue == [] && t.grants == s.grants
      && forall n :: n in t.rejected <==> n in s.rejected || exists w :: w in s.queue && w.ticket == n
  {
    RunLast(limit, ops, SignalFires(ticket));
    RunLast(limit, ops, ListenerRuns(i));
    RunLast(limit, ops, DoDispose);
    hide Run;
  }
}
