/** How an aggregate stream ends, and that it never stalls, over every run. */
module AggregateEnds {
  import opened Prelude
  import opened AggregateView
  import opened AggregateRuns

  /** The step delivers a host's new control baseline from which a projection key has vanished. */
  ghost predicate EndsHere(s: Hub, e: Event) {
    && e.Consume? && s.initial && s.queue != [] && s.queue[0].frame.Baseline? && s.endpoint.SessionControl?
    && Vanishes(if s.queue[0].host in s.views then s.views[s.queue[0].host] else EMPTY_VIEW, s.queue[0].frame.value)
  }

  lemma DeliveryEnds(s: Hub, p: Packet, s': Hub, out: seq<Frame>)
    requires HostsListed(s) && !s.ended && (p.frame.Baseline? || p.host in s.views) && Handles(s, p, s', out)
    ensures s'.ended <==> s.initial && p.frame.Baseline? && s.endpoint.SessionControl?
                          && Vanishes(if p.host in s.views then s.views[p.host] else EMPTY_VIEW, p.frame.value)
  {
    hide Apply, Merge, Fold, Forwarded, OrderKept, Vanishes, IsReplacement;
    if !p.frame.Baseline? {
      assert HandlesIncrement(s, p, s', out);
    } else if !s.initial {
      assert HandlesFirst(s, p, s', out);
    } else {
      ReplacementEnds(s, p, s', out);
    }
  }

  lemma StepEnds(s: Hub, e: Event, s': Hub, out: seq<Frame>)
    requires Next(s, e, s', out)
    ensures s'.ended <==> s.ended || EndsHere(s, e)
    ensures s.ended ==> out == []
  {
    hide Handles, Vanishes, Merge, FrameOk;
    if e.Consume? { DeliveryEnds(s.(queue := s.queue[1..]), s.queue[0], s', out); }
  }

  /** Along every run: the stream has ended exactly if some delivery met a vanished projection key, and from then on the
      client is sent nothing. */
  lemma {:induction false} StreamEnds(states: seq<Hub>, events: seq<Event>, outs: seq<seq<Frame>>)
    requires IsRun(states, events, outs)
    ensures states[|events|].ended <==> exists k :: 0 <= k < |events| && EndsHere(states[k], events[k])
    ensures forall k :: 0 <= k < |events| && states[k].ended ==> outs[k] == []
    decreases |events|
  {
    if events != [] {
      var n := |events| - 1;
      var before, taken := states[..n + 1], events[..n];
      assert IsRun(before, taken, outs[..n]) && Next(states[n], events[n], states[n + 1], outs[n]);
      hide EndsHere, Next, IsRun;
      StreamEnds(before, taken, outs[..n]);
      StepEnds(states[n], events[n], states[n + 1], outs[n]);
      assert forall k :: 0 <= k < n ==> before[k] == states[k] && taken[k] == events[k] && outs[..n][k] == outs[k];
      assert before[n] == states[n];
    }
  }

  lemma Listed(frames: set<Frame>) returns (q: seq<Frame>)
    ensures forall f :: f in q <==> f in frames
  {
    q := [];
    var left := frames;
    while left != {}
      invariant left <= frames && forall f :: f in q <==> f in frames - left
      decreases |left|
    {
      var f :| f in left;
      left, q := left - {f}, q + [f];
    }
  }

  lemma SomeReplacement(endpoint: Endpoint, previous: View, next: View, combined: View)
      returns (updates: Option<seq<Frame>>)
    ensures IsReplacement(endpoint, previous, next, combined, updates)
  {
    if endpoint.WorkspaceFollow? { return Some(WorkspaceReplacement(previous, next, combined)); }
    if Vanishes(previous, next) { return None; }
    var q := Listed(set sid | sid in previous.queues.Keys + next.queues.Keys :: Queue(sid, QueueOf(next, sid)));
    var j := Listed(set sid | sid in previous.jobs.Keys + next.jobs.Keys :: Jobs(sid, JobsOf(next, sid)));
    var p := Listed(set sid, key | sid in next.projections.Keys && key in next.projections[sid].values.Keys ::
                      ProjectionDelta(sid, key, next.projections[sid].values[key], next.projections[sid].asOfSeq));
    updates := Some(q + j + p);
  }

  lemma SomeIncrement(s: Hub, p: Packet) returns (s': Hub, out: seq<Frame>)
    requires HostsListed(s) && p.host in s.views
    ensures HandlesIncrement(s, p, s', out)
  {
    var next := Recorded(s, p.host, Apply(s.endpoint, s.views[p.host], p.frame));
    hide Apply, Merge, Forwarded, Fold, OrderKept;
    out := if s.initial then [Forwarded(s.endpoint, p.frame, HubMerge(next))] else [];
    s' := next.(client := Fold(s.endpoint, s.client, out), synced := p.frame.Order? || (s.synced && OrderKept(s, p)));
  }

  lemma SomeFirst(s: Hub, p: Packet) returns (s': Hub, out: seq<Frame>)
    requires HostsListed(s) && p.frame.Baseline?
    ensures HandlesFirst(s, p, s', out)
  {
    var next := Recorded(s, p.host, p.frame.value);
    hide Merge;
    if |next.views| == |s.entries| {
      return next.(initial := true, client := Some(HubMerge(next)), synced := true), [Baseline(HubMerge(next))];
    }
    return next, [];
  }

  lemma SomeReconnect(s: Hub, p: Packet) returns (s': Hub, out: seq<Frame>)
    requires HostsListed(s) && p.frame.Baseline?
    ensures HandlesReplacement(s, p, s', out)
  {
    var next := Recorded(s, p.host, p.frame.value);
    hide Merge, IsReplacement, Fold;
    var updates := SomeReplacement(s.endpoint, if p.host in s.views then s.views[p.host] else EMPTY_VIEW,
      p.frame.value, HubMerge(next));
    if updates.None? {
      return next.(ended := true), [];
    }
    return next.(client := Fold(s.endpoint, s.client, updates.value), synced := true), updates.value;
  }

  /** The loop never stalls: in every reachable state that has not ended, whatever waits first in the queue can be
      delivered. In particular no increment is ever met of a host without a view. */
  lemma NeverStalls(states: seq<Hub>, events: seq<Event>, outs: seq<seq<Frame>>) returns (s': Hub, out: seq<Frame>)
    requires IsRun(states, events, outs) && !states[|events|].ended && states[|events|].queue != []
    ensures Next(states[|events|], Consume, s', out)
  {
    RunKeeps(states, events, outs);
    s', out := Consumes(states[|events|]);
  }

  lemma SomeDelivery(s: Hub, p: Packet) returns (s': Hub, out: seq<Frame>)
    requires HostsListed(s) && (p.frame.Baseline? || p.host in s.views)
    ensures Handles(s, p, s', out)
  {
    hide HandlesIncrement, HandlesFirst, HandlesReplacement;
    if !p.frame.Baseline? {
      s', out := SomeIncrement(s, p);
    } else if !s.initial {
      s', out := SomeFirst(s, p);
    } else {
      s', out := SomeReconnect(s, p);
    }
  }

  lemma Consumes(s: Hub) returns (s': Hub, out: seq<Frame>)
    requires Invariant(s) && !s.ended && s.queue != []
    ensures Next(s, Consume, s', out)
  {
    QueuedIncrementsHaveViews(s);
    assert HostsListed(s);
    hide Invariant, Handles, Merge, FrameOk;
    s', out := SomeDelivery(s.(queue := s.queue[1..]), s.queue[0]);
  }
}
