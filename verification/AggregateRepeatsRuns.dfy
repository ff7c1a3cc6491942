/** Runs in which hosts may list a workspace id twice: agreement lasts exactly as long as no harmful frame is
    delivered. */
module AggregateRepeatsRuns {
  import opened Prelude
  import opened AggregateView
  import opened AggregateRuns
  import opened AggregateRepeats

  /** A host's frame carries its own identities; ids may repeat, in lists and in order frames. */
  predicate FrameTagged(host: string, f: Frame) {
    match f
    case Baseline(v) => Tagged(host, v.items)
    case Upsert(w) => w.id.host == host
    case Remove(id) => id.host == host
    case _ => true
  }

  /** One step, with no more asked of the hosts than that. */
  ghost predicate LooseNext(s: Hub, e: Event, s': Hub, out: seq<Frame>) {
    if e.Sends? then FrameTagged(e.sender, e.frame) && s' == Pump(s, e.sender, e.frame) && out == []
    else Next(s, e, s', out)
  }

  ghost predicate IsLooseRun(states: seq<Hub>, events: seq<Event>, outs: seq<seq<Frame>>) {
    && |states| == |events| + 1 == |outs| + 1
    && (exists entries :: states[0] == AggregateView.Start(WorkspaceFollow, entries) && entries != {})
    && forall i :: 0 <= i < |events| ==> LooseNext(states[i], events[i], states[i + 1], outs[i])
  }

  ghost predicate Loose(s: Hub) {
    && s.endpoint.WorkspaceFollow? && HostsListed(s) && AllTagged(s.hosts, s.views) && !s.ended
    && (forall i :: 0 <= i < |s.queue| ==> FrameTagged(s.queue[i].host, s.queue[i].frame))
    && (s.initial <==> s.client.Some?)
    && (s.initial ==> DistinctIds(s.client.value.items))
  }

  function Archive(s: Hub): seq<Id>
    requires forall h :: h in s.hosts ==> h in s.views
  {
    FirstIds(AllArchived(Values(s.hosts, s.views)))
  }

  /** Once it has been seeded, the client finds what the merge finds, and has its archive. */
  ghost predicate SeesMerge(s: Hub) {
    s.initial ==>
      && s.client.Some? && (forall h :: h in s.hosts ==> h in s.views)
      && SameItems(s.client.value.items, HubMerge(s).items) && s.client.value.archived == Archive(s)
  }

  /** The step delivers to a seeded client an order frame, or a new baseline, in which some id stands for two different
      workspaces at the ends of its host's list. */
  predicate Harmful(s: Hub, e: Event) {
    e.Consume? && s.queue != [] && HarmfulPacket(s, s.queue[0])
  }

  predicate HarmfulPacket(s: Hub, p: Packet) {
    s.initial && (HarmfulOrder(s, p) || HarmfulBaseline(p))
  }

  predicate HarmfulOrder(s: Hub, p: Packet) {
    p.frame.Order? && p.host in s.views && !RepeatsHarmless(s.views[p.host].items, p.frame.workspaceIds)
  }

  predicate HarmfulBaseline(p: Packet) {
    p.frame.Baseline? && !RepeatsHarmless(p.frame.value.items, Ids(p.frame.value.items))
  }

  // ---- Archives --------------------------------------------------------------------------------

  lemma SameArchive(s: Hub, host: string, view: View)
    requires HostsListed(s) && host in s.views && view.archived == s.views[host].archived
    ensures Archive(Recorded(s, host, view)) == Archive(s)
  {
    AllArchivedCongruent(Values(s.hosts, s.views[host := view]), Values(s.hosts, s.views));
  }

  // ---- Increments ------------------------------------------------------------------------------

  lemma AppliedTagged(host: string, v: View, f: Frame)
    requires Tagged(host, v.items) && FrameTagged(host, f)
    ensures Tagged(host, Apply(WorkspaceFollow, v, f).items)
  {
    match f
    case Upsert(w) => UpsertedTagged(host, v.items, w);
    case Remove(id) => WithoutIdTagged(host, v.items, id);
    case Order(ids) => OrderedTagged(host, v.items, ids);
    case _ =>
  }

  /** What the client holds after a forwarded increment. */
  lemma ClientKept(c: View, f: Frame, merged: View)
    requires DistinctIds(c.items) && DistinctIds(merged.items) && !f.Baseline?
    ensures DistinctIds(Apply(WorkspaceFollow, c, Forwarded(WorkspaceFollow, f, merged)).items)
  {
    match f
    case Upsert(w) => UpsertedShape(c.items, w);
    case Remove(id) => WithoutIdShape(c.items, id);
    case Order(_) =>
      DistinctIdsOf(merged.items);
      OrderedShape(c.items, Ids(merged.items));
    case _ =>
  }

  /** What is found after an upsert or a removal, in the host's view and in the client alike. */
  lemma FindApplied(v: View, f: Frame, id: Id)
    requires !f.Order? && !f.Baseline?
    ensures var applied := Apply(WorkspaceFollow, v, f).items;
      Find(applied, id) == match f
        case Upsert(w) => if id == w.id then Some(w) else Find(v.items, id)
        case Remove(removed) => if id == removed then None else Find(v.items, id)
        case _ => Find(v.items, id)
  {
    match f
    case Upsert(w) => FindUpserted(v.items, w, id);
    case Remove(removed) => FindWithoutId(v.items, removed, id);
    case _ =>
  }

  /** An increment other than an order frame keeps agreement, repeats or not. */
  lemma OtherIncrement(s: Hub, c: View, p: Packet)
    requires HostsListed(s) && AllTagged(s.hosts, s.views) && p.host in s.views && FrameTagged(p.host, p.frame)
    requires !p.frame.Order? && !p.frame.Baseline? && SameItems(c.items, HubMerge(s).items)
    ensures var next := Recorded(s, p.host, Apply(WorkspaceFollow, s.views[p.host], p.frame));
      HostsListed(next) && SameItems(Apply(WorkspaceFollow, c, p.frame).items, HubMerge(next).items)
  {
    var view := Apply(WorkspaceFollow, s.views[p.host], p.frame);
    var next := Recorded(s, p.host, view);
    AppliedTagged(p.host, s.views[p.host], p.frame);
    RecordedTagged(s, p.host, view);
    hide Apply, Merge, Find, Tagged;
    forall id ensures Find(Apply(WorkspaceFollow, c, p.frame).items, id) == Find(HubMerge(next).items, id) {
      FindApplied(c, p.frame, id);
      FindApplied(s.views[p.host], p.frame, id);
      FindMerged(s.hosts, s.views, id);
      FindMerged(next.hosts, next.views, id);
    }
  }

  lemma IncrementItems(s: Hub, c: View, p: Packet)
    requires Loose(s) && p.host in s.views && FrameTagged(p.host, p.frame) && !p.frame.Baseline?
    requires DistinctIds(c.items) && SameItems(c.items, HubMerge(s).items)
    ensures var next := Recorded(s, p.host, Apply(WorkspaceFollow, s.views[p.host], p.frame));
      HostsListed(next)
      && var after := Apply(WorkspaceFollow, c, Forwarded(WorkspaceFollow, p.frame, HubMerge(next)));
         SameItems(after.items, HubMerge(next).items) <==> !HarmfulOrder(s, p)
  {
    hide Apply, Merge, SameItems, RepeatsHarmless, DistinctIds;
    if p.frame.Order? {
      OrderAgreesIff(s, c, p.host, p.frame.workspaceIds);
    } else {
      OtherIncrement(s, c, p);
      ForwardedSame(p.frame, HubMerge(Recorded(s, p.host, Apply(WorkspaceFollow, s.views[p.host], p.frame))), c);
    }
  }

  /** Only an order frame is rewritten in a way that matters to the items. */
  lemma ForwardedSame(f: Frame, merged: View, c: View)
    requires !f.Order?
    ensures Apply(WorkspaceFollow, c, Forwarded(WorkspaceFollow, f, merged)).items == Apply(WorkspaceFollow, c, f).items
  {}

  lemma IncrementArchive(s: Hub, c: View, p: Packet)
    requires Loose(s) && p.host in s.views && !p.frame.Baseline? && c.archived == Archive(s)
    ensures var next := Recorded(s, p.host, Apply(WorkspaceFollow, s.views[p.host], p.frame));
      HostsListed(next)
      && Apply(WorkspaceFollow, c, Forwarded(WorkspaceFollow, p.frame, HubMerge(next))).archived == Archive(next)
  {
    hide Tagged, DistinctIds, FrameTagged, FirstItems, AllItems;
    if !p.frame.Archived? { SameArchive(s, p.host, Apply(WorkspaceFollow, s.views[p.host], p.frame)); }
  }

  lemma IncrementStep(s: Hub, p: Packet, s': Hub, out: seq<Frame>)
    requires Loose(s) && p.host in s.views && FrameTagged(p.host, p.frame) && !p.frame.Baseline?
    requires HandlesIncrement(s, p, s', out)
    ensures Loose(s') && s'.initial == s.initial
    ensures SeesMerge(s) ==> (SeesMerge(s') <==> !(s.initial && HarmfulOrder(s, p)))
  {
    var view := Apply(WorkspaceFollow, s.views[p.host], p.frame);
    var next := Recorded(s, p.host, view);
    AppliedTagged(p.host, s.views[p.host], p.frame);
    RecordedTagged(s, p.host, view);
    if s.initial {
      var c := s.client.value;
      var f := Forwarded(WorkspaceFollow, p.frame, HubMerge(next));
      FoldOne(WorkspaceFollow, c, f);
      MergedDistinct(Values(next.hosts, next.views));
      ClientKept(c, p.frame, HubMerge(next));
      if SeesMerge(s) {
        IncrementItems(s, c, p);
        IncrementArchive(s, c, p);
      }
    }
    hide Apply, Merge, SameItems, DistinctIds, Tagged, Forwarded, RepeatsHarmless, OrderKept;
  }

  // ---- Baselines -------------------------------------------------------------------------------

  lemma SeededSees(s: Hub, s': Hub)
    requires Loose(s) && s' == s.(initial := true, client := Some(HubMerge(s)), synced := true)
    ensures Loose(s') && SeesMerge(s')
  {
    MergedDistinct(Values(s.hosts, s.views));
  }

  lemma FirstStep(s: Hub, p: Packet, s': Hub, out: seq<Frame>)
    requires Loose(s) && FrameTagged(p.host, p.frame) && p.frame.Baseline? && !s.initial && HandlesFirst(s, p, s', out)
    ensures Loose(s') && SeesMerge(s')
  {
    var next := Recorded(s, p.host, p.frame.value);
    RecordedTagged(s, p.host, p.frame.value);
    hide Merge, SameItems;
    if |next.views| == |s.entries| { SeededSees(next, s'); }
  }

  /** What the burst does to the client, and that the loop goes on. */
  lemma BurstShape(s: Hub, p: Packet, s': Hub, out: seq<Frame>)
    requires s.endpoint.WorkspaceFollow? && HostsListed(s) && p.frame.Baseline? && HandlesReplacement(s, p, s', out)
    ensures var next := Recorded(s, p.host, p.frame.value);
      && HostsListed(next)
      && out == WorkspaceReplacement(ViewOf(s.views, p.host), p.frame.value, HubMerge(next))
      && s' == next.(client := Fold(WorkspaceFollow, s.client, out), synced := true)
  {
    hide Merge, WorkspaceReplacement, Fold;
  }

  lemma BurstStep(s: Hub, p: Packet, s': Hub, out: seq<Frame>)
    requires Loose(s) && FrameTagged(p.host, p.frame) && p.frame.Baseline? && s.initial
    requires HandlesReplacement(s, p, s', out)
    ensures Loose(s') && s'.initial
    ensures SeesMerge(s) ==> (SeesMerge(s') <==> !HarmfulBaseline(p))
  {
    var view, c := p.frame.value, s.client.value;
    var next := Recorded(s, p.host, view);
    RecordedTagged(s, p.host, view);
    BurstShape(s, p, s', out);
    MergedDistinct(Values(next.hosts, next.views));
    FindAfterBurst(c, ViewOf(s.views, p.host), view, HubMerge(next), Id(p.host, ""));
    if SeesMerge(s) {
      BurstAgreesIff(s, c, p.host, view);
      ArchiveOfMerge(next);
    }
    hide HandlesReplacement, Merge, SameItems, DistinctIds, Tagged, WorkspaceReplacement, RepeatsHarmless, Find,
      LastWith,
      AllArchived, FirstIds, FrameTagged, Fold, Ids;
  }

  lemma ArchiveOfMerge(s: Hub)
    requires forall h :: h in s.hosts ==> h in s.views
    ensures HubMerge(s).archived == Archive(s)
  {}

  // ---- Runs ------------------------------------------------------------------------------------

  lemma DeliveryStep(s: Hub, p: Packet, s': Hub, out: seq<Frame>)
    requires Loose(s) && FrameTagged(p.host, p.frame) && (p.frame.Baseline? || p.host in s.views)
    requires Handles(s, p, s', out)
    ensures Loose(s') && (SeesMerge(s) ==> (SeesMerge(s') <==> !HarmfulPacket(s, p)))
  {
    hide SeesMerge, HandlesIncrement, HandlesFirst, HandlesReplacement, RepeatsHarmless, FrameTagged;
    if !p.frame.Baseline? {
      IncrementStep(s, p, s', out);
    } else if !s.initial {
      FirstStep(s, p, s', out);
    } else {
      BurstStep(s, p, s', out);
    }
  }

  lemma ConsumeStep(s: Hub, s': Hub, out: seq<Frame>)
    requires Loose(s) && Next(s, Consume, s', out)
    ensures Loose(s') && (SeesMerge(s) ==> (SeesMerge(s') <==> !Harmful(s, Consume)))
  {
    var s0, p := s.(queue := s.queue[1..]), s.queue[0];
    assert SeesMerge(s0) <==> SeesMerge(s);
    hide SeesMerge, Handles, RepeatsHarmless, Merge, AllTagged, DistinctIds;
    DeliveryStep(s0, p, s', out);
  }

  lemma PumpStep(s: Hub, host: string, frame: Frame)
    requires Loose(s) && FrameTagged(host, frame)
    ensures Loose(Pump(s, host, frame)) && (SeesMerge(s) ==> SeesMerge(Pump(s, host, frame)))
  {
    hide Merge, AllTagged, DistinctIds, FrameTagged, SameItems, AllArchived, FirstIds;
  }

  lemma LooseStep(s: Hub, e: Event, s': Hub, out: seq<Frame>)
    requires Loose(s) && LooseNext(s, e, s', out)
    ensures Loose(s') && (SeesMerge(s) ==> (SeesMerge(s') <==> !Harmful(s, e)))
  {
    hide Merge, AllTagged, DistinctIds, FrameTagged, SameItems, AllArchived, FirstIds, Handles, Pump;
    match e
    case Consume => ConsumeStep(s, s', out);
    case Deadline => SeededSees(s, s');
    case Sends(host, frame) => PumpStep(s, host, frame);
    case _ =>
  }

  lemma StartSees(states: seq<Hub>, events: seq<Event>, outs: seq<seq<Frame>>)
    requires IsLooseRun(states, events, outs)
    ensures |states| == |events| + 1 == |outs| + 1 && Loose(states[0]) && SeesMerge(states[0])
  {}

  lemma RunStep(states: seq<Hub>, events: seq<Event>, outs: seq<seq<Frame>>, n: nat)
    requires IsLooseRun(states, events, outs) && n < |events|
    ensures LooseNext(states[n], events[n], states[n + 1], outs[n])
  {}

  lemma {:induction false} LooseRunKeeps(states: seq<Hub>, events: seq<Event>, outs: seq<seq<Frame>>, n: nat)
    requires IsLooseRun(states, events, outs) && n <= |events|
    ensures |states| == |events| + 1 && Loose(states[n])
  {
    StartSees(states, events, outs);
    if n > 0 {
      RunStep(states, events, outs, n - 1);
      hide Loose, LooseNext, IsLooseRun;
      LooseRunKeeps(states, events, outs, n - 1);
      LooseStep(states[n - 1], events[n - 1], states[n], outs[n - 1]);
    }
  }

  lemma {:induction false} SeesWhileHarmless(states: seq<Hub>, events: seq<Event>, outs: seq<seq<Frame>>, n: nat)
    requires IsLooseRun(states, events, outs) && n <= |events|
    requires forall k :: 0 <= k < n ==> !Harmful(states[k], events[k])
    ensures SeesMerge(states[n])
  {
    hide Loose, LooseNext, Harmful, SeesMerge, IsLooseRun;
    StartSees(states, events, outs);
    if n > 0 {
      RunStep(states, events, outs, n - 1);
      LooseRunKeeps(states, events, outs, n - 1);
      SeesWhileHarmless(states, events, outs, n - 1);
      LooseStep(states[n - 1], events[n - 1], states[n], outs[n - 1]);
    }
  }

  /** Over every run, whatever ids the hosts repeat: the client sees the merge in every state if and only if no step
      delivers a harmful order frame or baseline. */
  lemma SeesMergeIffHarmless(states: seq<Hub>, events: seq<Event>, outs: seq<seq<Frame>>)
    requires IsLooseRun(states, events, outs)
    ensures (forall n :: 0 <= n <= |events| ==> SeesMerge(states[n]))
      <==> (forall k :: 0 <= k < |events| ==> !Harmful(states[k], events[k]))
  {
    StartSees(states, events, outs);
    hide Loose, LooseNext, Harmful, SeesMerge;
    if forall k :: 0 <= k < |events| ==> !Harmful(states[k], events[k]) {
      forall n | 0 <= n <= |events| ensures SeesMerge(states[n]) { SeesWhileHarmless(states, events, outs, n); }
    }
    if forall n :: 0 <= n <= |events| ==> SeesMerge(states[n]) {
      forall k | 0 <= k < |events| ensures !Harmful(states[k], events[k]) {
        LooseRunKeeps(states, events, outs, k);
        LooseStep(states[k], events[k], states[k + 1], outs[k]);
      }
    }
  }

  /** In such a run the client's value is the fold of what it was sent. */
  lemma {:induction false} ClientIsFold(states: seq<Hub>, events: seq<Event>, outs: seq<seq<Frame>>, n: nat)
    requires IsLooseRun(states, events, outs) && n <= |events|
    ensures states[n].client == Fold(WorkspaceFollow, None, Concat(outs[..n]))
  {
    if n > 0 {
      ClientIsFold(states, events, outs, n - 1);
      LooseRunKeeps(states, events, outs, n - 1);
      assert outs[..n][..n - 1] == outs[..n - 1];
      hide IsLooseRun;
      StepFolds(states[n - 1], events[n - 1], states[n], outs[n - 1]);
      FoldAppend(WorkspaceFollow, None, Concat(outs[..n - 1]), outs[n - 1]);
    }
  }

  lemma StepFolds(s: Hub, e: Event, s': Hub, out: seq<Frame>)
    requires Loose(s) && LooseNext(s, e, s', out)
    ensures s'.client == Fold(WorkspaceFollow, s.client, out)
  {
    hide Merge, Apply, Forwarded, WorkspaceReplacement, OrderKept;
    if e.Deadline? { assert out[1..] == []; }
    if e.Consume? {
      var s0, p := s.(queue := s.queue[1..]), s.queue[0];
      if p.frame.Baseline? && !s.initial {
        assert HandlesFirst(s0, p, s', out);
        if out != [] { assert out[1..] == []; }
      }
    }
  }
}
