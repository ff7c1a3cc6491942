/** Hosts that list a workspace id twice: when an order frame then separates the client from the merge. */
module AggregateRepeats {
  import opened Prelude
  import opened AggregateView
  import opened AggregateRuns

  // ---- Looking up by id ------------------------------------------------------------------------

  lemma {:induction false} FindAppend(a: seq<Workspace>, b: seq<Workspace>, id: Id)
    ensures Find(a + b, id) == if Find(a, id).Some? then Find(a, id) else Find(b, id)
  {
    if a == [] {
      assert a + b == b;
    } else {
      assert (a + b)[1..] == a[1..] + b;
      FindAppend(a[1..], b, id);
    }
  }

  lemma FindOne(w: Workspace, id: Id)
    ensures Find([w], id) == if w.id == id then Some(w) else None
  {}

  lemma FindAbsent(items: seq<Workspace>, id: Id)
    ensures Find(items, id).Some? <==> id in Ids(items)
  {
    var i := IndexOf(items, id);
    if i.Some? { assert Ids(items)[i.value] == id; }
  }

  /** Keeping the first workspace of each id keeps what is found. */
  lemma {:induction false} FindFirst(items: seq<Workspace>, id: Id)
    ensures Find(FirstItems(items), id) == Find(items, id)
  {
    if items != [] {
      var before, last := items[..|items| - 1], items[|items| - 1];
      FindFirst(before, id);
      assert items == before + [last];
      FindAppend(before, [last], id);
      FindAppend(FirstItems(before), [last], id);
      FindOne(last, id);
      FindAbsent(before, id);
      if last.id in Ids(before) { assert FirstItems(items) == FirstItems(before) + [] == FirstItems(before); }
    }
  }

  /** What a host lists carries the host's name; ids may repeat. */
  predicate Tagged(host: string, items: seq<Workspace>) {
    forall w :: w in items ==> w.id.host == host
  }

  ghost predicate AllTagged(hosts: seq<string>, views: map<string, View>) {
    Distinct(hosts) && forall h :: h in hosts ==> h in views && Tagged(h, views[h].items)
  }

  lemma FindTagged(host: string, items: seq<Workspace>, id: Id)
    requires Tagged(host, items)
    ensures Find(items, id).Some? ==> id.host == host
  {}

  lemma {:induction false} FindAll(hosts: seq<string>, views: map<string, View>, id: Id)
    requires AllTagged(hosts, views)
    ensures Find(AllItems(Values(hosts, views)), id) == if id.host in hosts then Find(views[id.host].items, id)
      else None
  {
    if hosts != [] {
      var n := |hosts| - 1;
      assert hosts == hosts[..n] + [hosts[n]];
      assert Values(hosts, views)[..n] == Values(hosts[..n], views);
      assert hosts[n] in hosts && hosts[n] !in hosts[..n];
      FindAll(hosts[..n], views, id);
      FindAppend(AllItems(Values(hosts[..n], views)), views[hosts[n]].items, id);
      FindTagged(hosts[n], views[hosts[n]].items, id);
    }
  }

  // ---- An order frame --------------------------------------------------------------------------

  lemma {:induction false} LastWithId(items: seq<Workspace>, id: Id)
    ensures LastWith(items, id).Some? ==> LastWith(items, id).value.id == id
    ensures LastWith(items, id).Some? <==> Find(items, id).Some?
  {
    if items != [] {
      var n := |items| - 1;
      LastWithId(items[..n], id);
      assert items == items[..n] + [items[n]];
      FindAppend(items[..n], [items[n]], id);
    }
  }

  lemma {:induction false} FindPicked(items: seq<Workspace>, ids: seq<Id>, id: Id)
    ensures Find(Picked(items, ids), id) == if id in ids then LastWith(items, id) else None
  {
    if ids != [] {
      LastWithId(items, ids[0]);
      FindPicked(items, ids[1..], id);
      if w :| LastWith(items, ids[0]) == Some(w) {
        FindAppend([w], Picked(items, ids[1..]), id);
      } else {
        assert Picked(items, ids) == [] + Picked(items, ids[1..]) == Picked(items, ids[1..]);
      }
    }
  }

  lemma {:induction false} FindWithout(items: seq<Workspace>, ids: seq<Id>, id: Id)
    ensures Find(WithoutIds(items, ids), id) == if id in ids then None else Find(items, id)
  {
    if items != [] {
      FindWithout(items[1..], ids, id);
      FindAppend([items[0]], items[1..], id);
      FindAppend([items[0]], WithoutIds(items[1..], ids), id);
      assert items == [items[0]] + items[1..];
      FindOne(items[0], id);
      if items[0].id in ids {
        assert WithoutIds(items, ids) == [] + WithoutIds(items[1..], ids) == WithoutIds(items[1..], ids);
      }
    }
  }

  /** An ordered list holds the last workspace of each id it was ordered by, and the first of every other id. */
  lemma FindOrdered(items: seq<Workspace>, ids: seq<Id>, id: Id)
    ensures Find(Picked(items, ids) + WithoutIds(items, ids), id) == if id in ids then LastWith(items, id)
      else Find(items, id)
  {
    FindAppend(Picked(items, ids), WithoutIds(items, ids), id);
    FindPicked(items, ids, id);
    FindWithout(items, ids, id);
    LastWithId(items, id);
  }

  lemma LastIsOnly(items: seq<Workspace>, id: Id)
    requires DistinctIds(items)
    ensures LastWith(items, id) == Find(items, id)
  {
    LastWithShape(items, id);
    LastWithId(items, id);
    var i := IndexOf(items, id);
    if i.Some? { assert items[i.value] in items; }
  }

  ghost predicate SameItems(a: seq<Workspace>, b: seq<Workspace>) {
    forall id :: Find(a, id) == Find(b, id)
  }

  /** For each id of the frame, the host's first and last workspaces of that id are the same one: so if it lists none
      twice. */
  predicate RepeatsHarmless(items: seq<Workspace>, ids: seq<Id>) {
    forall id :: id in ids ==> Find(items, id) == LastWith(items, id)
  }

  /** A client that sees the merge sees it again after a host's order frame exactly if no id of the frame has two
      different workspaces at the ends of the host's list. The hosts may list ids twice, and so may the frame. */
  lemma OrderAgreesIff(s: Hub, c: View, host: string, ids: seq<Id>)
    requires HostsListed(s) && s.endpoint.WorkspaceFollow? && AllTagged(s.hosts, s.views) && host in s.views
    requires DistinctIds(c.items) && SameItems(c.items, HubMerge(s).items)
    ensures var merged := HubMerge(Recorded(s, host, Apply(s.endpoint, s.views[host], Order(ids))));
      var after := Apply(s.endpoint, c, Forwarded(s.endpoint, Order(ids), merged));
      SameItems(after.items, merged.items) <==> RepeatsHarmless(s.views[host].items, ids)
  {
    var items := s.views[host].items;
    var view := Apply(s.endpoint, s.views[host], Order(ids));
    var s1 := Recorded(s, host, view);
    var merged := HubMerge(s1);
    var after := Apply(s.endpoint, c, Forwarded(s.endpoint, Order(ids), merged));
    OrderedTagged(host, items, ids);
    hide Find, FirstItems, AllItems, LastWith, Picked, WithoutIds, Ids;
    forall id ensures Find(after.items, id) == Find(merged.items, id) <==> Find(items, id) == Find(view.items, id) {
      ClientFinds(c, s, merged, id);
      FindMerged(s.hosts, s.views, id);
      FindMerged(s1.hosts, s1.views, id);
      FindTagged(host, items, id);
      FindTagged(host, view.items, id);
    }
    forall id ensures Find(items, id) == Find(view.items, id)
      <==> (id in ids ==> Find(items, id) == LastWith(items, id)) {
      FindOrdered(items, ids, id);
    }
    assert SameItems(items, view.items) <==> RepeatsHarmless(items, ids);
  }

  /** Ordering a client's items does not change what is found in them. */
  lemma ClientFinds(c: View, s: Hub, merged: View, id: Id)
    requires HostsListed(s) && DistinctIds(c.items) && SameItems(c.items, HubMerge(s).items)
    ensures Find(Apply(WorkspaceFollow, c, Order(Ids(merged.items))).items, id) == Find(HubMerge(s).items, id)
  {
    FindOrdered(c.items, Ids(merged.items), id);
    LastIsOnly(c.items, id);
  }

  lemma FindMerged(hosts: seq<string>, views: map<string, View>, id: Id)
    requires AllTagged(hosts, views)
    ensures Find(Merge(Values(hosts, views)).items, id) == if id.host in hosts then Find(views[id.host].items, id)
      else None
  {
    FindFirst(AllItems(Values(hosts, views)), id);
    FindAll(hosts, views, id);
  }

  lemma OrderedTagged(host: string, items: seq<Workspace>, ids: seq<Id>)
    requires Tagged(host, items)
    ensures Tagged(host, Picked(items, ids) + WithoutIds(items, ids))
  {
    PickedMembers(items, ids);
    WithoutIdsMembers(items, ids);
  }

  lemma {:induction false} PickedMembers(items: seq<Workspace>, ids: seq<Id>)
    ensures forall w :: w in Picked(items, ids) ==> w in items
  {
    if ids != [] {
      LastWithMember(items, ids[0]);
      PickedMembers(items, ids[1..]);
    }
  }

  lemma {:induction false} LastWithMember(items: seq<Workspace>, id: Id)
    ensures LastWith(items, id).Some? ==> LastWith(items, id).value in items
  {
    if items != [] { LastWithMember(items[..|items| - 1], id); }
  }

  lemma {:induction false} WithoutIdsMembers(items: seq<Workspace>, ids: seq<Id>)
    ensures forall w :: w in WithoutIds(items, ids) ==> w in items
  {
    if items != [] { WithoutIdsMembers(items[1..], ids); }
  }

  // ---- Upserts and removals --------------------------------------------------------------------

  lemma {:induction false} FindUpserted(items: seq<Workspace>, w: Workspace, id: Id)
    ensures Find(Upserted(items, w), id) == if id == w.id then Some(w) else Find(items, id)
  {
    if items == [] {
      FindOne(w, id);
      assert Upserted(items, w) == [w];
    } else {
      var rest := items[1..];
      assert items == [items[0]] + rest;
      FindAppend([items[0]], rest, id);
      FindOne(items[0], id);
      if items[0].id == w.id {
        assert Upserted(items, w) == [w] + rest;
        FindAppend([w], rest, id);
        FindOne(w, id);
      } else {
        FindUpserted(rest, w, id);
        assert Upserted(items, w) == [items[0]] + Upserted(rest, w);
        FindAppend([items[0]], Upserted(rest, w), id);
      }
    }
  }

  lemma {:induction false} FindWithoutId(items: seq<Workspace>, removed: Id, id: Id)
    ensures Find(WithoutId(items, removed), id) == if id == removed then None else Find(items, id)
  {
    if items != [] {
      var rest := items[1..];
      assert items == [items[0]] + rest;
      FindWithoutId(rest, removed, id);
      FindAppend([items[0]], rest, id);
      FindAppend([items[0]], WithoutId(rest, removed), id);
      FindOne(items[0], id);
      if items[0].id == removed {
        assert WithoutId(items, removed) == [] + WithoutId(rest, removed) == WithoutId(rest, removed);
      }
    }
  }

  lemma UpsertedTagged(host: string, items: seq<Workspace>, w: Workspace)
    requires Tagged(host, items) && w.id.host == host
    ensures Tagged(host, Upserted(items, w))
  {}

  lemma {:induction false} WithoutIdTagged(host: string, items: seq<Workspace>, id: Id)
    requires Tagged(host, items)
    ensures Tagged(host, WithoutId(items, id))
  {
    if items != [] { WithoutIdTagged(host, items[1..], id); }
  }

  // ---- A replacement burst ---------------------------------------------------------------------

  lemma {:induction false} FindAfterRemovals(c: View, frames: seq<Frame>, id: Id)
    requires DistinctIds(c.items) && forall f :: f in frames ==> f.Remove?
    ensures var r := Fold(WorkspaceFollow, Some(c), frames);
      r.Some? && OnlyItems(c, r.value) && DistinctIds(r.value.items)
      && Find(r.value.items, id) == if Remove(id) in frames then None else Find(c.items, id)
    decreases |frames|
  {
    if frames != [] {
      var f := frames[0];
      assert frames == [f] + frames[1..] && f in frames;
      WithoutIdShape(c.items, f.workspaceId);
      FindWithoutId(c.items, f.workspaceId, id);
      FindAfterRemovals(Apply(WorkspaceFollow, c, f), frames[1..], id);
    }
  }

  /** A client that is sent a list one upsert at a time keeps the last workspace of each id. */
  lemma {:induction false} FindAfterUpserts(c: View, items: seq<Workspace>, id: Id)
    requires DistinctIds(c.items)
    ensures var r := Fold(WorkspaceFollow, Some(c), Upserts(items));
      r.Some? && OnlyItems(c, r.value) && DistinctIds(r.value.items)
      && Find(r.value.items, id) == if id in Ids(items) then LastWith(items, id) else Find(c.items, id)
    decreases |items|
  {
    if items == [] {
      assert Upserts(items) == [];
    } else {
      var w, rest := items[0], items[1..];
      assert Upserts(items)[1..] == Upserts(rest) && Ids(items) == [w.id] + Ids(rest) && items == [w] + rest;
      UpsertedShape(c.items, w);
      FindUpserted(c.items, w, id);
      FindAfterUpserts(Apply(WorkspaceFollow, c, Upsert(w)), rest, id);
      LastWithFirst(w, rest, id);
      FindAbsent(rest, id);
    }
  }

  lemma {:induction false} LastWithFirst(w: Workspace, rest: seq<Workspace>, id: Id)
    ensures LastWith([w] + rest, id)
      == if LastWith(rest, id).Some? then LastWith(rest, id) else if w.id == id then Some(w) else None
    ensures LastWith(rest, id).Some? <==> id in Ids(rest)
  {
    LastWithId(rest, id);
    FindAbsent(rest, id);
    if rest == [] {
      assert [w] + rest == [w];
      assert [w][..0] == [];
    } else {
      var n := |rest| - 1;
      LastWithFirst(w, rest[..n], id);
      assert ([w] + rest)[..|rest|] == [w] + rest[..n];
    }
  }

  /** A client that is sent the merge's order and archive. */
  lemma FindAfterOrder(c: View, merged: View, id: Id)
    requires DistinctIds(c.items) && DistinctIds(merged.items)
    ensures var r := Fold(WorkspaceFollow, Some(c), [Order(Ids(merged.items)), Archived(merged.archived)]);
      r.Some? && DistinctIds(r.value.items) && r.value == c.(items := r.value.items, archived := merged.archived)
      && Find(r.value.items, id) == Find(c.items, id)
  {
    DistinctIdsOf(merged.items);
    OrderedShape(c.items, Ids(merged.items));
    FindOrdered(c.items, Ids(merged.items), id);
    LastIsOnly(c.items, id);
    var ids, last := Ids(merged.items), [Archived(merged.archived)];
    hide Ids, Picked, WithoutIds, Find, LastWith;
    var frames := [Order(ids), Archived(merged.archived)];
    assert frames[1..] == last && last[1..] == [];
    var c1 := Apply(WorkspaceFollow, c, Order(ids));
    assert Fold(WorkspaceFollow, Some(c1), last)
      == Some(Apply(WorkspaceFollow, c1, last[0])) by { FoldOne(WorkspaceFollow, c1, last[0]); }
  }

  /** What a client finds after a host's burst. */
  lemma FindAfterBurst(c: View, previous: View, next: View, merged: View, id: Id)
    requires DistinctIds(c.items) && DistinctIds(merged.items)
    ensures var r := Fold(WorkspaceFollow, Some(c), WorkspaceReplacement(previous, next, merged));
      r.Some? && DistinctIds(r.value.items) && r.value == c.(items := r.value.items, archived := merged.archived)
      && Find(r.value.items, id) == (if id in Ids(next.items) then LastWith(next.items, id)
                                     else if id in Ids(previous.items) then None else Find(c.items, id))
  {
    var removals, upserts := Removals(previous.items, Ids(next.items)), Upserts(next.items);
    RemovalsShape(previous.items, Ids(next.items));
    FindAfterRemovals(c, removals, id);
    var c1 := Fold(WorkspaceFollow, Some(c), removals).value;
    FindAfterUpserts(c1, next.items, id);
    var c2 := Fold(WorkspaceFollow, Some(c1), upserts).value;
    FindAfterOrder(c2, merged, id);
    FoldAppend(WorkspaceFollow, Some(c), removals, upserts);
    FoldAppend(WorkspaceFollow, Some(c), removals + upserts, [Order(Ids(merged.items)), Archived(merged.archived)]);
    hide Removals, Upserts, Ids, Find, LastWith, Fold, DistinctIds;
  }

  lemma DistinctIdsOf(items: seq<Workspace>)
    requires DistinctIds(items)
    ensures Distinct(Ids(items))
  {}

  lemma {:induction false} FirstItemsOnce(items: seq<Workspace>)
    ensures DistinctIds(FirstItems(items)) && forall w :: w in FirstItems(items) ==> w.id in Ids(items)
  {
    if items != [] {
      var before, last := items[..|items| - 1], items[|items| - 1];
      FirstItemsOnce(before);
      assert Ids(items) == Ids(before) + [last.id];
    }
  }

  lemma MergedDistinct(views: seq<View>)
    ensures DistinctIds(Merge(views).items)
  {
    FirstItemsOnce(AllItems(views));
  }

  function ViewOf(views: map<string, View>, host: string): View {
    if host in views then views[host] else EMPTY_VIEW
  }

  lemma RecordedTagged(s: Hub, host: string, view: View)
    requires HostsListed(s) && AllTagged(s.hosts, s.views) && Tagged(host, view.items)
    ensures var s1 := Recorded(s, host, view); HostsListed(s1) && AllTagged(s1.hosts, s1.views)
  {
    var s1 := Recorded(s, host, view);
    if host !in s.views {
      assert forall h :: h in s1.hosts <==> h in s.hosts || h == host;
    }
  }

  /** After a late or reconnected host's burst the client sees the merge exactly if the new baseline lists no id with
      two different workspaces at its ends. */
  lemma BurstAgreesIff(s: Hub, c: View, host: string, next: View)
    requires HostsListed(s) && AllTagged(s.hosts, s.views) && Tagged(host, next.items)
    requires DistinctIds(c.items) && SameItems(c.items, HubMerge(s).items)
    ensures var s1 := Recorded(s, host, next);
      HostsListed(s1)
      && var r := Fold(WorkspaceFollow, Some(c), WorkspaceReplacement(ViewOf(s.views, host), next, HubMerge(s1)));
         r.Some? && (SameItems(r.value.items, HubMerge(s1).items) <==> RepeatsHarmless(next.items, Ids(next.items)))
  {
    var previous, s1 := ViewOf(s.views, host), Recorded(s, host, next);
    RecordedTagged(s, host, next);
    MergedDistinct(Values(s1.hosts, s1.views));
    var merged := HubMerge(s1);
    FindAfterBurst(c, previous, next, merged, Id(host, ""));
    var after := Fold(WorkspaceFollow, Some(c), WorkspaceReplacement(previous, next, merged)).value;
    hide Find, FirstItems, AllItems, LastWith, WorkspaceReplacement, Fold, Ids;
    forall id ensures Find(after.items, id) == Find(merged.items, id)
                      <==> (id in Ids(next.items) ==> Find(next.items, id) == LastWith(next.items, id)) {
      FindAfterBurst(c, previous, next, merged, id);
      FindMerged(s.hosts, s.views, id);
      FindMerged(s1.hosts, s1.views, id);
      FindTagged(host, next.items, id);
      FindAbsent(next.items, id);
      FindAbsent(previous.items, id);
      FindTagged(host, previous.items, id);
    }
    assert SameItems(after.items, merged.items) <==> RepeatsHarmless(next.items, Ids(next.items));
  }

  // ---- The least such hosts --------------------------------------------------------------------

  lemma FirstAndLast(x: Workspace, y: Workspace)
    requires x.id == y.id && x != y
    ensures !RepeatsHarmless([x, y], [x.id]) && !RepeatsHarmless([x, y], Ids([x, y]))
  {
    assert Find([x, y], x.id) == Some(x) && LastWith([x, y], x.id) == Some(y);
    assert x.id in [x.id] && Ids([x, y])[0] == x.id;
  }

  /** A host that lists one id twice and orders by it separates client and merge. */
  lemma RepeatedIdsDisagree(s: Hub, c: View, host: string, x: Workspace, y: Workspace)
    requires HostsListed(s) && s.endpoint.WorkspaceFollow? && AllTagged(s.hosts, s.views) && host in s.views
    requires DistinctIds(c.items) && SameItems(c.items, HubMerge(s).items)
    requires s.views[host].items == [x, y] && x.id == y.id && x != y
    ensures var merged := HubMerge(Recorded(s, host, Apply(s.endpoint, s.views[host], Order([x.id]))));
      !SameItems(Apply(s.endpoint, c, Forwarded(s.endpoint, Order([x.id]), merged)).items, merged.items)
  {
    FirstAndLast(x, y);
    OrderAgreesIff(s, c, host, [x.id]);
    hide RepeatsHarmless, SameItems, Apply, Merge;
  }

  /** So does one whose late or reconnected baseline lists one id twice. */
  lemma RepeatedBaselineDisagrees(s: Hub, c: View, host: string, next: View, x: Workspace, y: Workspace)
    requires HostsListed(s) && AllTagged(s.hosts, s.views) && Tagged(host, next.items)
    requires DistinctIds(c.items) && SameItems(c.items, HubMerge(s).items)
    requires x.id == y.id && x != y && next.items == [x, y]
    ensures HostsListed(Recorded(s, host, next))
    ensures var merged := HubMerge(Recorded(s, host, next));
      var r := Fold(WorkspaceFollow, Some(c), WorkspaceReplacement(ViewOf(s.views, host), next, merged));
      r.Some? && !SameItems(r.value.items, merged.items)
  {
    FirstAndLast(x, y);
    BurstAgreesIff(s, c, host, next);
  }
}
