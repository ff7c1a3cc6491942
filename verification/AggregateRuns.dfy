/** The client's folded view agrees with the merge of the per-host views, on every run. */
module AggregateRuns {
  import opened Prelude
  import opened AggregateView

  // ---- Well-formed host data -------------------------------------------------------------------

  predicate DistinctIds(items: seq<Workspace>) {
    forall i, j :: 0 <= i < j < |items| ==> items[i].id != items[j].id
  }

  /** A host's own view: its identities carry its name, and its workspace ids are distinct. */
  ghost predicate ViewOk(endpoint: Endpoint, host: string, v: View) {
    && DistinctIds(v.items)
    && (forall w :: w in v.items ==> w.id.host == host)
    && (forall sid :: sid in v.queues ==> sid.host == host)
    && (forall sid :: sid in v.jobs ==> sid.host == host)
    && (forall sid :: sid in v.projections ==> sid.host == host)
    && (endpoint.SessionControl? ==> v.items == [] && v.archived == [])
    && (endpoint.WorkspaceFollow? ==> v.queues == map[] && v.jobs == map[] && v.projections == map[])
  }

  /** What the mapper lets a host send: identities of its own, and distinct ids in an order frame. */
  ghost predicate FrameOk(endpoint: Endpoint, host: string, f: Frame) {
    match f
    case Baseline(v) => ViewOk(endpoint, host, v)
    case Upsert(w) => w.id.host == host
    case Remove(id) => id.host == host
    case Order(ids) => Distinct(ids)
    case Archived(_) => true
    case Queue(sid, _) => sid.host == host
    case Jobs(sid, _) => sid.host == host
    case ProjectionDelta(sid, _, _, _) => sid.host == host
    case OtherFrame => true
  }

  // ---- Item lists as id maps -------------------------------------------------------------------

  lemma UpsertedShape(items: seq<Workspace>, w: Workspace)
    requires DistinctIds(items)
    ensures DistinctIds(Upserted(items, w))
    ensures forall x :: x in Upserted(items, w) <==> x == w || (x in items && x.id != w.id)
  {
    var i := IndexOf(items, w.id);
    if i.Some? {
      var items' := items[i.value := w];
      forall x | x in items' ensures x == w || (x in items && x.id != w.id) {
        var k :| 0 <= k < |items'| && items'[k] == x;
      }
      forall x | x in items && x.id != w.id ensures x in items' {
        var k :| 0 <= k < |items| && items[k] == x;
        assert items'[k] == x;
      }
      assert items'[i.value] == w;
    }
  }

  lemma {:induction false} WithoutIdShape(items: seq<Workspace>, id: Id)
    ensures forall x :: x in WithoutId(items, id) <==> x in items && x.id != id
    ensures DistinctIds(items) ==> DistinctIds(WithoutId(items, id))
  {
    if items != [] {
      WithoutIdShape(items[1..], id);
      assert items == [items[0]] + items[1..];
      if DistinctIds(items) {
        assert forall x :: x in items[1..] ==> x.id != items[0].id;
      }
    }
  }

  lemma {:induction false} WithoutIdsShape(items: seq<Workspace>, ids: seq<Id>)
    ensures forall x :: x in WithoutIds(items, ids) <==> x in items && x.id !in ids
    ensures DistinctIds(items) ==> DistinctIds(WithoutIds(items, ids))
  {
    if items != [] {
      WithoutIdsShape(items[1..], ids);
      assert items == [items[0]] + items[1..];
      if DistinctIds(items) {
        assert forall x :: x in items[1..] ==> x.id != items[0].id;
      }
    }
  }

  lemma {:induction false} LastWithShape(items: seq<Workspace>, id: Id)
    requires DistinctIds(items)
    ensures match LastWith(items, id)
      case None => forall x :: x in items ==> x.id != id
      case Some(w) => w in items && w.id == id && forall x :: x in items && x.id == id ==> x == w
  {
    if items != [] {
      var n := |items| - 1;
      LastWithShape(items[..n], id);
      assert items == items[..n] + [items[n]];
      assert forall x :: x in items[..n] ==> x.id != items[n].id;
    }
  }

  lemma {:induction false} PickedShape(items: seq<Workspace>, ids: seq<Id>)
    requires DistinctIds(items) && Distinct(ids)
    ensures forall x :: x in Picked(items, ids) <==> x in items && x.id in ids
    ensures DistinctIds(Picked(items, ids))
  {
    if ids != [] {
      assert ids == [ids[0]] + ids[1..];
      assert ids[0] !in ids[1..];
      PickedShape(items, ids[1..]);
      LastWithShape(items, ids[0]);
    }
  }

  lemma DistinctIdsAppend(a: seq<Workspace>, b: seq<Workspace>)
    requires DistinctIds(a) && DistinctIds(b)
    requires forall x, y :: x in a && y in b ==> x.id != y.id
    ensures DistinctIds(a + b)
  {
    var c := a + b;
    forall i, j | 0 <= i < j < |c| ensures c[i].id != c[j].id {
      if i < |a| <= j { assert c[i] in a && c[j] in b; }
    }
  }

  lemma OrderedShape(items: seq<Workspace>, ids: seq<Id>)
    requires DistinctIds(items) && Distinct(ids)
    ensures var items' := Picked(items, ids) + WithoutIds(items, ids);
      DistinctIds(items') && forall x :: x in items' <==> x in items
  {
    PickedShape(items, ids);
    WithoutIdsShape(items, ids);
    DistinctIdsAppend(Picked(items, ids), WithoutIds(items, ids));
  }

  /** Ordering by the ids of a list with the same members gives that list. */
  lemma {:induction false} PickedAll(items: seq<Workspace>, target: seq<Workspace>)
    requires DistinctIds(items) && forall x :: x in target ==> x in items
    ensures Picked(items, Ids(target)) == target
  {
    if target != [] {
      assert Ids(target)[1..] == Ids(target[1..]);
      LastWithShape(items, target[0].id);
      assert target[0] in target;
      PickedAll(items, target[1..]);
    }
  }

  lemma {:induction false} WithoutAllIds(items: seq<Workspace>, ids: seq<Id>)
    requires forall x :: x in items ==> x.id in ids
    ensures WithoutIds(items, ids) == []
  {
    if items != [] {
      assert items[0] in items;
      WithoutAllIds(items[1..], ids);
    }
  }

  lemma IdsOf(items: seq<Workspace>, x: Workspace)
    requires x in items
    ensures x.id in Ids(items)
  {
    var k :| 0 <= k < |items| && items[k] == x;
    assert Ids(items)[k] == x.id;
  }

  lemma OrderedLike(items: seq<Workspace>, target: seq<Workspace>)
    requires DistinctIds(items) && forall x :: x in target <==> x in items
    ensures Picked(items, Ids(target)) + WithoutIds(items, Ids(target)) == target
  {
    PickedAll(items, target);
    forall x | x in items ensures x.id in Ids(target) {
      IdsOf(target, x);
    }
    WithoutAllIds(items, Ids(target));
  }

  lemma {:induction false} IndexOfAbsent(items: seq<Workspace>, id: Id)
    ensures IndexOf(items, id).None? <==> forall x :: x in items ==> x.id != id
  {
    if items != [] {
      IndexOfAbsent(items[1..], id);
      assert items == [items[0]] + items[1..];
    }
  }

  lemma FindByMembership(a: seq<Workspace>, b: seq<Workspace>, id: Id)
    requires DistinctIds(a) && DistinctIds(b) && forall x :: x in a <==> x in b
    ensures Find(a, id) == Find(b, id)
  {
    var i, j := IndexOf(a, id), IndexOf(b, id);
    if i.Some? {
      assert a[i.value] in b;
      var k :| 0 <= k < |b| && b[k] == a[i.value];
      assert b[k].id == id;
    }
    if j.Some? {
      assert b[j.value] in a;
      var k :| 0 <= k < |a| && a[k] == b[j.value];
      assert a[k].id == id;
    }
  }

  // ---- What the merge holds --------------------------------------------------------------------

  ghost predicate ViewsOk(endpoint: Endpoint, hosts: seq<string>, views: map<string, View>) {
    Distinct(hosts) && forall h :: h in hosts ==> h in views && ViewOk(endpoint, h, views[h])
  }

  lemma {:induction false} AllItemsShape(endpoint: Endpoint, hosts: seq<string>, views: map<string, View>)
    requires ViewsOk(endpoint, hosts, views)
    ensures var items := AllItems(Values(hosts, views));
      DistinctIds(items) && forall w :: w in items <==> w.id.host in hosts && w in views[w.id.host].items
  {
    if hosts != [] {
      var n := |hosts| - 1;
      var before := hosts[..n];
      assert hosts == before + [hosts[n]];
      assert hosts[n] !in before;
      AllItemsShape(endpoint, before, views);
      assert Values(hosts, views)[..n] == Values(before, views);
      DistinctIdsAppend(AllItems(Values(before, views)), views[hosts[n]].items);
    }
  }

  lemma NotAmong(items: seq<Workspace>, w: Workspace)
    requires forall i :: 0 <= i < |items| ==> items[i].id != w.id
    ensures w.id !in Ids(items)
  {
    forall i | 0 <= i < |items| ensures Ids(items)[i] != w.id {}
  }

  lemma {:induction false} FirstItemsDistinct(items: seq<Workspace>)
    requires DistinctIds(items)
    ensures FirstItems(items) == items
  {
    if items != [] {
      var n := |items| - 1;
      FirstItemsDistinct(items[..n]);
      NotAmong(items[..n], items[n]);
      assert items == items[..n] + [items[n]];
    }
  }

  lemma {:induction false} AllControlsShape(endpoint: Endpoint, hosts: seq<string>, views: map<string, View>)
    requires ViewsOk(endpoint, hosts, views)
    ensures var vs := Values(hosts, views);
      && (forall sid :: sid in AllQueues(vs) <==> sid.host in hosts && sid in views[sid.host].queues)
      && (forall sid :: sid in AllQueues(vs) ==> AllQueues(vs)[sid] == views[sid.host].queues[sid])
      && (forall sid :: sid in AllJobs(vs) <==> sid.host in hosts && sid in views[sid.host].jobs)
      && (forall sid :: sid in AllJobs(vs) ==> AllJobs(vs)[sid] == views[sid.host].jobs[sid])
      && (forall sid :: sid in AllProjections(vs) <==> sid.host in hosts && sid in views[sid.host].projections)
      && (forall sid :: sid in AllProjections(vs) ==> AllProjections(vs)[sid] == views[sid.host].projections[sid])
  {
    if hosts != [] {
      var n := |hosts| - 1;
      var before := hosts[..n];
      assert hosts == before + [hosts[n]];
      assert hosts[n] !in before;
      AllControlsShape(endpoint, before, views);
      assert Values(hosts, views)[..n] == Values(before, views);
    }
  }

  lemma {:induction false} AllArchivedCongruent(a: seq<View>, b: seq<View>)
    requires |a| == |b| && forall i :: 0 <= i < |a| ==> a[i].archived == b[i].archived
    ensures AllArchived(a) == AllArchived(b)
  {
    if a != [] { AllArchivedCongruent(a[..|a| - 1], b[..|b| - 1]); }
  }

  // ---- Agreement -------------------------------------------------------------------------------

  /** The client's value against the per-host views. */
  ghost predicate ItemsAgree(c: View, views: map<string, View>) {
    && DistinctIds(c.items)
    && forall w :: w in c.items <==> w.id.host in views && w in views[w.id.host].items
  }

  /** The view that owns a session; a host that has not answered has an empty one. */
  function Owner(views: map<string, View>, sid: Id): View {
    if sid.host in views then views[sid.host] else EMPTY_VIEW
  }

  ghost predicate QueuesAgree(c: View, views: map<string, View>) {
    forall sid: Id :: QueueOf(c, sid) == QueueOf(Owner(views, sid), sid)
  }

  ghost predicate JobsAgree(c: View, views: map<string, View>) {
    forall sid: Id :: JobsOf(c, sid) == JobsOf(Owner(views, sid), sid)
  }

  ghost predicate ValuesAgree(c: View, views: map<string, View>) {
    forall sid: Id :: ValuesOf(c, sid) == ValuesOf(Owner(views, sid), sid)
  }

  ghost predicate ControlsAgree(c: View, views: map<string, View>) {
    QueuesAgree(c, views) && JobsAgree(c, views) && ValuesAgree(c, views)
  }

  ghost predicate Agrees(c: View, s: Hub)
    requires HostsListed(s)
  {
    && ItemsAgree(c, s.views)
    && ControlsAgree(c, s.views)
    && c.archived == FirstIds(AllArchived(Values(s.hosts, s.views)))
    && (s.synced ==> c.items == AllItems(Values(s.hosts, s.views)))
  }

  ghost predicate Consistent(s: Hub) {
    && HostsListed(s)
    && ViewsOk(s.endpoint, s.hosts, s.views)
    && (s.initial <==> s.client.Some?)
    && (s.initial && !s.ended ==> Agrees(s.client.value, s))
  }

  lemma MergeItemsAgree(s: Hub)
    requires HostsListed(s) && ViewsOk(s.endpoint, s.hosts, s.views)
    ensures ItemsAgree(HubMerge(s), s.views)
    ensures HubMerge(s).items == AllItems(Values(s.hosts, s.views))
  {
    AllItemsShape(s.endpoint, s.hosts, s.views);
    FirstItemsDistinct(AllItems(Values(s.hosts, s.views)));
  }

  lemma MergeQueuesAgree(s: Hub)
    requires HostsListed(s) && ViewsOk(s.endpoint, s.hosts, s.views)
    ensures QueuesAgree(HubMerge(s), s.views)
  {
    AllControlsShape(s.endpoint, s.hosts, s.views);
  }

  lemma MergeJobsAgree(s: Hub)
    requires HostsListed(s) && ViewsOk(s.endpoint, s.hosts, s.views)
    ensures JobsAgree(HubMerge(s), s.views)
  {
    AllControlsShape(s.endpoint, s.hosts, s.views);
  }

  lemma MergeValuesAgree(s: Hub)
    requires HostsListed(s) && ViewsOk(s.endpoint, s.hosts, s.views)
    ensures ValuesAgree(HubMerge(s), s.views)
  {
    AllControlsShape(s.endpoint, s.hosts, s.views);
  }

  lemma MergeControlsAgree(s: Hub)
    requires HostsListed(s) && ViewsOk(s.endpoint, s.hosts, s.views)
    ensures ControlsAgree(HubMerge(s), s.views)
  {
    MergeQueuesAgree(s);
    MergeJobsAgree(s);
    MergeValuesAgree(s);
  }

  /** A client seeded with the merge agrees. */
  lemma MergeAgrees(s: Hub)
    requires HostsListed(s) && ViewsOk(s.endpoint, s.hosts, s.views)
    ensures Agrees(HubMerge(s), s)
    ensures HubMerge(s).items == AllItems(Values(s.hosts, s.views))
  {
    MergeItemsAgree(s);
    MergeControlsAgree(s);
  }

  lemma ApplyOk(endpoint: Endpoint, host: string, v: View, f: Frame)
    requires ViewOk(endpoint, host, v) && FrameOk(endpoint, host, f)
    ensures ViewOk(endpoint, host, Apply(endpoint, v, f))
  {
    match f
    case Upsert(w) => UpsertedShape(v.items, w);
    case Remove(id) => WithoutIdShape(v.items, id);
    case Order(ids) => OrderedShape(v.items, ids);
    case _ =>
  }

  lemma RecordedOk(s: Hub, host: string, v: View)
    requires HostsListed(s) && ViewsOk(s.endpoint, s.hosts, s.views) && ViewOk(s.endpoint, host, v)
    ensures HostsListed(Recorded(s, host, v))
      && ViewsOk(s.endpoint, Recorded(s, host, v).hosts, Recorded(s, host, v).views)
  {
    var s' := Recorded(s, host, v);
    forall h ensures h in s'.hosts <==> h in s'.views {
      assert h in s'.hosts <==> h in s.hosts || h == host;
    }
  }

  // ---- Order -----------------------------------------------------------------------------------

  function Replaced(items: seq<Workspace>, w: Workspace): seq<Workspace> {
    seq(|items|, i requires 0 <= i < |items| => if items[i].id == w.id then w else items[i])
  }

  lemma UpsertedReplaces(items: seq<Workspace>, w: Workspace)
    requires DistinctIds(items) && IndexOf(items, w.id).Some?
    ensures Upserted(items, w) == Replaced(items, w)
  {}

  lemma ReplacedAbsent(items: seq<Workspace>, w: Workspace)
    requires forall x :: x in items ==> x.id != w.id
    ensures Replaced(items, w) == items
  {
    forall i | 0 <= i < |items| ensures items[i].id != w.id { assert items[i] in items; }
  }

  lemma ReplacedAppend(a: seq<Workspace>, b: seq<Workspace>, w: Workspace)
    ensures Replaced(a + b, w) == Replaced(a, w) + Replaced(b, w)
  {}

  lemma {:induction false} AllItemsReplaced(endpoint: Endpoint, hosts: seq<string>, views: map<string, View>,
      host: string, w: Workspace)
    requires ViewsOk(endpoint, hosts, views) && host in views && w.id.host == host
    ensures AllItems(Values(hosts, views[host := views[host].(items := Replaced(views[host].items, w))]))
      == Replaced(AllItems(Values(hosts, views)), w)
  {
    if hosts != [] {
      var n := |hosts| - 1;
      var before := hosts[..n];
      assert hosts == before + [hosts[n]];
      var views' := views[host := views[host].(items := Replaced(views[host].items, w))];
      AllItemsReplaced(endpoint, before, views, host, w);
      assert Values(hosts, views)[..n] == Values(before, views);
      assert Values(hosts, views')[..n] == Values(before, views');
      var last := views[hosts[n]].items;
      if hosts[n] != host { ReplacedAbsent(last, w); }
      ReplacedAppend(AllItems(Values(before, views)), last, w);
    }
  }

  lemma {:induction false} WithoutIdAppend(a: seq<Workspace>, b: seq<Workspace>, id: Id)
    ensures WithoutId(a + b, id) == WithoutId(a, id) + WithoutId(b, id)
  {
    if a == [] {
      assert a + b == b;
    } else {
      assert (a + b)[1..] == a[1..] + b;
      WithoutIdAppend(a[1..], b, id);
    }
  }

  lemma {:induction false} WithoutIdAbsent(items: seq<Workspace>, id: Id)
    requires forall x :: x in items ==> x.id != id
    ensures WithoutId(items, id) == items
  {
    if items != [] {
      assert items[0] in items;
      WithoutIdAbsent(items[1..], id);
    }
  }

  lemma {:induction false} AllItemsWithout(endpoint: Endpoint, hosts: seq<string>, views: map<string, View>,
      host: string, id: Id)
    requires ViewsOk(endpoint, hosts, views) && host in views && id.host == host
    ensures AllItems(Values(hosts, views[host := views[host].(items := WithoutId(views[host].items, id))]))
      == WithoutId(AllItems(Values(hosts, views)), id)
  {
    if hosts != [] {
      var n := |hosts| - 1;
      var before := hosts[..n];
      assert hosts == before + [hosts[n]];
      var views' := views[host := views[host].(items := WithoutId(views[host].items, id))];
      AllItemsWithout(endpoint, before, views, host, id);
      assert Values(hosts, views)[..n] == Values(before, views);
      assert Values(hosts, views')[..n] == Values(before, views');
      var last := views[hosts[n]].items;
      if hosts[n] != host { WithoutIdAbsent(last, id); }
      WithoutIdAppend(AllItems(Values(before, views)), last, id);
    }
  }

  lemma {:induction false} AllItemsCongruent(a: seq<View>, b: seq<View>)
    requires |a| == |b| && forall i :: 0 <= i < |a| ==> a[i].items == b[i].items
    ensures AllItems(a) == AllItems(b)
  {
    if a != [] { AllItemsCongruent(a[..|a| - 1], b[..|b| - 1]); }
  }

  // ---- One increment ---------------------------------------------------------------------------

  /** The increment changed neither the archive list nor the items of its host. */
  lemma SameWorkspaces(s: Hub, host: string, v: View)
    requires HostsListed(s) && host in s.views && v.archived == s.views[host].archived
    ensures AllArchived(Values(s.hosts, s.views[host := v])) == AllArchived(Values(s.hosts, s.views))
    ensures v.items == s.views[host].items ==>
      AllItems(Values(s.hosts, s.views[host := v])) == AllItems(Values(s.hosts, s.views))
  {
    AllArchivedCongruent(Values(s.hosts, s.views), Values(s.hosts, s.views[host := v]));
    if v.items == s.views[host].items {
      AllItemsCongruent(Values(s.hosts, s.views), Values(s.hosts, s.views[host := v]));
    }
  }

  lemma ControlsUntouched(c: View, c': View, views: map<string, View>, host: string, v: View)
    requires ControlsAgree(c, views) && host in views
    requires c'.queues == c.queues && c'.jobs == c.jobs && c'.projections == c.projections
    requires v.queues == views[host].queues && v.jobs == views[host].jobs && v.projections == views[host].projections
    ensures ControlsAgree(c', views[host := v])
  {
    var views' := views[host := v];
    forall sid: Id ensures QueueOf(c', sid) == QueueOf(Owner(views', sid), sid) {
      assert QueueOf(c, sid) == QueueOf(Owner(views, sid), sid);
    }
    forall sid: Id ensures JobsOf(c', sid) == JobsOf(Owner(views', sid), sid) {
      assert JobsOf(c, sid) == JobsOf(Owner(views, sid), sid);
    }
    forall sid: Id ensures ValuesOf(c', sid) == ValuesOf(Owner(views', sid), sid) {
      assert ValuesOf(c, sid) == ValuesOf(Owner(views, sid), sid);
    }
  }

  lemma ControlsCopied(c: View, c': View, views: map<string, View>)
    requires ControlsAgree(c, views) && c'.queues == c.queues && c'.jobs == c.jobs && c'.projections == c.projections
    ensures ControlsAgree(c', views)
  {
    forall sid: Id ensures QueueOf(c', sid) == QueueOf(Owner(views, sid), sid) {
      assert QueueOf(c, sid) == QueueOf(Owner(views, sid), sid);
    }
    forall sid: Id ensures JobsOf(c', sid) == JobsOf(Owner(views, sid), sid) {
      assert JobsOf(c, sid) == JobsOf(Owner(views, sid), sid);
    }
    forall sid: Id ensures ValuesOf(c', sid) == ValuesOf(Owner(views, sid), sid) {
      assert ValuesOf(c, sid) == ValuesOf(Owner(views, sid), sid);
    }
  }

  lemma UpsertItems(c: View, views: map<string, View>, host: string, w: Workspace)
    requires ItemsAgree(c, views) && host in views && w.id.host == host && DistinctIds(views[host].items)
    ensures ItemsAgree(c.(items := Upserted(c.items, w)),
      views[host := views[host].(items := Upserted(views[host].items, w))])
  {
    UpsertedShape(c.items, w);
    UpsertedShape(views[host].items, w);
  }

  lemma RemoveItems(c: View, views: map<string, View>, host: string, id: Id)
    requires ItemsAgree(c, views) && host in views && id.host == host
    ensures ItemsAgree(c.(items := WithoutId(c.items, id)),
      views[host := views[host].(items := WithoutId(views[host].items, id))])
  {
    WithoutIdShape(c.items, id);
    WithoutIdShape(views[host].items, id);
  }

  lemma {:induction false} AllItemsAppend(a: seq<View>, b: seq<View>)
    ensures AllItems(a + b) == AllItems(a) + AllItems(b)
  {
    if b == [] {
      assert a + b == a;
    } else {
      assert (a + b)[..|a + b| - 1] == a + b[..|b| - 1];
      AllItemsAppend(a, b[..|b| - 1]);
    }
  }

  /** The items of the hosts listed after position `k`. */
  function ItemsAfter(hosts: seq<string>, views: map<string, View>, k: nat): seq<Workspace>
    requires k < |hosts| && forall h :: h in hosts ==> h in views
  {
    AllItems(Values(hosts, views)[k + 1..])
  }

  lemma {:induction false} NoItemsAfter(vs: seq<View>)
    ensures AllItems(vs) == [] <==> forall v :: v in vs ==> v.items == []
  {
    if vs != [] {
      var n := |vs| - 1;
      NoItemsAfter(vs[..n]);
      assert vs == vs[..n] + [vs[n]];
    }
  }

  /** A new workspace of the host at position `k`, in the merge. */
  lemma NewItemOrder(hosts: seq<string>, views: map<string, View>, k: nat, w: Workspace)
    requires k < |hosts| && Distinct(hosts) && forall h :: h in hosts ==> h in views
    ensures var all := AllItems(Values(hosts, views));
      var after := ItemsAfter(hosts, views, k);
      |after| <= |all| && all == all[..|all| - |after|] + after
      && AllItems(Values(hosts, views[hosts[k] := views[hosts[k]].(items := views[hosts[k]].items + [w])]))
         == all[..|all| - |after|] + [w] + after
  {
    hide AllItems;
    var vs := Values(hosts, views);
    var vs' := Values(hosts, views[hosts[k] := views[hosts[k]].(items := views[hosts[k]].items + [w])]);
    AllItemsSplit(vs, k);
    AllItemsSplit(vs', k);
    assert vs'[..k] == vs[..k] && vs'[k + 1..] == vs[k + 1..];
    var before, after := AllItems(vs[..k]) + vs[k].items, ItemsAfter(hosts, views, k);
    assert (before + after)[..|before|] == before;
    assert AllItems(vs[..k]) + (vs[k].items + [w]) == before + [w];
  }

  lemma AllItemsTake(vs: seq<View>, k: nat)
    requires k < |vs|
    ensures AllItems(vs[..k + 1]) == AllItems(vs[..k]) + vs[k].items
  {
    var taken := vs[..k + 1];
    assert taken[..|taken| - 1] == vs[..k] && taken[|taken| - 1] == vs[k];
  }

  lemma AllItemsSplit(vs: seq<View>, k: nat)
    requires k < |vs|
    ensures AllItems(vs) == AllItems(vs[..k]) + vs[k].items + AllItems(vs[k + 1..])
  {
    hide AllItems;
    assert vs == vs[..k + 1] + vs[k + 1..];
    AllItemsTake(vs, k);
    AllItemsAppend(vs[..k + 1], vs[k + 1..]);
  }

  lemma OrderKeptMeansNoItemsAfter(s: Hub, host: string, w: Workspace, k: nat)
    requires HostsListed(s) && Distinct(s.hosts) && k < |s.hosts| && s.hosts[k] == host && s.endpoint.WorkspaceFollow?
    requires IndexOf(s.views[host].items, w.id).None?
    ensures OrderKept(s, Packet(host, Upsert(w))) <==> ItemsAfter(s.hosts, s.views, k) == []
  {
    var vs := Values(s.hosts, s.views)[k + 1..];
    assert host in s.hosts;
    NoItemsAfter(vs);
    if ItemsAfter(s.hosts, s.views, k) == [] {
      forall i, j | 0 <= i < j < |s.hosts| && s.hosts[i] == host ensures s.views[s.hosts[j]].items == [] {
        assert i == k;
        assert vs[j - k - 1] in vs;
      }
    } else {
      var v :| v in vs && v.items != [];
      var i :| 0 <= i < |vs| && vs[i] == v;
      assert s.hosts[k + 1 + i] in s.hosts;
    }
  }

  lemma KnownUpsertOrder(s: Hub, c: View, host: string, w: Workspace)
    requires HostsListed(s) && ViewsOk(s.endpoint, s.hosts, s.views) && ItemsAgree(c, s.views)
    requires host in s.views && w.id.host == host && c.items == AllItems(Values(s.hosts, s.views))
    requires IndexOf(s.views[host].items, w.id).Some?
    ensures Upserted(c.items, w)
      == AllItems(Values(s.hosts, s.views[host := s.views[host].(items := Upserted(s.views[host].items, w))]))
  {
    var v := s.views[host];
    assert host in s.hosts;
    var known := v.items[IndexOf(v.items, w.id).value];
    assert known in v.items && known in c.items;
    IndexOfAbsent(c.items, w.id);
    UpsertedReplaces(v.items, w);
    UpsertedReplaces(c.items, w);
    AllItemsReplaced(s.endpoint, s.hosts, s.views, host, w);
  }

  lemma Misplaced(all: seq<Workspace>, after: seq<Workspace>, w: Workspace)
    requires |after| <= |all| && all == all[..|all| - |after|] + after && w !in all
    ensures all + [w] == all[..|all| - |after|] + [w] + after <==> after == []
  {
    if after != [] {
      var merged := all[..|all| - |after|] + [w] + after;
      assert merged[|merged| - 1] == after[|after| - 1] == all[|all| - 1];
      assert (all + [w])[|all|] == w;
    }
  }

  /** ORDER. An upsert leaves the client's order equal to the merge's exactly when `OrderKept` says so. */
  lemma UpsertOrder(s: Hub, c: View, host: string, w: Workspace)
    requires HostsListed(s) && ViewsOk(s.endpoint, s.hosts, s.views) && ItemsAgree(c, s.views)
    requires host in s.views && w.id.host == host && s.endpoint.WorkspaceFollow?
    requires c.items == AllItems(Values(s.hosts, s.views))
    ensures OrderKept(s, Packet(host, Upsert(w))) <==>
      Upserted(c.items, w) == AllItems(Values(s.hosts,
        s.views[host := s.views[host].(items := Upserted(s.views[host].items, w))]))
  {
    if IndexOf(s.views[host].items, w.id).Some? {
      KnownUpsertOrder(s, c, host, w);
    } else {
      assert host in s.hosts;
      IndexOfAbsent(s.views[host].items, w.id);
      IndexOfAbsent(c.items, w.id);
      var k :| 0 <= k < |s.hosts| && s.hosts[k] == host;
      NewItemOrder(s.hosts, s.views, k, w);
      OrderKeptMeansNoItemsAfter(s, host, w, k);
      Misplaced(c.items, ItemsAfter(s.hosts, s.views, k), w);
    }
  }

  lemma UpsertAgrees(s: Hub, host: string, w: Workspace)
    requires Consistent(s) && s.initial && !s.ended && s.endpoint.WorkspaceFollow? && host in s.views
      && w.id.host == host
    ensures var f := Upsert(w);
      Agrees(Apply(s.endpoint, s.client.value, f),
             Recorded(s, host, Apply(s.endpoint, s.views[host], f)).(synced := s.synced
               && OrderKept(s, Packet(host, f))))
  {
    var c, v := s.client.value, s.views[host];
    assert host in s.hosts;
    var v' := v.(items := Upserted(v.items, w));
    UpsertItems(c, s.views, host, w);
    ControlsUntouched(c, c.(items := Upserted(c.items, w)), s.views, host, v');
    SameWorkspaces(s, host, v');
    if s.synced { UpsertOrder(s, c, host, w); }
  }

  lemma RemoveAgrees(s: Hub, host: string, id: Id)
    requires Consistent(s) && s.initial && !s.ended && s.endpoint.WorkspaceFollow? && host in s.views && id.host == host
    ensures Agrees(Apply(s.endpoint, s.client.value, Remove(id)),
      Recorded(s, host, Apply(s.endpoint, s.views[host], Remove(id))))
  {
    var c, v := s.client.value, s.views[host];
    var v' := v.(items := WithoutId(v.items, id));
    RemoveItems(c, s.views, host, id);
    ControlsUntouched(c, c.(items := WithoutId(c.items, id)), s.views, host, v');
    SameWorkspaces(s, host, v');
    if s.synced { AllItemsWithout(s.endpoint, s.hosts, s.views, host, id); }
  }

  lemma OrderedLikeView(c: View, m: View, views: map<string, View>)
    requires ItemsAgree(c, views) && ItemsAgree(m, views)
    ensures Apply(WorkspaceFollow, c, Order(Ids(m.items))) == c.(items := m.items)
  {
    OrderedLike(c.items, m.items);
  }

  /** An order frame of the merge's ids makes the client's list the merge's list, whatever order it had. */
  lemma OrderAgrees(s: Hub, c: View)
    requires HostsListed(s) && ViewsOk(s.endpoint, s.hosts, s.views) && s.endpoint.WorkspaceFollow?
    requires ItemsAgree(c, s.views) && ControlsAgree(c, s.views)
      && c.archived == FirstIds(AllArchived(Values(s.hosts, s.views)))
    ensures Agrees(Apply(s.endpoint, c, Order(Ids(HubMerge(s).items))), s.(synced := true))
  {
    MergeItemsAgree(s);
    OrderedLikeView(c, HubMerge(s), s.views);
    ControlsCopied(c, c.(items := HubMerge(s).items), s.views);
  }

  lemma HostOrderAgrees(s: Hub, host: string, ids: seq<Id>)
    requires Consistent(s) && s.initial && !s.ended && s.endpoint.WorkspaceFollow? && host in s.views && Distinct(ids)
    ensures var next := Recorded(s, host, Apply(s.endpoint, s.views[host], Order(ids)));
      HostsListed(next) && Agrees(Apply(s.endpoint, s.client.value, Order(Ids(HubMerge(next).items))),
        next.(synced := true))
  {
    var c, v := s.client.value, s.views[host];
    assert host in s.hosts;
    var v' := Apply(s.endpoint, v, Order(ids));
    var next := Recorded(s, host, v');
    ApplyOk(s.endpoint, host, v, Order(ids));
    RecordedOk(s, host, v');
    OrderedShape(v.items, ids);
    SameWorkspaces(s, host, v');
    ControlsUntouched(c, c, s.views, host, v');
    assert ItemsAgree(c, next.views);
    OrderAgrees(next, c);
  }

  lemma ArchivedAgrees(s: Hub, host: string, ids: seq<Id>)
    requires Consistent(s) && s.initial && !s.ended && s.endpoint.WorkspaceFollow? && host in s.views
    ensures var next := Recorded(s, host, s.views[host].(archived := ids));
      HostsListed(next) && Agrees(s.client.value.(archived := HubMerge(next).archived), next)
  {
    var c, v := s.client.value, s.views[host];
    var v' := v.(archived := ids);
    var next := Recorded(s, host, v');
    assert HostsListed(next);
    AllItemsCongruent(Values(s.hosts, s.views), Values(s.hosts, next.views));
    ControlsUntouched(c, c.(archived := HubMerge(next).archived), s.views, host, v');
  }

  // The control endpoint: lookups change alike on both sides.

  lemma QueueAgrees(c: View, views: map<string, View>, host: string, sid: Id, items: seq<string>)
    requires ControlsAgree(c, views) && host in views && sid.host == host
    ensures ControlsAgree(c.(queues := c.queues[sid := items]),
      views[host := views[host].(queues := views[host].queues[sid := items])])
  {
    var c', v' := c.(queues := c.queues[sid := items]), views[host].(queues := views[host].queues[sid := items]);
    var views' := views[host := v'];
    forall k: Id ensures QueueOf(c', k) == QueueOf(Owner(views', k), k) {
      assert QueueOf(c, k) == QueueOf(Owner(views, k), k);
    }
    ControlsUntouched(c, c, views, host, views[host]);
    forall k: Id ensures JobsOf(c', k) == JobsOf(Owner(views', k), k)
      && ValuesOf(c', k) == ValuesOf(Owner(views', k), k) {
      assert JobsOf(c, k) == JobsOf(Owner(views, k), k) && ValuesOf(c, k) == ValuesOf(Owner(views, k), k);
    }
  }

  lemma JobAgrees(c: View, views: map<string, View>, host: string, sid: Id, jobs: seq<string>)
    requires ControlsAgree(c, views) && host in views && sid.host == host
    ensures ControlsAgree(c.(jobs := c.jobs[sid := jobs]),
      views[host := views[host].(jobs := views[host].jobs[sid := jobs])])
  {
    var c', v' := c.(jobs := c.jobs[sid := jobs]), views[host].(jobs := views[host].jobs[sid := jobs]);
    var views' := views[host := v'];
    forall k: Id ensures JobsOf(c', k) == JobsOf(Owner(views', k), k) {
      assert JobsOf(c, k) == JobsOf(Owner(views, k), k);
    }
    forall k: Id ensures QueueOf(c', k) == QueueOf(Owner(views', k), k)
      && ValuesOf(c', k) == ValuesOf(Owner(views', k), k) {
      assert QueueOf(c, k) == QueueOf(Owner(views, k), k) && ValuesOf(c, k) == ValuesOf(Owner(views, k), k);
    }
  }

  lemma ProjectionAgrees(c: View, views: map<string, View>, host: string, f: Frame)
    requires ControlsAgree(c, views) && host in views && f.ProjectionDelta? && f.projectionSession.host == host
    ensures ControlsAgree(Apply(SessionControl, c, f), views[host := Apply(SessionControl, views[host], f)])
  {
    var c', v' := Apply(SessionControl, c, f), Apply(SessionControl, views[host], f);
    var views' := views[host := v'];
    forall k: Id ensures ValuesOf(c', k) == ValuesOf(Owner(views', k), k) {
      assert ValuesOf(c, k) == ValuesOf(Owner(views, k), k);
    }
    forall k: Id ensures QueueOf(c', k) == QueueOf(Owner(views', k), k)
      && JobsOf(c', k) == JobsOf(Owner(views', k), k) {
      assert QueueOf(c, k) == QueueOf(Owner(views, k), k) && JobsOf(c, k) == JobsOf(Owner(views, k), k);
    }
  }

  lemma SomeItem(items: seq<Workspace>)
    requires items != []
    ensures exists w :: w in items
  {
    assert items[0] in items;
  }

  lemma NoItems(items: seq<Workspace>)
    requires forall w :: w !in items
    ensures items == []
  {
    if items != [] { SomeItem(items); }
  }

  lemma ControlIncrementAgrees(s: Hub, p: Packet)
    requires Consistent(s) && s.initial && !s.ended && s.endpoint.SessionControl? && p.host in s.views
      && FrameOk(s.endpoint, p.host, p.frame)
    requires !p.frame.Baseline?
    ensures var next := Recorded(s, p.host, Apply(s.endpoint, s.views[p.host], p.frame));
      HostsListed(next) && Agrees(Apply(s.endpoint, s.client.value, p.frame), next.(synced := true))
  {
    var c, v := s.client.value, s.views[p.host];
    assert p.host in s.hosts;
    var view := Apply(s.endpoint, v, p.frame);
    var next := Recorded(s, p.host, view);
    assert HostsListed(next);
    SameWorkspaces(s, p.host, view);
    match p.frame {
      case Queue(sid, items) => QueueAgrees(c, s.views, p.host, sid, items);
      case Jobs(sid, jobs) => JobAgrees(c, s.views, p.host, sid, jobs);
      case ProjectionDelta(_, _, _, _) => ProjectionAgrees(c, s.views, p.host, p.frame);
      case _ => ControlsUntouched(c, c, s.views, p.host, v);
    }
    NoItems(c.items);
    AllItemsShape(s.endpoint, s.hosts, s.views);
    NoItems(AllItems(Values(s.hosts, s.views)));
    assert ItemsAgree(Apply(s.endpoint, c, p.frame), next.views);
  }

  lemma FoldOne(endpoint: Endpoint, c: View, f: Frame)
    requires !f.Baseline?
    ensures Fold(endpoint, Some(c), [f]) == Some(Apply(endpoint, c, f))
  {
    assert [f][1..] == [];
  }

  lemma WorkspaceIncrementAgrees(s: Hub, p: Packet)
    requires Consistent(s) && s.initial && !s.ended && s.endpoint.WorkspaceFollow? && p.host in s.views
      && FrameOk(s.endpoint, p.host, p.frame)
    requires !p.frame.Baseline?
    ensures var next := Recorded(s, p.host, Apply(s.endpoint, s.views[p.host], p.frame));
      HostsListed(next)
      && Agrees(Apply(s.endpoint, s.client.value, Forwarded(s.endpoint, p.frame, HubMerge(next))),
                next.(synced := p.frame.Order? || (s.synced && OrderKept(s, p))))
  {
    assert p.host in s.hosts;
    var next := Recorded(s, p.host, Apply(s.endpoint, s.views[p.host], p.frame));
    assert HostsListed(next);
    match p.frame {
      case Upsert(w) => UpsertAgrees(s, p.host, w);
      case Remove(id) => RemoveAgrees(s, p.host, id);
      case Order(ids) => HostOrderAgrees(s, p.host, ids);
      case Archived(ids) => ArchivedAgrees(s, p.host, ids);
      case Baseline(_) =>
      case Queue(_, _) => assert next.views == s.views;
      case Jobs(_, _) => assert next.views == s.views;
      case ProjectionDelta(_, _, _, _) => assert next.views == s.views;
      case OtherFrame => assert next.views == s.views;
    }
  }

  lemma IncrementAgrees(s: Hub, p: Packet, s': Hub, out: seq<Frame>)
    requires Consistent(s) && !s.ended && p.host in s.views && !p.frame.Baseline?
      && FrameOk(s.endpoint, p.host, p.frame)
    requires HandlesIncrement(s, p, s', out)
    ensures Consistent(s')
  {
    ApplyOk(s.endpoint, p.host, s.views[p.host], p.frame);
    var view := Apply(s.endpoint, s.views[p.host], p.frame);
    RecordedOk(s, p.host, view);
    if s.initial {
      FoldOne(s.endpoint, s.client.value, out[0]);
      if s.endpoint.SessionControl? { ControlIncrementAgrees(s, p); } else { WorkspaceIncrementAgrees(s, p); }
    }
  }

  // ---- A replacement ---------------------------------------------------------------------------

  lemma {:induction false} FoldAppend(endpoint: Endpoint, c: Option<View>, a: seq<Frame>, b: seq<Frame>)
    ensures Fold(endpoint, c, a + b) == Fold(endpoint, Fold(endpoint, c, a), b)
    decreases |a|
  {
    if a == [] {
      assert a + b == b;
    } else {
      assert (a + b)[1..] == a[1..] + b;
      FoldAppend(endpoint, FoldFrame(endpoint, c, a[0]), a[1..], b);
    }
  }

  /** Only the workspace list of a value may differ. */
  ghost predicate OnlyItems(c: View, c': View) {
    c' == c.(items := c'.items)
  }

  lemma {:induction false} FoldRemovals(c: View, frames: seq<Frame>)
    requires DistinctIds(c.items) && forall f :: f in frames ==> f.Remove?
    ensures var r := Fold(WorkspaceFollow, Some(c), frames);
      r.Some? && OnlyItems(c, r.value) && DistinctIds(r.value.items)
      && forall x :: x in r.value.items <==> x in c.items && Remove(x.id) !in frames
    decreases |frames|
  {
    if frames != [] {
      assert frames == [frames[0]] + frames[1..];
      assert frames[0] in frames;
      WithoutIdShape(c.items, frames[0].workspaceId);
      FoldRemovals(Apply(WorkspaceFollow, c, frames[0]), frames[1..]);
    }
  }

  lemma {:induction false} FoldUpserts(c: View, items: seq<Workspace>)
    requires DistinctIds(c.items) && DistinctIds(items)
    ensures var r := Fold(WorkspaceFollow, Some(c), Upserts(items));
      r.Some? && OnlyItems(c, r.value) && DistinctIds(r.value.items)
      && forall x :: x in r.value.items <==> x in items || (x in c.items && x.id !in Ids(items))
    decreases |items|
  {
    if items != [] {
      assert Upserts(items)[1..] == Upserts(items[1..]);
      assert items == [items[0]] + items[1..];
      assert Ids(items) == [items[0].id] + Ids(items[1..]);
      UpsertedShape(c.items, items[0]);
      FoldUpserts(Apply(WorkspaceFollow, c, Upsert(items[0])), items[1..]);
      assert items[0].id !in Ids(items[1..]);
    } else {
      assert Upserts(items) == [];
    }
  }

  lemma {:induction false} RemovalsShape(previous: seq<Workspace>, nextIds: seq<Id>)
    ensures forall f :: f in Removals(previous, nextIds) ==> f.Remove?
    ensures forall id :: Remove(id) in Removals(previous, nextIds) <==> id in Ids(previous) && id !in nextIds
  {
    if previous != [] {
      var n := |previous| - 1;
      RemovalsShape(previous[..n], nextIds);
      assert Ids(previous) == Ids(previous[..n]) + [previous[n].id];
    }
  }

  lemma ReplacedItems(s: Hub, host: string, next: View, c: View)
    requires HostsListed(s) && ViewsOk(s.endpoint, s.hosts, s.views) && ViewOk(s.endpoint, host, next)
      && ItemsAgree(c, s.views)
    ensures var previous := if host in s.views then s.views[host] else EMPTY_VIEW;
      var r := Fold(WorkspaceFollow, Some(c), Removals(previous.items, Ids(next.items)) + Upserts(next.items));
      r.Some? && OnlyItems(c, r.value) && ItemsAgree(r.value, s.views[host := next])
  {
    var previous := if host in s.views then s.views[host] else EMPTY_VIEW;
    var removals := Removals(previous.items, Ids(next.items));
    RemovalsShape(previous.items, Ids(next.items));
    FoldRemovals(c, removals);
    var c1 := Fold(WorkspaceFollow, Some(c), removals).value;
    FoldUpserts(c1, next.items);
    FoldAppend(WorkspaceFollow, Some(c), removals, Upserts(next.items));
    var c2 := Fold(WorkspaceFollow, Some(c1), Upserts(next.items)).value;
    var views' := s.views[host := next];
    forall x ensures x in c2.items <==> x.id.host in views' && x in views'[x.id.host].items {
      if x in c.items && x.id.host == host {
        IdsOf(previous.items, x);
      }
      if x.id.host != host {
        IdsHosts(previous.items, host, x.id);
        IdsHosts(next.items, host, x.id);
      }
    }
  }

  lemma IdsHosts(items: seq<Workspace>, host: string, id: Id)
    requires (forall w :: w in items ==> w.id.host == host) && id.host != host
    ensures id !in Ids(items)
  {
    forall i | 0 <= i < |items| ensures Ids(items)[i].host == host {
      assert items[i] in items;
    }
  }

  lemma WorkspaceReplacementAgrees(s: Hub, host: string, next: View)
    requires Consistent(s) && s.initial && !s.ended && s.endpoint.WorkspaceFollow? && ViewOk(s.endpoint, host, next)
    ensures var s1 := Recorded(s, host, next);
      var previous := if host in s.views then s.views[host] else EMPTY_VIEW;
      HostsListed(s1)
      && var r := Fold(s.endpoint, s.client, WorkspaceReplacement(previous, next, HubMerge(s1)));
         r.Some? && Agrees(r.value, s1.(synced := true))
  {
    var c := s.client.value;
    var s1 := Recorded(s, host, next);
    RecordedOk(s, host, next);
    var previous := if host in s.views then s.views[host] else EMPTY_VIEW;
    var edits := Removals(previous.items, Ids(next.items)) + Upserts(next.items);
    ReplacedItems(s, host, next, c);
    var c1 := Fold(s.endpoint, s.client, edits).value;
    OrderAndArchive(s, host, next, c1);
    FoldAppend(s.endpoint, s.client, edits, [Order(Ids(HubMerge(s1).items)), Archived(HubMerge(s1).archived)]);
  }

  lemma OrderAndArchive(s: Hub, host: string, next: View, c1: View)
    requires Consistent(s) && s.initial && !s.ended && s.endpoint.WorkspaceFollow? && ViewOk(s.endpoint, host, next)
    requires OnlyItems(s.client.value, c1) && ItemsAgree(c1, s.views[host := next])
    ensures var s1 := Recorded(s, host, next);
      HostsListed(s1)
      && var r := Fold(s.endpoint, Some(c1), [Order(Ids(HubMerge(s1).items)), Archived(HubMerge(s1).archived)]);
         r.Some? && Agrees(r.value, s1.(synced := true))
  {
    var s1 := Recorded(s, host, next);
    RecordedOk(s, host, next);
    MergeItemsAgree(s1);
    FoldOrderAndArchive(c1, HubMerge(s1));
    NoControls(s, host, next, c1.(items := HubMerge(s1).items, archived := HubMerge(s1).archived));
  }

  lemma FoldOrderAndArchive(c: View, m: View)
    requires DistinctIds(c.items) && forall x :: x in m.items <==> x in c.items
    ensures Fold(WorkspaceFollow, Some(c), [Order(Ids(m.items)), Archived(m.archived)])
      == Some(c.(items := m.items, archived := m.archived))
  {
    OrderedLike(c.items, m.items);
    var order, archived := Order(Ids(m.items)), Archived(m.archived);
    FoldOne(WorkspaceFollow, c, order);
    FoldOne(WorkspaceFollow, c.(items := m.items), archived);
    FoldAppend(WorkspaceFollow, Some(c), [order], [archived]);
    assert [order] + [archived] == [order, archived];
  }

  /** The workspace endpoint carries no control data. */
  lemma NoControls(s: Hub, host: string, next: View, c: View)
    requires Consistent(s) && s.initial && !s.ended && s.endpoint.WorkspaceFollow? && ViewOk(s.endpoint, host, next)
    requires c.queues == s.client.value.queues && c.jobs == s.client.value.jobs
      && c.projections == s.client.value.projections
    ensures ControlsAgree(c, s.views[host := next])
  {
    var views' := s.views[host := next];
    forall sid: Id ensures QueueOf(c, sid) == QueueOf(Owner(views', sid), sid) {
      assert QueueOf(s.client.value, sid) == QueueOf(Owner(s.views, sid), sid);
    }
    forall sid: Id ensures JobsOf(c, sid) == JobsOf(Owner(views', sid), sid) {
      assert JobsOf(s.client.value, sid) == JobsOf(Owner(s.views, sid), sid);
    }
    forall sid: Id ensures ValuesOf(c, sid) == ValuesOf(Owner(views', sid), sid) {
      assert ValuesOf(s.client.value, sid) == ValuesOf(Owner(s.views, sid), sid);
    }
  }

  lemma {:induction false} FoldQueues(c: View, previous: View, next: View, frames: seq<Frame>)
    requires forall f :: f in frames ==> IsQueueOf(previous, next, f)
    ensures var r := Fold(SessionControl, Some(c), frames);
      r.Some? && r.value == c.(queues := r.value.queues)
      && forall sid: Id ::
         QueueOf(r.value, sid) == QueueOf(if Queue(sid, QueueOf(next, sid)) in frames then next else c, sid)
    decreases |frames|
  {
    if frames != [] {
      assert frames == [frames[0]] + frames[1..];
      var c1 := Apply(SessionControl, c, frames[0]);
      FoldQueues(c1, previous, next, frames[1..]);
      var r := Fold(SessionControl, Some(c1), frames[1..]).value;
      assert IsQueueOf(previous, next, frames[0]);
      forall sid: Id ensures QueueOf(r, sid)
        == QueueOf(if Queue(sid, QueueOf(next, sid)) in frames then next else c, sid) {
        assert Queue(sid, QueueOf(next, sid)) in frames
          <==> Queue(sid, QueueOf(next, sid)) == frames[0] || Queue(sid, QueueOf(next, sid)) in frames[1..];
      }
    }
  }

  lemma {:induction false} FoldJobs(c: View, previous: View, next: View, frames: seq<Frame>)
    requires forall f :: f in frames ==> IsJobsOf(previous, next, f)
    ensures var r := Fold(SessionControl, Some(c), frames);
      r.Some? && r.value == c.(jobs := r.value.jobs)
      && forall sid: Id ::
         JobsOf(r.value, sid) == JobsOf(if Jobs(sid, JobsOf(next, sid)) in frames then next else c, sid)
    decreases |frames|
  {
    if frames != [] {
      assert frames == [frames[0]] + frames[1..];
      var c1 := Apply(SessionControl, c, frames[0]);
      FoldJobs(c1, previous, next, frames[1..]);
      var r := Fold(SessionControl, Some(c1), frames[1..]).value;
      assert IsJobsOf(previous, next, frames[0]);
      forall sid: Id ensures JobsOf(r, sid) == JobsOf(if Jobs(sid, JobsOf(next, sid)) in frames then next else c, sid) {
        assert Jobs(sid, JobsOf(next, sid)) in frames
          <==> Jobs(sid, JobsOf(next, sid)) == frames[0] || Jobs(sid, JobsOf(next, sid)) in frames[1..];
      }
    }
  }

  /** The frames mention this projection value. */
  ghost predicate Mentioned(frames: seq<Frame>, sid: Id, key: string) {
    exists f :: f in frames && f.ProjectionDelta? && f.projectionSession == sid && f.key == key
  }

  lemma {:induction false} FoldProjections(c: View, next: View, frames: seq<Frame>)
    requires forall f :: f in frames ==> IsProjectionOf(next, f)
    ensures var r := Fold(SessionControl, Some(c), frames);
      r.Some? && r.value == c.(projections := r.value.projections)
      && (forall sid, key :: key in ValuesOf(r.value, sid) <==> key in ValuesOf(c, sid) || Mentioned(frames, sid, key))
      && (forall sid, key :: key in ValuesOf(r.value, sid) ==>
            if Mentioned(frames, sid, key) then
              key in ValuesOf(next, sid) && ValuesOf(r.value, sid)[key] == ValuesOf(next, sid)[key]
            else key in ValuesOf(c, sid) && ValuesOf(r.value, sid)[key] == ValuesOf(c, sid)[key])
    decreases |frames|
  {
    if frames != [] {
      var first, rest := frames[0], frames[1..];
      assert frames == [first] + rest;
      assert IsProjectionOf(next, first);
      var c1 := Apply(SessionControl, c, first);
      FoldProjections(c1, next, rest);
      var r := Fold(SessionControl, Some(c1), rest).value;
      forall sid, key ensures Mentioned(frames, sid, key)
        <==> Mentioned(rest, sid, key) || (first.projectionSession == sid && first.key == key) {
        if Mentioned(rest, sid, key) {
          var f :| f in rest && f.ProjectionDelta? && f.projectionSession == sid && f.key == key;
          assert f in frames;
        }
        if first.projectionSession == sid && first.key == key { assert first in frames; }
      }
      forall sid, key ensures key in ValuesOf(c1, sid)
        <==> key in ValuesOf(c, sid) || (first.projectionSession == sid && first.key == key) {}
    }
  }

  /** The host's queues and jobs after the replacement are the new baseline's; other hosts' are untouched. */
  lemma ReplacedQueues(c: View, views: map<string, View>, host: string, next: View, frames: seq<Frame>)
    requires QueuesAgree(c, views) && QueueFrames(Owner(views, Id(host, "")), next, frames)
    requires (forall sid :: sid in next.queues ==> sid.host == host)
      && forall sid :: sid in Owner(views, Id(host, "")).queues ==> sid.host == host
    ensures var r := Fold(SessionControl, Some(c), frames);
      r.Some? && r.value == c.(queues := r.value.queues) && QueuesAgree(r.value, views[host := next])
  {
    var previous := Owner(views, Id(host, ""));
    FoldQueues(c, previous, next, frames);
    var r := Fold(SessionControl, Some(c), frames).value;
    var views' := views[host := next];
    forall sid: Id ensures QueueOf(r, sid) == QueueOf(Owner(views', sid), sid) {
      assert QueueOf(c, sid) == QueueOf(Owner(views, sid), sid);
      if Queue(sid, QueueOf(next, sid)) in frames {
        assert IsQueueOf(previous, next, Queue(sid, QueueOf(next, sid)));
      }
    }
  }

  lemma ReplacedJobs(c: View, views: map<string, View>, host: string, next: View, frames: seq<Frame>)
    requires JobsAgree(c, views) && JobsFrames(Owner(views, Id(host, "")), next, frames)
    requires (forall sid :: sid in next.jobs ==> sid.host == host)
      && forall sid :: sid in Owner(views, Id(host, "")).jobs ==> sid.host == host
    ensures var r := Fold(SessionControl, Some(c), frames);
      r.Some? && r.value == c.(jobs := r.value.jobs) && JobsAgree(r.value, views[host := next])
  {
    var previous := Owner(views, Id(host, ""));
    FoldJobs(c, previous, next, frames);
    var r := Fold(SessionControl, Some(c), frames).value;
    var views' := views[host := next];
    forall sid: Id ensures JobsOf(r, sid) == JobsOf(Owner(views', sid), sid) {
      assert JobsOf(c, sid) == JobsOf(Owner(views, sid), sid);
      if Jobs(sid, JobsOf(next, sid)) in frames {
        assert IsJobsOf(previous, next, Jobs(sid, JobsOf(next, sid)));
      }
    }
  }

  /** The values of one session of the replaced host. */
  lemma OwnValues(c: View, r: View, previous: View, next: View, frames: seq<Frame>, sid: Id)
    requires ProjectionFrames(next, frames) && !Vanishes(previous, next)
    requires ValuesOf(c, sid) == ValuesOf(previous, sid)
    requires forall key :: key in ValuesOf(r, sid) <==> key in ValuesOf(c, sid) || Mentioned(frames, sid, key)
    requires forall key :: key in ValuesOf(r, sid) && Mentioned(frames, sid, key) ==>
      key in ValuesOf(next, sid) && ValuesOf(r, sid)[key] == ValuesOf(next, sid)[key]
    ensures ValuesOf(r, sid) == ValuesOf(next, sid)
  {
    forall key | key in ValuesOf(next, sid) ensures Mentioned(frames, sid, key) {
      assert ProjectionDelta(sid, key, next.projections[sid].values[key], next.projections[sid].asOfSeq) in frames;
    }
    forall key | key in ValuesOf(r, sid) ensures key in ValuesOf(next, sid) {
      if key in ValuesOf(c, sid) {
        assert sid in previous.projections && key in previous.projections[sid].values;
      }
    }
  }

  lemma ReplacedProjections(c: View, views: map<string, View>, host: string, next: View, frames: seq<Frame>)
    requires ValuesAgree(c, views) && ProjectionFrames(next, frames) && !Vanishes(Owner(views, Id(host, "")), next)
    requires forall sid :: sid in next.projections ==> sid.host == host
    ensures var r := Fold(SessionControl, Some(c), frames);
      r.Some? && r.value == c.(projections := r.value.projections) && ValuesAgree(r.value, views[host := next])
  {
    var previous := Owner(views, Id(host, ""));
    FoldProjections(c, next, frames);
    var r := Fold(SessionControl, Some(c), frames).value;
    forall sid: Id ensures ValuesOf(r, sid) == ValuesOf(Owner(views[host := next], sid), sid) {
      assert ValuesOf(c, sid) == ValuesOf(Owner(views, sid), sid);
      if sid.host == host {
        OwnValues(c, r, previous, next, frames, sid);
      } else {
        assert forall key :: !Mentioned(frames, sid, key);
      }
    }
  }

  ghost predicate OwnedBy(host: string, v: View) {
    && (forall sid :: sid in v.queues ==> sid.host == host)
    && (forall sid :: sid in v.jobs ==> sid.host == host)
    && (forall sid :: sid in v.projections ==> sid.host == host)
  }

  lemma ReplacedControls(c: View, views: map<string, View>, host: string, next: View, q: seq<Frame>, j: seq<Frame>,
      p: seq<Frame>)
    requires ControlsAgree(c, views) && OwnedBy(host, next) && OwnedBy(host, Owner(views, Id(host, "")))
    requires var previous := Owner(views, Id(host, ""));
      !Vanishes(previous, next) && QueueFrames(previous, next, q) && JobsFrames(previous, next, j)
        && ProjectionFrames(next, p)
    ensures var r := Fold(SessionControl, Some(c), q + j + p);
      r.Some? && r.value.items == c.items && r.value.archived == c.archived
        && ControlsAgree(r.value, views[host := next])
  {
    ReplacedQueues(c, views, host, next, q);
    var c1 := Fold(SessionControl, Some(c), q).value;
    JobsUntouched(c, c1, views);
    ReplacedJobs(c1, views, host, next, j);
    var c2 := Fold(SessionControl, Some(c1), j).value;
    ValuesUntouched(c, c2, views);
    ReplacedProjections(c2, views, host, next, p);
    var c3 := Fold(SessionControl, Some(c2), p).value;
    FoldAppend(SessionControl, Some(c), q, j);
    FoldAppend(SessionControl, Some(c), q + j, p);
    ControlsFromParts(c1, c2, c3, views[host := next]);
  }

  lemma JobsUntouched(c: View, c': View, views: map<string, View>)
    requires JobsAgree(c, views) && c'.jobs == c.jobs
    ensures JobsAgree(c', views)
  {
    forall sid: Id ensures JobsOf(c', sid) == JobsOf(Owner(views, sid), sid) {
      assert JobsOf(c, sid) == JobsOf(Owner(views, sid), sid);
    }
  }

  lemma ValuesUntouched(c: View, c': View, views: map<string, View>)
    requires ValuesAgree(c, views) && c'.projections == c.projections
    ensures ValuesAgree(c', views)
  {
    forall sid: Id ensures ValuesOf(c', sid) == ValuesOf(Owner(views, sid), sid) {
      assert ValuesOf(c, sid) == ValuesOf(Owner(views, sid), sid);
    }
  }

  lemma ControlReplacementAgrees(s: Hub, host: string, next: View, q: seq<Frame>, j: seq<Frame>, p: seq<Frame>)
    requires Consistent(s) && s.initial && !s.ended && s.endpoint.SessionControl? && ViewOk(s.endpoint, host, next)
    requires var previous := if host in s.views then s.views[host] else EMPTY_VIEW;
      !Vanishes(previous, next) && QueueFrames(previous, next, q) && JobsFrames(previous, next, j)
        && ProjectionFrames(next, p)
    ensures var s1 := Recorded(s, host, next);
      HostsListed(s1) && var r := Fold(s.endpoint, s.client, q + j + p); r.Some? && Agrees(r.value, s1.(synced := true))
  {
    assert host in s.views ==> host in s.hosts;
    ReplacedControls(s.client.value, s.views, host, next, q, j, p);
    NoWorkspaces(s, host, next);
  }

  lemma ControlsFromParts(c1: View, c2: View, c3: View, views: map<string, View>)
    requires QueuesAgree(c1, views) && JobsAgree(c2, views) && ValuesAgree(c3, views)
    requires c2 == c1.(jobs := c2.jobs) && c3 == c2.(projections := c3.projections)
    ensures ControlsAgree(c3, views)
  {
    forall sid: Id ensures QueueOf(c3, sid) == QueueOf(Owner(views, sid), sid) {
      assert QueueOf(c1, sid) == QueueOf(Owner(views, sid), sid);
    }
    forall sid: Id ensures JobsOf(c3, sid) == JobsOf(Owner(views, sid), sid) {
      assert JobsOf(c2, sid) == JobsOf(Owner(views, sid), sid);
    }
  }

  lemma {:induction false} NothingArchived(vs: seq<View>)
    requires forall v :: v in vs ==> v.archived == []
    ensures AllArchived(vs) == []
  {
    if vs != [] {
      assert vs[|vs| - 1] in vs;
      NothingArchived(vs[..|vs| - 1]);
    }
  }

  /** The control endpoint carries no workspace data. */
  lemma NoData(hosts: seq<string>, views: map<string, View>)
    requires ViewsOk(SessionControl, hosts, views)
    ensures AllItems(Values(hosts, views)) == [] && AllArchived(Values(hosts, views)) == []
  {
    AllItemsShape(SessionControl, hosts, views);
    NoItems(AllItems(Values(hosts, views)));
    NothingArchived(Values(hosts, views));
  }

  lemma NoWorkspaces(s: Hub, host: string, next: View)
    requires Consistent(s) && s.initial && !s.ended && s.endpoint.SessionControl? && ViewOk(s.endpoint, host, next)
    ensures var s1 := Recorded(s, host, next);
      HostsListed(s1) && s.client.value.items == [] && s.client.value.archived == []
      && AllItems(Values(s1.hosts, s1.views)) == [] && AllArchived(Values(s1.hosts, s1.views)) == []
      && ItemsAgree(s.client.value, s1.views)
  {
    var s1 := Recorded(s, host, next);
    RecordedOk(s, host, next);
    NoData(s.hosts, s.views);
    NoData(s1.hosts, s1.views);
    assert FirstIds([]) == [];
    NoItems(s.client.value.items);
  }

  lemma ReplacementEnds(s: Hub, p: Packet, s': Hub, out: seq<Frame>)
    requires HostsListed(s) && !s.ended && p.frame.Baseline? && HandlesReplacement(s, p, s', out)
    ensures s'.ended <==>
            s.endpoint.SessionControl?
            && Vanishes(if p.host in s.views then s.views[p.host] else EMPTY_VIEW, p.frame.value)
    ensures s'.ended ==> s' == Recorded(s, p.host, p.frame.value).(ended := true)
    ensures !s'.ended ==> s' == Recorded(s, p.host, p.frame.value)
      .(client := Fold(s.endpoint, s.client, out), synced := true)
  {}

  lemma ConsistentFrom(s: Hub, c: View)
    requires HostsListed(s) && ViewsOk(s.endpoint, s.hosts, s.views) && s.initial && Agrees(c, s)
    ensures Consistent(s.(client := Some(c)))
  {}

  lemma ReplacementAgrees(s: Hub, p: Packet, s': Hub, out: seq<Frame>)
    requires Consistent(s) && !s.ended && s.initial && p.frame.Baseline? && FrameOk(s.endpoint, p.host, p.frame)
    requires HandlesReplacement(s, p, s', out)
    ensures Consistent(s')
  {
    var next := p.frame.value;
    RecordedOk(s, p.host, next);
    ReplacementEnds(s, p, s', out);
    if s.endpoint.WorkspaceFollow? {
      WorkspaceReplacementAgrees(s, p.host, next);
      ConsistentFrom(Recorded(s, p.host, next).(synced := true), Fold(s.endpoint, s.client, out).value);
    } else if !s'.ended {
      var q, j, pr := ReplacementParts(s, p, s', out);
      ControlReplacementAgrees(s, p.host, next, q, j, pr);
      ConsistentFrom(Recorded(s, p.host, next).(synced := true), Fold(s.endpoint, s.client, out).value);
    }
  }

  lemma ReplacementParts(s: Hub, p: Packet, s': Hub, out: seq<Frame>)
      returns (q: seq<Frame>, j: seq<Frame>, pr: seq<Frame>)
    requires HostsListed(s) && p.frame.Baseline? && s.endpoint.SessionControl?
    requires !Vanishes(if p.host in s.views then s.views[p.host] else EMPTY_VIEW, p.frame.value)
    requires HandlesReplacement(s, p, s', out)
    ensures var previous := if p.host in s.views then s.views[p.host] else EMPTY_VIEW;
      out == q + j + pr && QueueFrames(previous, p.frame.value, q) && JobsFrames(previous, p.frame.value, j)
        && ProjectionFrames(p.frame.value, pr)
    ensures s' == Recorded(s, p.host, p.frame.value).(client := Fold(s.endpoint, s.client, out), synced := true)
  {
    var previous := if p.host in s.views then s.views[p.host] else EMPTY_VIEW;
    q, j, pr :| out == q + j + pr && QueueFrames(previous, p.frame.value, q) && JobsFrames(previous, p.frame.value, j)
      && ProjectionFrames(p.frame.value, pr);
  }

  // ---- Runs ------------------------------------------------------------------------------------

  /** One step of the pumps, the deadline or the loop; `out` is what the client is sent. */
  ghost predicate Next(s: Hub, e: Event, s': Hub, out: seq<Frame>)
  {
    match e
    case Connects(host) => host in s.entries && s' == s.(generation := s.generation[host := false]) && out == []
    case Sends(host, frame) => FrameOk(s.endpoint, host, frame) && s' == Pump(s, host, frame) && out == []
    case Disconnects(host) => s' == s.(generation := s.generation - {host}) && out == []
    case Deadline =>
      && HostsListed(s) && !s.ended && !s.initial && 0 < |s.views| < |s.entries|
      && out == [Baseline(HubMerge(s))] && s' == s.(initial := true, client := Some(HubMerge(s)), synced := true)
    case Consume =>
      && HostsListed(s) && !s.ended && s.queue != []
      && (s.queue[0].frame.Baseline? || s.queue[0].host in s.views)
      && Handles(s.(queue := s.queue[1..]), s.queue[0], s', out)
  }

  /** The host's baseline has been recorded, or waits among the first `n` queued packets. */
  ghost predicate BaselineAhead(s: Hub, host: string, n: int)
    requires n <= |s.queue|
  {
    host in s.views || exists k :: 0 <= k < n && s.queue[k].host == host && s.queue[k].frame.Baseline?
  }

  ghost predicate Pumped(s: Hub) {
    && (forall i :: 0 <= i < |s.queue| ==> FrameOk(s.endpoint, s.queue[i].host, s.queue[i].frame))
    && (forall i :: 0 <= i < |s.queue| && !s.queue[i].frame.Baseline? ==> BaselineAhead(s, s.queue[i].host, i))
    && (forall h :: h in s.generation && s.generation[h] ==> BaselineAhead(s, h, |s.queue|))
  }

  ghost predicate Invariant(s: Hub) {
    Consistent(s) && Pumped(s)
  }

  /** The loop never meets an increment of a host it holds no view for. */
  lemma QueuedIncrementsHaveViews(s: Hub)
    requires Invariant(s) && s.queue != []
    ensures s.queue[0].frame.Baseline? || s.queue[0].host in s.views
  {}

  lemma BaselineAheadKept(s: Hub, s': Hub, host: string, n: int)
    requires n <= |s.queue| <= |s'.queue| && s.queue <= s'.queue && s'.views == s.views && BaselineAhead(s, host, n)
    ensures BaselineAhead(s', host, n) && BaselineAhead(s', host, |s'.queue|)
  {
    if host !in s.views {
      var k :| 0 <= k < n && s.queue[k].host == host && s.queue[k].frame.Baseline?;
      assert s'.queue[k].host == host;
    }
  }

  lemma PumpedKeeps(s: Hub, s': Hub)
    requires Pumped(s) && s.queue <= s'.queue && s'.views == s.views && s'.endpoint == s.endpoint
    requires forall i :: |s.queue| <= i < |s'.queue| ==>
      FrameOk(s.endpoint, s'.queue[i].host, s'.queue[i].frame)
        && (s'.queue[i].frame.Baseline? || BaselineAhead(s, s'.queue[i].host, |s.queue|))
    requires forall h :: h in s'.generation && s'.generation[h] ==>
      (h in s.generation && s.generation[h])
        || exists i :: |s.queue| <= i < |s'.queue| && s'.queue[i].host == h && s'.queue[i].frame.Baseline?
    ensures Pumped(s')
  {
    forall i | 0 <= i < |s'.queue| && !s'.queue[i].frame.Baseline? ensures BaselineAhead(s', s'.queue[i].host, i) {
      var host := s'.queue[i].host;
      BaselineAheadKept(s, s', host, if i < |s.queue| then i else |s.queue|);
      if i > |s.queue| && host !in s.views {
        var k :| 0 <= k < |s.queue| && s'.queue[k].host == host && s'.queue[k].frame.Baseline?;
      }
    }
    forall h | h in s'.generation && s'.generation[h] ensures BaselineAhead(s', h, |s'.queue|) {
      if h in s.generation && s.generation[h] { BaselineAheadKept(s, s', h, |s.queue|); }
    }
  }

  lemma PumpKeeps(s: Hub, host: string, frame: Frame)
    requires Invariant(s) && FrameOk(s.endpoint, host, frame)
    ensures Invariant(Pump(s, host, frame))
  {
    var s' := Pump(s, host, frame);
    hide Consistent, FrameOk;
    if s'.queue != s.queue {
      assert s'.queue[|s.queue|] == Packet(host, frame);
      PumpedMore(s, host, frame, s');
    } else {
      PumpedKeeps(s, s');
    }
    ConsistentPart(s, s');
  }

  /** A frame that was accepted: a baseline, or one behind its connection's baseline. */
  lemma PumpedMore(s: Hub, host: string, frame: Frame, s': Hub)
    requires Pumped(s) && FrameOk(s.endpoint, host, frame) && host in s.generation
    requires s.generation[host] || frame.Baseline?
    requires s' == s.(generation := s.generation[host := true], queue := s.queue + [Packet(host, frame)])
    ensures Pumped(s')
  {
    var n := |s.queue|;
    hide FrameOk;
    assert s'.queue[n] == Packet(host, frame) && s.queue <= s'.queue;
    assert s.generation[host] ==> BaselineAhead(s, host, n);
    hide Pumped, BaselineAhead;
    PumpedKeeps(s, s');
  }

  lemma ConsistentPart(s: Hub, s': Hub)
    requires Consistent(s) && s' == s.(queue := s'.queue, generation := s'.generation)
    ensures Consistent(s')
  {}

  lemma ConsumePumped(s: Hub, s': Hub)
    requires Pumped(s) && s.queue != [] && s'.queue == s.queue[1..] && s'.endpoint == s.endpoint
      && s'.generation == s.generation
    requires s'.views.Keys == s.views.Keys + {s.queue[0].host}
    ensures Pumped(s')
  {
    forall h, n | 0 < n <= |s.queue| && BaselineAhead(s, h, n) ensures BaselineAhead(s', h, n - 1) {
      if h !in s'.views {
        var k :| 0 <= k < n && s.queue[k].host == h && s.queue[k].frame.Baseline?;
        assert k != 0;
        assert s'.queue[k - 1] == s.queue[k];
      }
    }
    forall i | 0 <= i < |s'.queue| && !s'.queue[i].frame.Baseline? ensures BaselineAhead(s', s'.queue[i].host, i) {
      assert s'.queue[i] == s.queue[i + 1];
      assert BaselineAhead(s, s.queue[i + 1].host, i + 1);
    }
  }

  lemma FirstAgrees(s: Hub, p: Packet, s': Hub, out: seq<Frame>)
    requires Consistent(s) && !s.ended && !s.initial && p.frame.Baseline? && FrameOk(s.endpoint, p.host, p.frame)
    requires HandlesFirst(s, p, s', out)
    ensures Consistent(s') && s'.client == Fold(s.endpoint, s.client, out)
  {
    RecordedOk(s, p.host, p.frame.value);
    MergeAgrees(Recorded(s, p.host, p.frame.value));
    if out != [] { assert out[1..] == []; }
  }

  /** The parts of the state a delivery does not touch, and the views it records. */
  lemma HandlesFrame(s: Hub, p: Packet, s': Hub, out: seq<Frame>)
    requires HostsListed(s) && !s.ended && (p.frame.Baseline? || p.host in s.views) && Handles(s, p, s', out)
    ensures s'.queue == s.queue && s'.generation == s.generation && s'.endpoint == s.endpoint && s'.entries == s.entries
    ensures s'.views.Keys == s.views.Keys + {p.host}
  {
    if !p.frame.Baseline? {
      assert HandlesIncrement(s, p, s', out);
    } else if !s.initial {
      assert HandlesFirst(s, p, s', out);
    } else {
      ReplacementEnds(s, p, s', out);
    }
  }

  lemma ConsumeConsistent(s: Hub, p: Packet, s': Hub, out: seq<Frame>)
    requires Consistent(s) && !s.ended && FrameOk(s.endpoint, p.host, p.frame)
      && (p.frame.Baseline? || p.host in s.views)
    requires Handles(s, p, s', out)
    ensures Consistent(s') && s'.client == Fold(s.endpoint, s.client, out)
  {
    if !p.frame.Baseline? {
      IncrementAgrees(s, p, s', out);
    } else if !s.initial {
      FirstAgrees(s, p, s', out);
    } else {
      ReplacementAgrees(s, p, s', out);
      ReplacementEnds(s, p, s', out);
      ReplacementOut(s, p, s', out);
    }
  }

  lemma ReplacementOut(s: Hub, p: Packet, s': Hub, out: seq<Frame>)
    requires HostsListed(s) && !s.ended && p.frame.Baseline? && HandlesReplacement(s, p, s', out)
    ensures s'.ended ==> out == []
  {}

  lemma ConsumeKeeps(s: Hub, s': Hub, out: seq<Frame>)
    requires Invariant(s) && Next(s, Consume, s', out)
    ensures Invariant(s') && s'.client == Fold(s.endpoint, s.client, out)
    ensures s'.endpoint == s.endpoint && s'.entries == s.entries
  {
    var s0 := s.(queue := s.queue[1..]);
    ConsumeConsistent(s0, s.queue[0], s', out);
    HandlesFrame(s0, s.queue[0], s', out);
    ConsumePumped(s, s');
  }

  lemma GenerationKeeps(s: Hub, generation: map<string, bool>)
    requires Invariant(s) && forall h :: h in generation && generation[h] ==> h in s.generation && s.generation[h]
    ensures Invariant(s.(generation := generation))
  {
    PumpedKeeps(s, s.(generation := generation));
    ConsistentPart(s, s.(generation := generation));
  }

  lemma PumpsKeep(s: Hub, e: Event, s': Hub, out: seq<Frame>)
    requires Invariant(s) && Next(s, e, s', out) && !e.Consume? && !e.Deadline?
    ensures Invariant(s') && s'.client == s.client && out == []
    ensures s'.endpoint == s.endpoint && s'.entries == s.entries
  {
    hide Consistent, Pumped, FrameOk;
    match e
    case Connects(host) => GenerationKeeps(s, s'.generation);
    case Sends(host, frame) => PumpKeeps(s, host, frame);
    case Disconnects(host) => GenerationKeeps(s, s'.generation);
    case _ =>
  }

  lemma DeadlineKeeps(s: Hub, s': Hub, out: seq<Frame>)
    requires Invariant(s) && Next(s, Deadline, s', out)
    ensures Invariant(s') && s'.client == Fold(s.endpoint, s.client, out)
    ensures s'.endpoint == s.endpoint && s'.entries == s.entries
  {
    MergeAgrees(s);
    assert out[1..] == [];
    PumpedKeeps(s, s');
  }

  lemma NextKeeps(s: Hub, e: Event, s': Hub, out: seq<Frame>)
    requires Invariant(s) && Next(s, e, s', out)
    ensures Invariant(s') && s'.client == Fold(s.endpoint, s.client, out)
    ensures s'.endpoint == s.endpoint && s'.entries == s.entries
  {
    if e.Consume? {
      ConsumeKeeps(s, s', out);
    } else if e.Deadline? {
      DeadlineKeeps(s, s', out);
    } else {
      PumpsKeep(s, e, s', out);
    }
  }

  /** A run: the states passed through, and what each step took and sent. */
  ghost predicate IsRun(states: seq<Hub>, events: seq<Event>, outs: seq<seq<Frame>>) {
    && |states| == |events| + 1 == |outs| + 1
    && (exists endpoint, entries :: states[0] == AggregateView.Start(endpoint, entries) && entries != {})
    && forall i :: 0 <= i < |events| ==> Next(states[i], events[i], states[i + 1], outs[i])
  }

  function Concat(outs: seq<seq<Frame>>): seq<Frame> {
    if outs == [] then [] else Concat(outs[..|outs| - 1]) + outs[|outs| - 1]
  }

  lemma {:induction false} RunKeeps(states: seq<Hub>, events: seq<Event>, outs: seq<seq<Frame>>)
    requires IsRun(states, events, outs)
    ensures var last := states[|events|];
      Invariant(last) && last.endpoint == states[0].endpoint && last.client == Fold(last.endpoint, None, Concat(outs))
    decreases |events|
  {
    if events != [] {
      var n := |events| - 1;
      RunKeeps(states[..n + 1], events[..n], outs[..n]);
      NextKeeps(states[n], events[n], states[n + 1], outs[n]);
      FoldAppend(states[n].endpoint, None, Concat(outs[..n]), outs[n]);
    }
  }

  /** What a reader of the two views can tell apart: nothing but the order of workspaces, empty lists and empty
      projections, and how current a projection claims to be. */
  ghost predicate SameView(c: View, m: View) {
    && (forall id :: Find(c.items, id) == Find(m.items, id))
    && c.archived == m.archived
    && (forall sid: Id :: QueueOf(c, sid) == QueueOf(m, sid))
    && (forall sid: Id :: JobsOf(c, sid) == JobsOf(m, sid))
    && (forall sid: Id :: ValuesOf(c, sid) == ValuesOf(m, sid))
  }

  lemma AgreesWithMerge(c: View, s: Hub)
    requires HostsListed(s) && ViewsOk(s.endpoint, s.hosts, s.views) && Agrees(c, s)
    ensures SameView(c, HubMerge(s))
    ensures s.synced ==> c.items == HubMerge(s).items
  {
    var m := HubMerge(s);
    MergeItemsAgree(s);
    MergeControlsAgree(s);
    forall id ensures Find(c.items, id) == Find(m.items, id) { FindByMembership(c.items, m.items, id); }
    forall sid: Id ensures QueueOf(c, sid) == QueueOf(m, sid) {
      assert QueueOf(m, sid) == QueueOf(Owner(s.views, sid), sid);
    }
    forall sid: Id ensures JobsOf(c, sid) == JobsOf(m, sid) {
      assert JobsOf(m, sid) == JobsOf(Owner(s.views, sid), sid);
    }
    forall sid: Id ensures ValuesOf(c, sid) == ValuesOf(m, sid) {
      assert ValuesOf(m, sid) == ValuesOf(Owner(s.views, sid), sid);
    }
  }

  /** VIEW AGREEMENT. Along every interleaving of connections, baselines, increments, the deadline and deliveries, a
      client that folds what it was sent sees the merge of the hosts' current views; and while no new workspace has
      landed out of place, it sees the workspaces in the merge's order. */
  lemma ClientSeesMerge(states: seq<Hub>, events: seq<Event>, outs: seq<seq<Frame>>)
    requires IsRun(states, events, outs)
    ensures var last := states[|events|];
      var client := Fold(last.endpoint, None, Concat(outs));
      HostsListed(last)
      && (last.initial <==> client.Some?)
      && (last.initial && !last.ended ==>
         SameView(client.value, HubMerge(last)) && (last.synced ==> client.value.items == HubMerge(last).items))
  {
    RunKeeps(states, events, outs);
    var last := states[|events|];
    if last.initial && !last.ended { AgreesWithMerge(last.client.value, last); }
  }
}
