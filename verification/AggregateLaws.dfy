/** What the merge of the hosts' views is, said of the views themselves, and what each increment does to a view. */
module AggregateLaws {
  import opened Prelude
  import opened AggregateView
  import opened AggregateRuns
  import opened AggregateRepeats

  // ---- Positions in several lists --------------------------------------------------------------

  /** Entry `(i, k)` comes before entry `(j, m)`: in an earlier list, or earlier in the same one. */
  predicate Before(i: nat, k: nat, j: nat, m: nat) {
    i < j || (i == j && k < m)
  }

  function ArchivedLists(views: seq<View>): seq<seq<Id>> {
    seq(|views|, v requires 0 <= v < |views| => views[v].archived)
  }

  function ItemLists(views: seq<View>): seq<seq<Workspace>> {
    seq(|views|, v requires 0 <= v < |views| => views[v].items)
  }

  predicate In<T(==)>(lists: seq<seq<T>>, i: nat, k: nat, x: T) {
    i < |lists| && k < |lists[i]| && lists[i][k] == x
  }

  function Flat<T>(lists: seq<seq<T>>): seq<T> {
    if lists == [] then [] else Flat(lists[..|lists| - 1]) + lists[|lists| - 1]
  }

  /** Where entry `(i, k)` stands when the lists are put behind one another. */
  function Place<T>(lists: seq<seq<T>>, i: nat, k: nat): nat
    requires i < |lists|
  {
    |Flat(lists[..i])| + k
  }

  lemma {:induction false} PlaceHolds<T>(lists: seq<seq<T>>, i: nat, k: nat)
    requires i < |lists| && k < |lists[i]|
    ensures Place(lists, i, k) < |Flat(lists)| && Flat(lists)[Place(lists, i, k)] == lists[i][k]
    decreases |lists|
  {
    var n := |lists| - 1;
    if i < n {
      assert lists[..n][..i] == lists[..i];
      PlaceHolds(lists[..n], i, k);
    }
  }

  lemma {:induction false} PlaceOf<T>(lists: seq<seq<T>>, at: nat) returns (i: nat, k: nat)
    requires at < |Flat(lists)|
    ensures i < |lists| && k < |lists[i]| && Place(lists, i, k) == at
    decreases |lists|
  {
    var n := |lists| - 1;
    if at < |Flat(lists[..n])| {
      i, k := PlaceOf(lists[..n], at);
      assert lists[..n][..i] == lists[..i];
    } else {
      i, k := n, at - |Flat(lists[..n])|;
    }
  }

  lemma {:induction false} FlatPrefix<T>(lists: seq<seq<T>>, i: nat)
    requires i < |lists|
    ensures |Flat(lists[..i])| + |lists[i]| <= |Flat(lists)|
    decreases |lists|
  {
    var n := |lists| - 1;
    if i < n {
      assert lists[..n][..i] == lists[..i];
      FlatPrefix(lists[..n], i);
    }
  }

  lemma PlacesAgree<T>(lists: seq<seq<T>>, i: nat, k: nat, j: nat, m: nat)
    requires i < |lists| && k < |lists[i]| && j < |lists| && m < |lists[j]|
    ensures Before(i, k, j, m) <==> Place(lists, i, k) < Place(lists, j, m)
  {
    if i < j {
      assert lists[..j][..i] == lists[..i];
      FlatPrefix(lists[..j], i);
    } else if j < i {
      assert lists[..i][..j] == lists[..j];
      FlatPrefix(lists[..i], j);
    }
  }

  // ---- First occurrences -----------------------------------------------------------------------

  /** Where an id first occurs. */
  function FirstPlace(ids: seq<Id>, id: Id): (p: nat)
    requires id in ids
    ensures p < |ids| && ids[p] == id && forall q :: 0 <= q < p ==> ids[q] != id
  {
    if id in ids[..|ids| - 1] then FirstPlace(ids[..|ids| - 1], id) else |ids| - 1
  }

  /** Each id once, in the order of first occurrence. */
  ghost predicate InOrderOfFirst(ids: seq<Id>, r: seq<Id>) {
    && Distinct(r) && (forall id :: id in r <==> id in ids)
    && (forall a, b :: 0 <= a < b < |r| ==> FirstPlace(ids, r[a]) < FirstPlace(ids, r[b]))
  }

  lemma {:induction false} FirstIdsLaw(ids: seq<Id>)
    ensures InOrderOfFirst(ids, FirstIds(ids))
  {
    if ids != [] {
      var n := |ids| - 1;
      var before, r := FirstIds(ids[..n]), FirstIds(ids);
      FirstIdsLaw(ids[..n]);
      assert ids == ids[..n] + [ids[n]];
      forall id | id in before ensures id in ids && FirstPlace(ids, id) == FirstPlace(ids[..n], id) {
        assert id in ids[..n];
      }
    }
  }

  // ---- The merge -------------------------------------------------------------------------------

  lemma {:induction false} FlatArchived(views: seq<View>)
    ensures Flat(ArchivedLists(views)) == AllArchived(views)
  {
    if views != [] {
      var n := |views| - 1;
      assert ArchivedLists(views)[..n] == ArchivedLists(views[..n]);
      FlatArchived(views[..n]);
    }
  }

  lemma {:induction false} FlatItems(views: seq<View>)
    ensures Flat(ItemLists(views)) == AllItems(views)
  {
    if views != [] {
      var n := |views| - 1;
      assert ItemLists(views)[..n] == ItemLists(views[..n]);
      FlatItems(views[..n]);
    }
  }

  /** The entry at `(i, k)` comes before every entry with the id. */
  ghost predicate Precedes(lists: seq<seq<Id>>, i: nat, k: nat, id: Id) {
    forall j: nat, m: nat :: In(lists, j, m, id) ==> Before(i, k, j, m)
  }

  /** Each id of some list once, in the order of first occurrence over the lists in turn. */
  ghost predicate Collects(lists: seq<seq<Id>>, r: seq<Id>) {
    && Distinct(r)
    && (forall id :: id in r <==> exists i: nat, k: nat :: In(lists, i, k, id))
    && (forall a, b :: 0 <= a < b < |r| ==> Sooner(lists, r[a], r[b]))
  }

  /** The first id occurs somewhere before every occurrence of the second. */
  ghost predicate Sooner(lists: seq<seq<Id>>, x: Id, y: Id) {
    exists i: nat, k: nat :: In(lists, i, k, x) && Precedes(lists, i, k, y)
  }

  lemma CollectsFlat(lists: seq<seq<Id>>)
    ensures Collects(lists, FirstIds(Flat(lists)))
  {
    var ids := Flat(lists);
    var r := FirstIds(ids);
    FirstIdsLaw(ids);
    hide Flat, FirstIds;
    forall id ensures id in r <==> exists i: nat, k: nat :: In(lists, i, k, id) {
      if id in ids { var i, k := Found(lists, FirstPlace(ids, id)); }
      if i: nat, k: nat :| In(lists, i, k, id) { PlaceHolds(lists, i, k); }
    }
    forall a, b | 0 <= a < b < |r| ensures Sooner(lists, r[a], r[b]) {
      var i, k := Found(lists, FirstPlace(ids, r[a]));
      forall j: nat, m: nat | In(lists, j, m, r[b]) ensures Before(i, k, j, m) {
        PlaceHolds(lists, j, m);
        NotEarlier(ids, r[b], Place(lists, j, m));
        PlacesAgree(lists, i, k, j, m);
      }
      assert In(lists, i, k, r[a]) && Precedes(lists, i, k, r[b]);
    }
  }

  lemma Found(lists: seq<seq<Id>>, at: nat) returns (i: nat, k: nat)
    requires at < |Flat(lists)|
    ensures In(lists, i, k, Flat(lists)[at]) && Place(lists, i, k) == at
  {
    i, k := PlaceOf(lists, at);
    PlaceHolds(lists, i, k);
  }

  lemma NotEarlier(ids: seq<Id>, id: Id, p: nat)
    requires p < |ids| && ids[p] == id
    ensures FirstPlace(ids, id) <= p
  {}

  function IdLists(views: seq<View>): seq<seq<Id>> {
    seq(|views|, v requires 0 <= v < |views| => Ids(views[v].items))
  }

  lemma {:induction false} FlatIds(views: seq<View>)
    ensures Flat(IdLists(views)) == Ids(AllItems(views))
  {
    if views != [] {
      var n := |views| - 1;
      assert IdLists(views)[..n] == IdLists(views[..n]);
      FlatIds(views[..n]);
      assert Ids(AllItems(views)) == Ids(AllItems(views[..n])) + Ids(views[n].items);
    }
  }

  lemma {:induction false} IdsOfFirst(items: seq<Workspace>)
    ensures Ids(FirstItems(items)) == FirstIds(Ids(items))
  {
    if items != [] {
      var n := |items| - 1;
      IdsOfFirst(items[..n]);
      assert Ids(items)[..n] == Ids(items[..n]) && Ids(items)[n] == items[n].id;
    }
  }

  /** `w` is the first workspace of its id over the views in turn. */
  ghost predicate FirstOfItsId(views: seq<View>, w: Workspace, i: nat, k: nat) {
    && i < |views| && k < |views[i].items| && views[i].items[k] == w
    && forall j: nat, m: nat :: j < |views| && m < |views[j].items| && Before(j, m, i, k) ==>
       views[j].items[m].id != w.id
  }

  ghost predicate IsFirst(views: seq<View>, w: Workspace) {
    exists i: nat, k: nat :: FirstOfItsId(views, w, i, k)
  }

  /** MERGED WORKSPACES. Each archived id of some view once, in order of first occurrence; of the workspaces of one id
      the first, in order of first occurrence of the ids. */
  lemma MergedWorkspaces(views: seq<View>)
    ensures Collects(ArchivedLists(views), Merge(views).archived)
    ensures Collects(IdLists(views), Ids(Merge(views).items))
    ensures forall a :: 0 <= a < |Merge(views).items| ==> IsFirst(views, Merge(views).items[a])
  {
    FlatArchived(views);
    CollectsFlat(ArchivedLists(views));
    FlatIds(views);
    CollectsFlat(IdLists(views));
    var all := AllItems(views);
    IdsOfFirst(all);
    forall a | 0 <= a < |Merge(views).items| ensures IsFirst(views, Merge(views).items[a]) {
      FirstOne(views, a);
    }
  }

  lemma FirstOne(views: seq<View>, a: nat)
    requires a < |Merge(views).items|
    ensures IsFirst(views, Merge(views).items[a])
  {
    var all := AllItems(views);
    var w := FirstItems(all)[a];
    FirstItemsOnce(all);
    FindFirst(all, w.id);
    FoundAt(FirstItems(all), a);
    FlatItems(views);
    var at := IndexOf(all, w.id).value;
    var i, k := PlaceOf(ItemLists(views), at);
    PlaceHolds(ItemLists(views), i, k);
    forall j: nat, m: nat | j < |views| && m < |views[j].items| && Before(j, m, i, k)
      ensures views[j].items[m].id != w.id {
      PlaceHolds(ItemLists(views), j, m);
      PlacesAgree(ItemLists(views), j, m, i, k);
    }
    assert FirstOfItsId(views, w, i, k);
  }

  lemma FoundAt(items: seq<Workspace>, a: nat)
    requires DistinctIds(items) && a < |items|
    ensures Find(items, items[a].id) == Some(items[a])
  {}

  /** The last map that has the key. */
  ghost predicate LastHolder<V>(maps: seq<map<Id, V>>, sid: Id, i: nat) {
    i < |maps| && sid in maps[i] && forall j :: i < j < |maps| ==> sid !in maps[j]
  }

  /** A union in which later maps win: the keys of all, each with the value of the last map that has it. */
  ghost predicate Unites<V(!new)>(maps: seq<map<Id, V>>, m: map<Id, V>) {
    && (forall sid :: sid in m <==> exists i :: 0 <= i < |maps| && sid in maps[i])
    && (forall sid, i: nat :: LastHolder(maps, sid, i) ==> sid in m && m[sid] == maps[i][sid])
  }

  lemma UnitesLast<V(!new)>(maps: seq<map<Id, V>>, m: map<Id, V>)
    requires maps != [] && Unites(maps[..|maps| - 1], m)
    ensures Unites(maps, m + maps[|maps| - 1])
  {
    var n := |maps| - 1;
    assert forall i :: 0 <= i < n ==> maps[..n][i] == maps[i];
    forall sid ensures sid in m + maps[n] <==> exists i :: 0 <= i < |maps| && sid in maps[i] {
      if sid in m {
        var i :| 0 <= i < n && sid in maps[..n][i];
        assert sid in maps[i];
      }
      if i :| 0 <= i < |maps| && sid in maps[i] {
        if i < n { assert sid in maps[..n][i]; }
      }
    }
    forall sid, i: nat | LastHolder(maps, sid, i) ensures sid in m + maps[n] && (m + maps[n])[sid] == maps[i][sid] {
      if i < n {
        assert LastHolder(maps[..n], sid, i);
        assert sid !in maps[n];
      }
    }
  }

  function QueueMaps(views: seq<View>): seq<map<Id, seq<string>>> {
    seq(|views|, v requires 0 <= v < |views| => views[v].queues)
  }

  function JobMaps(views: seq<View>): seq<map<Id, seq<string>>> {
    seq(|views|, v requires 0 <= v < |views| => views[v].jobs)
  }

  function ProjectionMaps(views: seq<View>): seq<map<Id, Projection>> {
    seq(|views|, v requires 0 <= v < |views| => views[v].projections)
  }

  /** MERGED CONTROLS. Every session some view has, each with the entry of the last view that has it. */
  lemma {:induction false} MergedControls(views: seq<View>)
    ensures Unites(QueueMaps(views), Merge(views).queues)
    ensures Unites(JobMaps(views), Merge(views).jobs)
    ensures Unites(ProjectionMaps(views), Merge(views).projections)
  {
    hide Unites;
    if views == [] {
      NothingUnited(QueueMaps(views));
      NothingUnited(JobMaps(views));
      NothingUnited(ProjectionMaps(views));
    } else {
      var n := |views| - 1;
      MergedControls(views[..n]);
      assert QueueMaps(views)[..n] == QueueMaps(views[..n]);
      assert JobMaps(views)[..n] == JobMaps(views[..n]);
      assert ProjectionMaps(views)[..n] == ProjectionMaps(views[..n]);
      UnitesLast(QueueMaps(views), Merge(views[..n]).queues);
      UnitesLast(JobMaps(views), Merge(views[..n]).jobs);
      UnitesLast(ProjectionMaps(views), Merge(views[..n]).projections);
    }
  }

  lemma NothingUnited<V(!new)>(maps: seq<map<Id, V>>)
    requires maps == []
    ensures Unites(maps, map[])
  {}

  // ---- Increments ------------------------------------------------------------------------------

  /** `r` is the list with the first entry of the id replaced, or with a new entry at its end. */
  ghost predicate Puts(items: seq<Workspace>, w: Workspace, r: seq<Workspace>) {
    if exists k :: 0 <= k < |items| && items[k].id == w.id
    then exists k :: 0 <= k < |items| == |r| && items[k].id == w.id && r[k] == w
                     && forall j :: 0 <= j < |items| && j != k ==> r[j] == items[j] && (j < k ==> items[j].id != w.id)
    else r == items + [w]
  }

  /** The entries that `gone` does not name, in their order. */
  function Remaining(items: seq<Workspace>, gone: set<Id>): seq<Workspace> {
    if items == [] then []
    else
      var last := items[|items| - 1];
      Remaining(items[..|items| - 1], gone) + if last.id in gone then [] else [last]
  }

  lemma {:induction false} RemainingFront(items: seq<Workspace>, gone: set<Id>)
    requires items != []
    ensures Remaining(items, gone) == (if items[0].id in gone then [] else [items[0]]) + Remaining(items[1..], gone)
  {
    var n := |items| - 1;
    if n > 0 {
      RemainingFront(items[..n], gone);
      assert items[..n][1..] == items[1..][..n - 1];
    } else {
      assert items[..0] == [] && items[1..] == [];
    }
  }

  lemma {:induction false} WithoutIdsRemain(items: seq<Workspace>, ids: seq<Id>)
    ensures WithoutIds(items, ids) == Remaining(items, set id | id in ids)
  {
    if items != [] {
      RemainingFront(items, set id | id in ids);
      WithoutIdsRemain(items[1..], ids);
    }
  }

  lemma {:induction false} WithoutIdIsWithoutIds(items: seq<Workspace>, id: Id)
    ensures WithoutId(items, id) == WithoutIds(items, [id])
  {
    if items != [] { WithoutIdIsWithoutIds(items[1..], id); }
  }

  /** The workspaces the ids name, in the order of the ids; of several of one id the last. */
  ghost predicate Takes(items: seq<Workspace>, ids: seq<Id>, r: seq<Workspace>) {
    Ids(r) == Named(items, ids) && forall a :: 0 <= a < |r| ==> LastOfItsId(items, r[a])
  }

  ghost predicate LastOfItsId(items: seq<Workspace>, w: Workspace) {
    exists k :: 0 <= k < |items| && items[k] == w && forall j :: k < j < |items| ==> items[j].id != w.id
  }

  /** The ids that some workspace has. */
  function Named(items: seq<Workspace>, ids: seq<Id>): seq<Id> {
    if ids == [] then [] else (if ids[0] in Ids(items) then [ids[0]] else []) + Named(items, ids[1..])
  }

  lemma {:induction false} LastWithLast(items: seq<Workspace>, id: Id)
    ensures LastWith(items, id).Some? <==> id in Ids(items)
    ensures LastWith(items, id).Some? ==>
      LastWith(items, id).value.id == id && LastOfItsId(items, LastWith(items, id).value)
  {
    if items != [] {
      var n := |items| - 1;
      LastWithLast(items[..n], id);
      assert Ids(items) == Ids(items[..n]) + [items[n].id];
      if LastWith(items[..n], id).Some? && items[n].id != id {
        var w := LastWith(items[..n], id).value;
        var k :| 0 <= k < n && items[..n][k] == w && forall j :: k < j < n ==> items[..n][j].id != w.id;
        assert items[k] == w && forall j :: k < j < |items| ==> items[j].id != w.id by {
          forall j | k < j < |items| ensures items[j].id != w.id { if j < n { assert items[..n][j] == items[j]; } }
        }
      }
    }
  }

  lemma {:induction false} PickedTakes(items: seq<Workspace>, ids: seq<Id>)
    ensures Takes(items, ids, Picked(items, ids))
  {
    if ids != [] {
      PickedTakes(items, ids[1..]);
      LastWithLast(items, ids[0]);
      var rest := Picked(items, ids[1..]);
      if LastWith(items, ids[0]).Some? {
        assert Ids(Picked(items, ids)) == [ids[0]] + Ids(rest);
      } else {
        assert Picked(items, ids) == rest && Named(items, ids) == Named(items, ids[1..]);
      }
    }
  }

  /** INCREMENTS OF WORKSPACES. What each frame does to a view. */
  lemma WorkspaceIncrements(v: View, f: Frame)
    ensures var r := Apply(WorkspaceFollow, v, f);
      && r == v.(items := r.items, archived := r.archived)
      && r.archived == (if f.Archived? then f.sessionIds else v.archived)
      && match f
         case Upsert(w) => Puts(v.items, w, r.items)
         case Remove(id) => r.items == Remaining(v.items, {id})
         case Order(ids) => exists front :: Takes(v.items, ids, front)
                                            && r.items == front + Remaining(v.items, set id | id in ids)
         case _ => r.items == v.items
  {
    match f
    case Upsert(w) =>
      var i := IndexOf(v.items, w.id);
      if i.Some? { assert v.items[i.value].id == w.id; }
    case Remove(id) =>
      WithoutIdIsWithoutIds(v.items, id);
      WithoutIdsRemain(v.items, [id]);
      assert (set x | x in [id]) == {id};
    case Order(ids) =>
      WithoutIdsRemain(v.items, ids);
      PickedTakes(v.items, ids);
    case _ =>
  }

  /** INCREMENTS OF CONTROLS. Each frame changes one entry of one session, and a projection only rises in `asOfSeq`. */
  lemma ControlIncrements(v: View, f: Frame)
    ensures var r := Apply(SessionControl, v, f);
      && r == v.(queues := r.queues, jobs := r.jobs, projections := r.projections)
      && r.queues == (if f.Queue? then v.queues[f.queueSession := f.items] else v.queues)
      && r.jobs == (if f.Jobs? then v.jobs[f.jobsSession := f.jobs] else v.jobs)
      && (!f.ProjectionDelta? ==> r.projections == v.projections)
      && (f.ProjectionDelta? ==>
            var sid := f.projectionSession;
            && r.projections.Keys == v.projections.Keys + {sid}
            && (forall other :: other in v.projections && other != sid ==> r.projections[other] == v.projections[other])
            && ValuesOf(r, sid) == (if sid in v.projections then v.projections[sid].values else map[])[f.key := f.text]
            && var before := if sid in v.projections then v.projections[sid].asOfSeq else -1;
               && r.projections[sid].asOfSeq >= before && r.projections[sid].asOfSeq >= f.seqNo
               && r.projections[sid].asOfSeq in {before, f.seqNo})
  {}
}
