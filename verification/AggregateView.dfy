/** The multi-host aggregate of packages/browser-host-hub-rc1/src/index.js: per-host baselines and increments become
    one client stream of one baseline followed by increments. */
module AggregateView {
  import opened Prelude

  /** A composite identity; the rh1 codec makes distinct pairs distinct strings. */
  datatype Id = Id(host: string, raw: string)

  datatype Endpoint = WorkspaceFollow | SessionControl
  datatype Workspace = Workspace(id: Id, body: string)
  datatype Projection = Projection(asOfSeq: int, values: map<string, string>)

  /** The value of either endpoint; the fields of the other endpoint stay empty. */
  datatype View = View(items: seq<Workspace>, archived: seq<Id>,
                       queues: map<Id, seq<string>>, jobs: map<Id, seq<string>>, projections: map<Id, Projection>)

  const EMPTY_VIEW := View([], [], map[], map[], map[])

  datatype Frame =
    | Baseline(value: View)
    | Upsert(workspace: Workspace) | Remove(workspaceId: Id) | Order(workspaceIds: seq<Id>)
      | Archived(sessionIds: seq<Id>)
    | Queue(queueSession: Id, items: seq<string>) | Jobs(jobsSession: Id, jobs: seq<string>)
    | ProjectionDelta(projectionSession: Id, key: string, text: string, seqNo: int)
    | OtherFrame

  datatype Packet = Packet(host: string, frame: Frame)

  // ---- One increment ---------------------------------------------------------------------------

  function Ids(items: seq<Workspace>): seq<Id> {
    seq(|items|, i requires 0 <= i < |items| => items[i].id)
  }

  /** `findIndex` by workspace id. */
  function IndexOf(items: seq<Workspace>, id: Id): (r: Option<nat>)
    ensures r.Some? ==> r.value < |items| && items[r.value].id == id && forall i :: 0 <= i < r.value ==>
      items[i].id != id
    ensures r.None? ==> forall i :: 0 <= i < |items| ==> items[i].id != id
  {
    if items == [] then None
    else if items[0].id == id then Some(0)
    else match IndexOf(items[1..], id)
      case None => None
      case Some(i) => Some(i + 1)
  }

  function Find(items: seq<Workspace>, id: Id): Option<Workspace> {
    var i := IndexOf(items, id);
    if i.None? then None else Some(items[i.value])
  }

  function WithoutId(items: seq<Workspace>, id: Id): seq<Workspace> {
    if items == [] then [] else (if items[0].id == id then [] else [items[0]]) + WithoutId(items[1..], id)
  }

  function WithoutIds(items: seq<Workspace>, ids: seq<Id>): seq<Workspace> {
    if items == [] then [] else (if items[0].id in ids then [] else [items[0]]) + WithoutIds(items[1..], ids)
  }

  /** The entry a `Map` built from the items keeps: the last one with this id. */
  function LastWith(items: seq<Workspace>, id: Id): Option<Workspace> {
    if items == [] then None
    else if items[|items| - 1].id == id then Some(items[|items| - 1])
    else LastWith(items[..|items| - 1], id)
  }

  function Picked(items: seq<Workspace>, ids: seq<Id>): seq<Workspace> {
    if ids == [] then []
    else (match LastWith(items, ids[0]) case None => [] case Some(w) => [w]) + Picked(items, ids[1..])
  }

  function Upserted(items: seq<Workspace>, w: Workspace): seq<Workspace> {
    var i := IndexOf(items, w.id);
    if i.None? then items + [w] else items[i.value := w]
  }

  function ProjectionOf(v: View, sid: Id): Projection {
    if sid in v.projections then v.projections[sid] else Projection(-1, map[])
  }

  function Max(a: int, b: int): int {
    if a < b then b else a
  }

  /** `applyAggregateIncrement`. */
  function Apply(endpoint: Endpoint, v: View, f: Frame): View {
    match endpoint
    case WorkspaceFollow =>
      (match f
       case Upsert(w) => v.(items := Upserted(v.items, w))
       case Remove(id) => v.(items := WithoutId(v.items, id))
       case Order(ids) => v.(items := Picked(v.items, ids) + WithoutIds(v.items, ids))
       case Archived(ids) => v.(archived := ids)
       case _ => v)
    case SessionControl =>
      match f
      case Queue(sid, items) => v.(queues := v.queues[sid := items])
      case Jobs(sid, jobs) => v.(jobs := v.jobs[sid := jobs])
      case ProjectionDelta(sid, key, value, seqNo) =>
        var previous := ProjectionOf(v, sid);
        v.(projections := v.projections[sid := Projection(Max(previous.asOfSeq, seqNo), previous.values[key := value])])
      case _ => v
  }

  // ---- Merging ---------------------------------------------------------------------------------

  function AllItems(views: seq<View>): seq<Workspace> {
    if views == [] then [] else AllItems(views[..|views| - 1]) + views[|views| - 1].items
  }

  function AllArchived(views: seq<View>): seq<Id> {
    if views == [] then [] else AllArchived(views[..|views| - 1]) + views[|views| - 1].archived
  }

  /** The first workspace of each id, in order. */
  function FirstItems(items: seq<Workspace>): seq<Workspace> {
    if items == [] then []
    else
      var before, last := items[..|items| - 1], items[|items| - 1];
      FirstItems(before) + if last.id in Ids(before) then [] else [last]
  }

  function FirstIds(ids: seq<Id>): seq<Id> {
    if ids == [] then []
    else
      var before, last := ids[..|ids| - 1], ids[|ids| - 1];
      FirstIds(before) + if last in before then [] else [last]
  }

  function AllQueues(views: seq<View>): map<Id, seq<string>> {
    if views == [] then map[] else AllQueues(views[..|views| - 1]) + views[|views| - 1].queues
  }

  function AllJobs(views: seq<View>): map<Id, seq<string>> {
    if views == [] then map[] else AllJobs(views[..|views| - 1]) + views[|views| - 1].jobs
  }

  function AllProjections(views: seq<View>): map<Id, Projection> {
    if views == [] then map[] else AllProjections(views[..|views| - 1]) + views[|views| - 1].projections
  }

  /** `mergeWorkspaceBaselines` and `mergeControlBaselines`. */
  function Merge(views: seq<View>): View {
    View(FirstItems(AllItems(views)), FirstIds(AllArchived(views)), AllQueues(views), AllJobs(views),
      AllProjections(views))
  }

  /** The inner loop for one host's items; `before` are the items of the hosts already merged. */
  method AddItems(ghost before: seq<Workspace>, merged: seq<Workspace>, seen: set<Id>, more: seq<Workspace>)
    returns (items: seq<Workspace>, seen': set<Id>)
    requires merged == FirstItems(before) && forall id :: id in seen <==> id in Ids(before)
    ensures items == FirstItems(before + more) && forall id :: id in seen' <==> id in Ids(before + more)
  {
    items, seen' := merged, seen;
    assert before + more[..0] == before;
    for i := 0 to |more|
      invariant items == FirstItems(before + more[..i])
      invariant forall id :: id in seen' <==> id in Ids(before + more[..i])
    {
      ghost var prefix := before + more[..i];
      assert before + more[..i + 1] == prefix + [more[i]];
      assert (prefix + [more[i]])[..|prefix|] == prefix;
      assert Ids(prefix + [more[i]]) == Ids(prefix) + [more[i].id];
      if more[i].id !in seen' {
        seen' := seen' + {more[i].id};
        items := items + [more[i]];
      }
    }
    assert more[..|more|] == more;
  }

  method AddArchived(ghost before: seq<Id>, merged: seq<Id>, seen: set<Id>, more: seq<Id>)
      returns (ids: seq<Id>, seen': set<Id>)
    requires merged == FirstIds(before) && forall id :: id in seen <==> id in before
    ensures ids == FirstIds(before + more) && forall id :: id in seen' <==> id in before + more
  {
    ids, seen' := merged, seen;
    assert before + more[..0] == before;
    for i := 0 to |more|
      invariant ids == FirstIds(before + more[..i])
      invariant forall id :: id in seen' <==> id in before + more[..i]
    {
      ghost var prefix := before + more[..i];
      assert before + more[..i + 1] == prefix + [more[i]];
      assert (prefix + [more[i]])[..|prefix|] == prefix;
      if more[i] !in seen' {
        seen' := seen' + {more[i]};
        ids := ids + [more[i]];
      }
    }
    assert more[..|more|] == more;
  }

  method MergeWorkspaces(views: seq<View>) returns (items: seq<Workspace>, archived: seq<Id>)
    ensures items == FirstItems(AllItems(views)) && archived == FirstIds(AllArchived(views))
  {
    items, archived := [], [];
    var seenItems: set<Id>, seenArchived: set<Id> := {}, {};
    for n := 0 to |views|
      invariant items == FirstItems(AllItems(views[..n])) && archived == FirstIds(AllArchived(views[..n]))
      invariant forall id :: id in seenItems <==> id in Ids(AllItems(views[..n]))
      invariant forall id :: id in seenArchived <==> id in AllArchived(views[..n])
    {
      assert views[..n + 1][..n] == views[..n];
      items, seenItems := AddItems(AllItems(views[..n]), items, seenItems, views[n].items);
      archived, seenArchived := AddArchived(AllArchived(views[..n]), archived, seenArchived, views[n].archived);
    }
    assert views[..|views|] == views;
  }

  method MergeControls(views: seq<View>)
      returns (queues: map<Id, seq<string>>, jobs: map<Id, seq<string>>, projections: map<Id, Projection>)
    ensures queues == AllQueues(views) && jobs == AllJobs(views) && projections == AllProjections(views)
  {
    queues, jobs, projections := map[], map[], map[];
    for n := 0 to |views|
      invariant queues == AllQueues(views[..n]) && jobs == AllJobs(views[..n])
        && projections == AllProjections(views[..n])
    {
      assert views[..n + 1][..n] == views[..n];
      queues, jobs, projections := queues + views[n].queues, jobs + views[n].jobs, projections + views[n].projections;
    }
    assert views[..|views|] == views;
  }

  method MergeBaselines(views: seq<View>) returns (merged: View)
    ensures merged == Merge(views)
  {
    var items, archived := MergeWorkspaces(views);
    var queues, jobs, projections := MergeControls(views);
    merged := View(items, archived, queues, jobs, projections);
  }

  // ---- A reconnect as increments ---------------------------------------------------------------

  function QueueOf(v: View, sid: Id): seq<string> {
    if sid in v.queues then v.queues[sid] else []
  }

  function JobsOf(v: View, sid: Id): seq<string> {
    if sid in v.jobs then v.jobs[sid] else []
  }

  function ValuesOf(v: View, sid: Id): map<string, string> {
    ProjectionOf(v, sid).values
  }

  function Removals(previous: seq<Workspace>, nextIds: seq<Id>): seq<Frame> {
    if previous == [] then []
    else Removals(previous[..|previous| - 1], nextIds)
         + if previous[|previous| - 1].id in nextIds then [] else [Remove(previous[|previous| - 1].id)]
  }

  function Upserts(items: seq<Workspace>): seq<Frame> {
    seq(|items|, i requires 0 <= i < |items| => Upsert(items[i]))
  }

  function WorkspaceReplacement(previous: View, next: View, combined: View): seq<Frame> {
    Removals(previous.items, Ids(next.items)) + Upserts(next.items)
      + [Order(Ids(combined.items)), Archived(combined.archived)]
  }

  /** A projection key of the old baseline is missing from the new one: the protocol has no delta for that. */
  ghost predicate Vanishes(previous: View, next: View) {
    exists sid, key ::
      sid in previous.projections && key in previous.projections[sid].values && key !in ValuesOf(next, sid)
  }

  predicate IsQueueOf(previous: View, next: View, f: Frame) {
    f.Queue? && f.queueSession in previous.queues.Keys + next.queues.Keys && f.items == QueueOf(next, f.queueSession)
  }

  predicate IsJobsOf(previous: View, next: View, f: Frame) {
    f.Jobs? && f.jobsSession in previous.jobs.Keys + next.jobs.Keys && f.jobs == JobsOf(next, f.jobsSession)
  }

  predicate QueueFrames(previous: View, next: View, frames: seq<Frame>) {
    && (forall f :: f in frames ==> IsQueueOf(previous, next, f))
    && (forall sid :: sid in previous.queues.Keys + next.queues.Keys ==> Queue(sid, QueueOf(next, sid)) in frames)
  }

  predicate JobsFrames(previous: View, next: View, frames: seq<Frame>) {
    && (forall f :: f in frames ==> IsJobsOf(previous, next, f))
    && (forall sid :: sid in previous.jobs.Keys + next.jobs.Keys ==> Jobs(sid, JobsOf(next, sid)) in frames)
  }

  predicate IsProjectionOf(next: View, f: Frame) {
    && f.ProjectionDelta? && f.projectionSession in next.projections
    && var p := next.projections[f.projectionSession];
       f.key in p.values && f.text == p.values[f.key] && f.seqNo == p.asOfSeq
  }

  ghost predicate ProjectionFrames(next: View, frames: seq<Frame>) {
    && (forall f :: f in frames ==> IsProjectionOf(next, f))
    && (forall sid, key :: sid in next.projections && key in next.projections[sid].values ==>
          ProjectionDelta(sid, key, next.projections[sid].values[key], next.projections[sid].asOfSeq) in frames)
  }

  /** What `replacementIncrements` may return: the key order of its objects is left open. */
  ghost predicate IsReplacement(endpoint: Endpoint, previous: View, next: View, combined: View,
      updates: Option<seq<Frame>>) {
    match endpoint
    case WorkspaceFollow => updates == Some(WorkspaceReplacement(previous, next, combined))
    case SessionControl =>
      if Vanishes(previous, next) then updates.None?
      else
        updates.Some? && exists q, j, p ::
          updates.value == q + j + p && QueueFrames(previous, next, q) && JobsFrames(previous, next, j)
            && ProjectionFrames(next, p)
  }

  method ReplacementIncrements(endpoint: Endpoint, previous: View, next: View, combined: View)
      returns (updates: Option<seq<Frame>>)
    ensures IsReplacement(endpoint, previous, next, combined, updates)
  {
    if endpoint.WorkspaceFollow? {
      var nextIds := set w | w in next.items :: w.id;
      assert forall i :: 0 <= i < |next.items| ==> Ids(next.items)[i] == next.items[i].id;
      assert forall id :: id in Ids(next.items) ==> exists i :: 0 <= i < |next.items| && Ids(next.items)[i] == id;
      var removals: seq<Frame> := [];
      for i := 0 to |previous.items|
        invariant removals == Removals(previous.items[..i], Ids(next.items))
      {
        assert previous.items[..i + 1][..i] == previous.items[..i];
        assert previous.items[i].id in nextIds <==> previous.items[i].id in Ids(next.items);
        if previous.items[i].id !in nextIds {
          removals := removals + [Remove(previous.items[i].id)];
        }
      }
      assert previous.items[..|previous.items|] == previous.items;
      var frames: seq<Frame> := [];
      for i := 0 to |next.items|
        invariant frames == Upserts(next.items)[..i]
      {
        frames := frames + [Upsert(next.items[i])];
      }
      assert Upserts(next.items)[..|next.items|] == Upserts(next.items);
      return Some(removals + frames + [Order(Ids(combined.items)), Archived(combined.archived)]);
    }
    var clear := ProjectionsKept(previous, next);
    if !clear {
      return None;
    }
    var q := QueueUpdates(previous, next);
    var j := JobsUpdates(previous, next);
    var p := ProjectionUpdates(next);
    return Some(q + j + p);
  }

  method ProjectionsKept(previous: View, next: View) returns (kept: bool)
    ensures kept <==> !Vanishes(previous, next)
  {
    var left := previous.projections.Keys;
    while left != {}
      invariant left <= previous.projections.Keys
      invariant forall sid :: sid in previous.projections.Keys - left ==>
        previous.projections[sid].values.Keys <= ValuesOf(next, sid).Keys
      decreases |left|
    {
      var sid :| sid in left;
      left := left - {sid};
      var missing := previous.projections[sid].values.Keys - ValuesOf(next, sid).Keys;
      if missing != {} {
        var key :| key in missing;
        assert key in previous.projections[sid].values && key !in ValuesOf(next, sid);
        return false;
      }
      assert forall key :: key in previous.projections[sid].values.Keys ==>
        key in missing || key in ValuesOf(next, sid).Keys;
    }
    return true;
  }

  method QueueUpdates(previous: View, next: View) returns (frames: seq<Frame>)
    ensures QueueFrames(previous, next, frames)
  {
    frames := [];
    var left := previous.queues.Keys + next.queues.Keys;
    while left != {}
      invariant left <= previous.queues.Keys + next.queues.Keys
      invariant forall f :: f in frames ==> IsQueueOf(previous, next, f)
      invariant forall sid :: sid in previous.queues.Keys + next.queues.Keys - left ==>
        Queue(sid, QueueOf(next, sid)) in frames
      decreases |left|
    {
      var sid :| sid in left;
      left := left - {sid};
      frames := frames + [Queue(sid, QueueOf(next, sid))];
    }
  }

  method JobsUpdates(previous: View, next: View) returns (frames: seq<Frame>)
    ensures JobsFrames(previous, next, frames)
  {
    frames := [];
    var left := previous.jobs.Keys + next.jobs.Keys;
    while left != {}
      invariant left <= previous.jobs.Keys + next.jobs.Keys
      invariant forall f :: f in frames ==> IsJobsOf(previous, next, f)
      invariant forall sid :: sid in previous.jobs.Keys + next.jobs.Keys - left ==>
        Jobs(sid, JobsOf(next, sid)) in frames
      decreases |left|
    {
      var sid :| sid in left;
      left := left - {sid};
      frames := frames + [Jobs(sid, JobsOf(next, sid))];
    }
  }

  method ProjectionUpdates(next: View) returns (frames: seq<Frame>)
    ensures ProjectionFrames(next, frames)
  {
    frames := [];
    var left := next.projections.Keys;
    while left != {}
      invariant left <= next.projections.Keys
      invariant forall f :: f in frames ==> IsProjectionOf(next, f)
      invariant forall sid, key :: sid in next.projections.Keys - left && key in next.projections[sid].values ==>
        ProjectionDelta(sid, key, next.projections[sid].values[key], next.projections[sid].asOfSeq) in frames
      decreases |left|
    {
      var sid :| sid in left;
      var projection := next.projections[sid];
      var more: seq<Frame> := [];
      var keys := projection.values.Keys;
      while keys != {}
        invariant keys <= projection.values.Keys
        invariant forall f :: f in more ==> IsProjectionOf(next, f)
        invariant forall key :: key in projection.values.Keys - keys ==>
          ProjectionDelta(sid, key, projection.values[key], projection.asOfSeq) in more
        decreases |keys|
      {
        var key :| key in keys;
        keys := keys - {key};
        more := more + [ProjectionDelta(sid, key, projection.values[key], projection.asOfSeq)];
      }
      left := left - {sid};
      frames := frames + more;
    }
  }

  // ---- The stream ------------------------------------------------------------------------------

  /** `#aggregateBaselineStream` with its pumps, and the one client that folds what it yields.
      `hosts` is the insertion order of `baselineByHost`; `generation` says, per connected host, whether this
      connection has delivered its baseline. `synced` is a history flag: see `OrderKept`. */
  datatype Hub = Hub(endpoint: Endpoint, entries: set<string>, generation: map<string, bool>, queue: seq<Packet>,
                     hosts: seq<string>, views: map<string, View>, initial: bool, ended: bool,
                     client: Option<View>, synced: bool)

  function Start(endpoint: Endpoint, entries: set<string>): Hub {
    if entries == {} then Hub(endpoint, entries, map[], [], [], map[], true, true, Some(EMPTY_VIEW), true)
    else Hub(endpoint, entries, map[], [], [], map[], false, false, None, true)
  }

  function Values(hosts: seq<string>, views: map<string, View>): seq<View>
    requires forall h :: h in hosts ==> h in views
  {
    seq(|hosts|, i requires 0 <= i < |hosts| => views[hosts[i]])
  }

  /** A client: a baseline frame seeds it, any other frame is applied with the same increment function. */
  function FoldFrame(endpoint: Endpoint, client: Option<View>, frame: Frame): Option<View> {
    if frame.Baseline? then Some(frame.value)
    else if client.None? then None
    else Some(Apply(endpoint, client.value, frame))
  }

  function Fold(endpoint: Endpoint, client: Option<View>, frames: seq<Frame>): Option<View>
    decreases |frames|
  {
    if frames == [] then client else Fold(endpoint, FoldFrame(endpoint, client, frames[0]), frames[1..])
  }

  datatype Event =
    | Connects(host: string)
    | Sends(sender: string, frame: Frame)
    | Disconnects(host: string)
    | Deadline
    | Consume

  /** `#pumpHost`: a connection must begin with a baseline, else it is torn down; accepted frames are queued. */
  function Pump(s: Hub, host: string, frame: Frame): Hub {
    if host !in s.generation then s
    else if !s.generation[host] && !frame.Baseline? then s.(generation := s.generation - {host})
    else s.(generation := s.generation[host := true], queue := s.queue + [Packet(host, frame)])
  }

  /** The increment the client is sent for a host's increment, given the new merge. */
  function Forwarded(endpoint: Endpoint, frame: Frame, merged: View): Frame {
    if endpoint.WorkspaceFollow? && frame.Order? then Order(Ids(merged.items))
    else if endpoint.WorkspaceFollow? && frame.Archived? then Archived(merged.archived)
    else frame
  }

  /** Whether an increment keeps the client's workspace order equal to the merge's, if it was: a new workspace lands
      at the client's end, but inside its host's block in the merge. */
  ghost predicate OrderKept(s: Hub, p: Packet) {
    p.frame.Upsert? && s.endpoint.WorkspaceFollow? && p.host in s.views ==>
      || IndexOf(s.views[p.host].items, p.frame.workspace.id).Some?
      || forall k, j :: 0 <= k < j < |s.hosts| && s.hosts[k] == p.host && s.hosts[j] in s.views ==>
         s.views[s.hosts[j]].items == []
  }

  /** The loop state once a packet's host holds `view`. */
  function Recorded(s: Hub, host: string, view: View): Hub {
    s.(hosts := if host in s.views then s.hosts else s.hosts + [host], views := s.views[host := view])
  }

  function HubMerge(s: Hub): View
    requires forall h :: h in s.hosts ==> h in s.views
  {
    Merge(Values(s.hosts, s.views))
  }

  ghost predicate HostsListed(s: Hub) {
    forall h :: h in s.hosts <==> h in s.views
  }

  /** A dequeued increment: it is applied to its host's view and, once the client is seeded, forwarded. */
  ghost predicate HandlesIncrement(s: Hub, p: Packet, s': Hub, out: seq<Frame>)
    requires HostsListed(s) && p.host in s.views
  {
    var next := Recorded(s, p.host, Apply(s.endpoint, s.views[p.host], p.frame));
    && out == (if s.initial then [Forwarded(s.endpoint, p.frame, HubMerge(next))] else [])
    && s' == next.(client := Fold(s.endpoint, s.client, out), synced := p.frame.Order? || (s.synced && OrderKept(s, p)))
  }

  /** A baseline while the client is not seeded: the last missing host seeds it. */
  ghost predicate HandlesFirst(s: Hub, p: Packet, s': Hub, out: seq<Frame>)
    requires HostsListed(s) && p.frame.Baseline?
  {
    var next := Recorded(s, p.host, p.frame.value);
    if |next.views| == |s.entries| then
      out == [Baseline(HubMerge(next))] && s' == next.(initial := true, client := Some(HubMerge(next)), synced := true)
    else out == [] && s' == next
  }

  /** A baseline of a late or reconnected host: the client gets the difference, or the stream ends. */
  ghost predicate HandlesReplacement(s: Hub, p: Packet, s': Hub, out: seq<Frame>)
    requires HostsListed(s) && p.frame.Baseline?
  {
    var next := Recorded(s, p.host, p.frame.value);
    var previous := if p.host in s.views then s.views[p.host] else EMPTY_VIEW;
    exists updates :: IsReplacement(s.endpoint, previous, p.frame.value, HubMerge(next), updates)
      && (if updates.None? then out == [] && s' == next.(ended := true)
          else out == updates.value && s' == next.(client := Fold(s.endpoint, s.client, out), synced := true))
  }

  /** One dequeued packet: the new loop state and the frames yielded for it. */
  ghost predicate Handles(s: Hub, p: Packet, s': Hub, out: seq<Frame>)
    requires HostsListed(s)
    requires p.frame.Baseline? || p.host in s.views
  {
    if !p.frame.Baseline? then HandlesIncrement(s, p, s', out)
    else if !s.initial then HandlesFirst(s, p, s', out)
    else HandlesReplacement(s, p, s', out)
  }

  class AggregateStream {
    const endpoint: Endpoint
    const entries: set<string>
    var hosts: seq<string>
    var views: map<string, View>
    var initial: bool
    var ended: bool

    ghost predicate Valid()
      reads this
    {
      forall h :: h in hosts <==> h in views
    }

    /** The loop's part of the hub; the pumps and the client are the caller's. */
    ghost predicate Implements(s: Hub)
      reads this
    {
      s.endpoint == endpoint && s.entries == entries && s.hosts == hosts && s.views == views && s.initial == initial
        && s.ended == ended
    }

    constructor (endpoint: Endpoint, entries: set<string>)
      ensures Valid() && Implements(Start(endpoint, entries))
    {
      this.endpoint, this.entries := endpoint, entries;
      hosts, views, initial, ended := [], map[], entries == {}, entries == {};
    }

    method MergeCurrent() returns (merged: View)
      requires Valid()
      ensures merged == Merge(Values(hosts, views))
    {
      merged := MergeBaselines(Values(hosts, views));
    }

    /** The deadline passes with some hosts missing: go ahead with the ones that answered. */
    method OnDeadline() returns (out: seq<Frame>)
      requires Valid() && !initial
      modifies this`initial
      ensures Valid() && initial && out == [Baseline(Merge(Values(hosts, views)))]
    {
      initial := true;
      var merged := MergeCurrent();
      out := [Baseline(merged)];
    }

    method DeliverIncrement(p: Packet, ghost s: Hub) returns (out: seq<Frame>, ghost s': Hub)
      requires Valid() && Implements(s) && p.host in views
      modifies this`views
      ensures Valid() && Implements(s') && HandlesIncrement(s, p, s', out)
    {
      views := views[p.host := Apply(endpoint, views[p.host], p.frame)];
      var merged := MergeCurrent();
      out := if initial then [Forwarded(endpoint, p.frame, merged)] else [];
      s' := s.(views := views, client := Fold(s.endpoint, s.client, out),
        synced := p.frame.Order? || (s.synced && OrderKept(s, p)));
    }

    method DeliverFirst(p: Packet, ghost s: Hub) returns (out: seq<Frame>, ghost s': Hub)
      requires Valid() && Implements(s) && p.frame.Baseline? && !initial
      modifies this`hosts, this`views, this`initial
      ensures Valid() && Implements(s') && HandlesFirst(s, p, s', out)
    {
      if p.host !in views {
        hosts := hosts + [p.host];
      }
      views := views[p.host := p.frame.value];
      ghost var next := Recorded(s, p.host, p.frame.value);
      out, s' := [], next;
      if |views| == |entries| {
        initial := true;
        var merged := MergeCurrent();
        out := [Baseline(merged)];
        s' := next.(initial := true, client := Some(merged), synced := true);
      }
    }

    method DeliverReplacement(p: Packet, ghost s: Hub) returns (out: seq<Frame>, ghost s': Hub)
      requires Valid() && Implements(s) && p.frame.Baseline? && initial
      modifies this`hosts, this`views, this`ended
      ensures Valid() && Implements(s') && HandlesReplacement(s, p, s', out)
    {
      var previous := EMPTY_VIEW;
      if p.host in views {
        previous := views[p.host];
      } else {
        hosts := hosts + [p.host];
      }
      views := views[p.host := p.frame.value];
      ghost var next := Recorded(s, p.host, p.frame.value);
      var merged := MergeCurrent();
      var updates := ReplacementIncrements(endpoint, previous, p.frame.value, merged);
      if updates.None? {
        ended := true;
        out, s' := [], next.(ended := true);
      } else {
        out := updates.value;
        s' := next.(client := Fold(s.endpoint, s.client, out), synced := true);
      }
    }

    /** The body of the loop for one packet. */
    method Deliver(p: Packet, ghost s: Hub) returns (out: seq<Frame>, ghost s': Hub)
      requires Valid() && Implements(s)
      requires p.frame.Baseline? || p.host in views
      modifies this`hosts, this`views, this`initial, this`ended
      ensures Valid() && Implements(s') && Handles(s, p, s', out)
    {
      if !p.frame.Baseline? {
        out, s' := DeliverIncrement(p, s);
      } else if !initial {
        out, s' := DeliverFirst(p, s);
      } else {
        out, s' := DeliverReplacement(p, s);
      }
    }
  }
}
