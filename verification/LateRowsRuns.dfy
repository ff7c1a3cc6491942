/** Freshness: which late rows reach which clients, over every run of the hub. */
module LateRowsRuns {
  import opened Prelude
  import opened LateRows

  /** How often a session of a host was bumped. */
  function Count(bumps: seq<(string, string)>, host: string, session: string): nat {
    if bumps == [] then 0
    else Count(bumps[..|bumps| - 1], host, session) + if bumps[|bumps| - 1] == (host, session) then 1 else 0
  }

  /** Nothing newer than the refresh was recorded for the session. */
  predicate Untouched(bumps: seq<(string, string)>, since: nat, host: string, session: string) {
    forall k :: since <= k < |bumps| ==> bumps[k] != (host, session)
  }

  lemma {:induction false} CountPrefix(bumps: seq<(string, string)>, since: nat, host: string, session: string)
    requires since <= |bumps|
    ensures Count(bumps[..since], host, session) <= Count(bumps, host, session)
    ensures Count(bumps[..since], host, session) == Count(bumps, host, session)
      <==> Untouched(bumps, since, host, session)
  {
    var n := |bumps| - 1;
    if since == |bumps| {
      assert bumps[..since] == bumps;
    } else {
      assert bumps[..n][..since] == bumps[..since];
      CountPrefix(bumps[..n], since, host, session);
      assert Untouched(bumps, since, host, session)
        <==> Untouched(bumps[..n], since, host, session) && bumps[n] != (host, session);
    }
  }

  // ---- The invariant ---------------------------------------------------------------------------

  ghost predicate VersionsExact(h: Hub) {
    forall host, session :: Version(VersionsOf(h, host), session) == Count(h.bumps, host, session)
  }

  /** A refresh and its targets carry the versions of the moment it began. */
  ghost predicate StartExact(bumps: seq<(string, string)>, r: Refresh) {
    && r.since <= |bumps|
    && (forall session :: Version(r.startVersions, session) == Count(bumps[..r.since], r.host, session))
    && forall t :: t in r.targets ==> t.versions == r.startVersions
  }

  /** No connection is a target twice. */
  predicate TargetsDistinct(r: Refresh) {
    forall i, j :: 0 <= i < j < |r.targets| ==>
      r.targets[i].client != r.targets[j].client || r.targets[i].generation != r.targets[j].generation
  }

  predicate IsTarget(r: Refresh, c: nat, generation: nat) {
    exists t :: t in r.targets && t.client == c && t.generation == generation
  }

  /** Until it completes, every connection of an open client to the host is a target. */
  ghost predicate TargetsAll(clients: seq<Client>, r: Refresh) {
    !r.completed ==> forall c :: 0 <= c < |clients| && clients[c].open && Connected(clients[c], r.host) ==>
      IsTarget(r, c, clients[c].hosts[r.host].generation.value)
  }

  ghost predicate RefreshKept(h: Hub, r: Refresh) {
    StartExact(h.bumps, r) && TargetsDistinct(r) && TargetsAll(h.clients, r)
  }

  ghost predicate Invariant(h: Hub) {
    VersionsExact(h) && forall i :: 0 <= i < |h.refreshes| ==> RefreshKept(h, h.refreshes[i])
  }

  // ---- Publication -----------------------------------------------------------------------------

  /** The listed sessions that are fresh, as packets of one generation. */
  function FreshRows(h: Hub, r: Refresh, generation: nat, items: seq<string>): seq<Packet> {
    if items == [] then []
    else
      var session := items[|items| - 1];
      FreshRows(h, r, generation, items[..|items| - 1])
      + if Untouched(h.bumps, r.since, r.host, session) && !Archived(h, r.host, session) then
        [Row(r.host, generation, session)] else []
  }

  /** The hub as it was but for the clients' queues. */
  ghost predicate SameButQueues(h: Hub, g: Hub) {
    && g == h.(clients := g.clients) && |g.clients| == |h.clients|
    && forall c :: 0 <= c < |h.clients| ==> g.clients[c] == h.clients[c].(queue := g.clients[c].queue)
  }

  /** The target is the client's current connection. */
  predicate Current(h: Hub, t: Target, host: string) {
    && t.client < |h.clients| && h.clients[t.client].open
    && Connected(h.clients[t.client], host) && h.clients[t.client].hosts[host].generation.value == t.generation
  }

  lemma CanPublishMeansFresh(h: Hub, r: Refresh, t: Target, session: string)
    requires VersionsExact(h) && StartExact(h.bumps, r) && t in r.targets
    ensures CanPublish(h, t, r.host, session) <==>
            Current(h, t, r.host) && Untouched(h.bumps, r.since, r.host, session) && !Archived(h, r.host, session)
  {
    CountPrefix(h.bumps, r.since, r.host, session);
    assert Version(VersionsOf(h, r.host), session) == Count(h.bumps, r.host, session);
  }

  lemma CanPublishSame(h: Hub, g: Hub, t: Target, host: string, session: string)
    requires SameButQueues(h, g)
    ensures CanPublish(g, t, host, session) <==> CanPublish(h, t, host, session)
  {}

  /** What one target gives a client. */
  function GivenBy(h: Hub, r: Refresh, t: Target, items: seq<string>, c: nat): seq<Packet> {
    if t.client == c && Current(h, t, r.host) then FreshRows(h, r, t.generation, items) else []
  }

  lemma {:induction false} RowsPublished(h: Hub, g: Hub, r: Refresh, t: Target, items: seq<string>)
    requires VersionsExact(h) && StartExact(h.bumps, r) && t in r.targets && SameButQueues(h, g)
    ensures var p := PublishRows(g, t, r.host, items);
      && SameButQueues(h, p)
      && forall c :: 0 <= c < |h.clients| ==> p.clients[c].queue == g.clients[c].queue + GivenBy(h, r, t, items, c)
  {
    if items != [] {
      var session := items[|items| - 1];
      RowsPublished(h, g, r, t, items[..|items| - 1]);
      CanPublishMeansFresh(h, r, t, session);
      CanPublishSame(h, PublishRows(g, t, r.host, items[..|items| - 1]), t, r.host, session);
    }
  }

  /** What one target list gives a client. */
  function Given(h: Hub, r: Refresh, targets: seq<Target>, items: seq<string>, c: nat): seq<Packet> {
    if targets == [] then []
    else Given(h, r, targets[..|targets| - 1], items, c) + GivenBy(h, r, targets[|targets| - 1], items, c)
  }

  lemma {:induction false} AllPublished(h: Hub, r: Refresh, targets: seq<Target>, items: seq<string>)
    requires VersionsExact(h) && StartExact(h.bumps, r) && forall t :: t in targets ==> t in r.targets
    ensures var p := PublishAll(h, targets, r.host, items);
      && SameButQueues(h, p)
      && forall c :: 0 <= c < |h.clients| ==> p.clients[c].queue == h.clients[c].queue + Given(h, r, targets, items, c)
  {
    if targets != [] {
      var n := |targets| - 1;
      var before := PublishAll(h, targets[..n], r.host, items);
      AllPublished(h, r, targets[..n], items);
      assert targets[n] in targets;
      RowsPublished(h, before, r, targets[n], items);
    }
  }

  lemma GivenLast(h: Hub, r: Refresh, targets: seq<Target>, items: seq<string>, c: nat)
    requires targets != []
    ensures var n := |targets| - 1;
      Given(h, r, targets, items, c) == Given(h, r, targets[..n], items, c) + GivenBy(h, r, targets[n], items, c)
  {}

  /** The target is the client's current connection to the refresh's host. */
  predicate IsCurrent(h: Hub, r: Refresh, t: Target, c: nat)
    requires c < |h.clients|
  {
    var client := h.clients[c];
    && client.open && Connected(client, r.host)
    && t.client == c && t.generation == client.hosts[r.host].generation.value
  }

  lemma GivenByCurrent(h: Hub, r: Refresh, t: Target, items: seq<string>, c: nat)
    requires c < |h.clients|
    ensures GivenBy(h, r, t, items, c) == if IsCurrent(h, r, t, c) then FreshRows(h, r, t.generation, items) else []
  {}

  /** Of the targets of one client only its current connection counts, and it counts once. */
  lemma {:induction false} GivenOnce(h: Hub, r: Refresh, targets: seq<Target>, items: seq<string>, c: nat)
    requires c < |h.clients|
    requires forall i, j :: 0 <= i < j < |targets| ==>
      targets[i].client != targets[j].client || targets[i].generation != targets[j].generation
    ensures var client := h.clients[c];
      if client.open && Connected(client, r.host)
        && exists t :: t in targets && t.client == c && t.generation == client.hosts[r.host].generation.value
      then Given(h, r, targets, items, c) == FreshRows(h, r, client.hosts[r.host].generation.value, items)
      else Given(h, r, targets, items, c) == []
  {
    if targets != [] {
      var n := |targets| - 1;
      GivenLast(h, r, targets, items, c);
      GivenByCurrent(h, r, targets[n], items, c);
      hide Given, GivenBy, FreshRows;
      GivenOnce(h, r, targets[..n], items, c);
      var client := h.clients[c];
      if IsCurrent(h, r, targets[n], c) {
        var generation := client.hosts[r.host].generation.value;
        forall t | t in targets[..n] ensures !(t.client == c && t.generation == generation) {
          var i :| 0 <= i < n && targets[..n][i] == t;
          assert targets[i] == t;
        }
        assert targets[n] in targets;
      } else {
        forall t | t in targets && IsCurrent(h, r, t, c) ensures t in targets[..n] {
          var i :| 0 <= i <= n && targets[i] == t;
          assert i < n && targets[..n][i] == t;
        }
        assert forall t :: t in targets[..n] ==> t in targets;
      }
    }
  }

  // ---- Every step ------------------------------------------------------------------------------

  lemma CountBump(bumps: seq<(string, string)>, b: (string, string), host: string, session: string)
    ensures Count(bumps + [b], host, session) == Count(bumps, host, session) + if b == (host, session) then 1 else 0
  {
    assert (bumps + [b])[..|bumps|] == bumps;
  }

  lemma BumpKeeps(h: Hub, host: string, session: string)
    requires Invariant(h)
    ensures Invariant(Bump(h, host, session))
  {
    var g := Bump(h, host, session);
    forall k, s ensures Version(VersionsOf(g, k), s) == Count(g.bumps, k, s) {
      CountBump(h.bumps, (host, session), k, s);
      assert Version(VersionsOf(h, k), s) == Count(h.bumps, k, s);
    }
    forall i | 0 <= i < |g.refreshes| ensures RefreshKept(g, g.refreshes[i]) {
      assert RefreshKept(h, h.refreshes[i]);
      assert g.bumps[..h.refreshes[i].since] == h.bumps[..h.refreshes[i].since];
    }
  }

  /** A change to the clients that adds no connection keeps the invariant. */
  lemma ClientsKept(h: Hub, g: Hub)
    requires Invariant(h) && g.versions == h.versions && g.bumps == h.bumps && g.refreshes == h.refreshes
    requires forall c, host :: 0 <= c < |g.clients| && g.clients[c].open && Connected(g.clients[c], host) ==>
      c < |h.clients| && h.clients[c].open && Connected(h.clients[c], host)
        && h.clients[c].hosts[host] == g.clients[c].hosts[host]
    ensures Invariant(g)
  {
    assert forall host :: VersionsOf(g, host) == VersionsOf(h, host);
    forall i | 0 <= i < |g.refreshes| ensures RefreshKept(g, g.refreshes[i]) {
      assert RefreshKept(h, h.refreshes[i]);
    }
  }

  /** A change to one refresh that keeps what it captured. */
  lemma RefreshChanged(h: Hub, i: nat, r: Refresh)
    requires Invariant(h) && i < |h.refreshes| && RefreshKept(h, r)
    ensures Invariant(h.(refreshes := h.refreshes[i := r]))
  {
    var g := h.(refreshes := h.refreshes[i := r]);
    assert forall host :: VersionsOf(g, host) == VersionsOf(h, host);
    forall j | 0 <= j < |g.refreshes| ensures RefreshKept(g, g.refreshes[j]) {
      assert RefreshKept(h, g.refreshes[j]);
    }
  }

  lemma {:induction false} CaptureOrdered(clients: seq<Client>, host: string, versions: map<string, nat>, n: nat)
    requires n <= |clients|
    ensures forall i :: 0 <= i < |Capture(clients, host, versions, n)| ==>
      Capture(clients, host, versions, n)[i].versions == versions && Capture(clients, host, versions, n)[i].client < n
    ensures forall i, j :: 0 <= i < j < |Capture(clients, host, versions, n)| ==>
      Capture(clients, host, versions, n)[i].client < Capture(clients, host, versions, n)[j].client
  {
    if n > 0 {
      CaptureOrdered(clients, host, versions, n - 1);
    }
  }

  lemma {:induction false} CaptureHolds(clients: seq<Client>, host: string, versions: map<string, nat>, n: nat, c: nat)
    requires c < n <= |clients| && clients[c].open && Connected(clients[c], host)
    ensures Target(c, clients[c].hosts[host].generation.value, versions) in Capture(clients, host, versions, n)
  {
    if c < n - 1 {
      CaptureHolds(clients, host, versions, n - 1, c);
    }
  }

  lemma StartKeeps(h: Hub, key: string, host: string)
    requires Invariant(h)
    ensures Invariant(StartRefresh(h, key, host))
  {
    var g := StartRefresh(h, key, host);
    assert forall k :: VersionsOf(g, k) == VersionsOf(h, k);
    if g != h {
      var n := |h.refreshes|;
      var r := g.refreshes[n];
      CaptureOrdered(h.clients, host, VersionsOf(h, host), |h.clients|);
      assert h.bumps[..|h.bumps|] == h.bumps;
      forall c | 0 <= c < |h.clients| && h.clients[c].open && Connected(h.clients[c], host)
        ensures IsTarget(r, c, h.clients[c].hosts[host].generation.value) {
        CaptureHolds(h.clients, host, VersionsOf(h, host), |h.clients|, c);
      }
      forall i | 0 <= i < |g.refreshes| ensures RefreshKept(g, g.refreshes[i]) {
        assert i < n ==> RefreshKept(h, h.refreshes[i]);
      }
    }
  }

  lemma RegisteredKeeps(h: Hub, g: Hub, r: Refresh, c: nat, host: string, generation: nat)
    requires RefreshKept(h, r) && g.bumps == h.bumps && |g.clients| == |h.clients|
    requires c < |g.clients| && Connected(g.clients[c], host) && g.clients[c].hosts[host].generation.value == generation
    requires forall d, k ::
      0 <= d < |g.clients| && g.clients[d].open && Connected(g.clients[d], k) && (d != c || k != host) ==>
      h.clients[d].open && Connected(h.clients[d], k) && h.clients[d].hosts[k] == g.clients[d].hosts[k]
    ensures RefreshKept(g, Registered(r, host, c, generation))
  {
    var q := Registered(r, host, c, generation);
    assert q.targets[..|r.targets|] == r.targets;
    if q != r {
      assert q.targets[|r.targets|] in q.targets;
      forall t | t in q.targets ensures t.versions == r.startVersions {}
    }
    forall d | !q.completed && 0 <= d < |g.clients| && g.clients[d].open && Connected(g.clients[d], q.host)
      ensures IsTarget(q, d, g.clients[d].hosts[q.host].generation.value) {
      if d != c || q.host != host {
        assert IsTarget(r, d, h.clients[d].hosts[q.host].generation.value);
      }
    }
  }

  lemma ReadyKeeps(h: Hub, c: nat, host: string)
    requires Invariant(h)
    ensures Invariant(Next(h, BecomeReady(c, host)))
  {
    var g := Next(h, BecomeReady(c, host));
    assert forall k :: VersionsOf(g, k) == VersionsOf(h, k);
    if g != h {
      forall i | 0 <= i < |g.refreshes| ensures RefreshKept(g, g.refreshes[i]) {
        assert RefreshKept(h, h.refreshes[i]);
        RegisteredKeeps(h, g, h.refreshes[i], c, host, h.clients[c].hosts[host].generation.value);
      }
    }
  }

  lemma CompleteKeeps(h: Hub, i: nat, items: seq<string>)
    requires Invariant(h) && i < |h.refreshes|
    ensures Invariant(Complete(h, i, items))
    ensures SameButQueues(h.(refreshes := h.refreshes[i := h.refreshes[i].(completed := true)]), Complete(h, i, items))
  {
    var r := h.refreshes[i];
    assert RefreshKept(h, r);
    RefreshChanged(h, i, r.(completed := true));
    var h1 := h.(refreshes := h.refreshes[i := r.(completed := true)]);
    if r.deferred {
      AllPublished(h1, r, r.targets, items);
    }
    ClientsKept(h1, Complete(h, i, items));
  }

  /** The steps that only touch the clients or the archive. */
  lemma ConnectionKeeps(h: Hub, op: Op)
    requires Invariant(h) && (op.OpenClient? || op.CloseClient? || op.Attach? || op.Detach? || op.Archive?
      || op.Deliver?)
    ensures Invariant(Next(h, op))
  {
    ClientsKept(h, Next(h, op));
  }

  lemma EventKeeps(h: Hub, c: nat, host: string, session: Option<string>)
    requires Invariant(h)
    ensures Invariant(Next(h, SessionEvent(c, host, session)))
  {
    if Live(h, c, host) && h.clients[c].hosts[host].ready {
      var bumped := if session.Some? then Bump(h, host, session.value) else h;
      if session.Some? { BumpKeeps(h, host, session.value); }
      ClientsKept(bumped, Next(h, SessionEvent(c, host, session)));
    }
  }

  lemma MarkKeeps(h: Hub, i: nat)
    requires Invariant(h)
    ensures Invariant(Next(h, Defer(i))) && Invariant(Next(h, RetireRefresh(i)))
  {
    if i < |h.refreshes| {
      assert RefreshKept(h, h.refreshes[i]);
      RefreshChanged(h, i, h.refreshes[i].(deferred := true));
      RefreshChanged(h, i, h.refreshes[i].(retired := true));
    }
  }

  lemma ProjectionKeeps(h: Hub, host: string, session: string)
    requires Invariant(h)
    ensures Invariant(Next(h, Projection(host, session)))
  {
    BumpKeeps(h, host, session);
  }

  lemma NextKeeps(h: Hub, op: Op)
    requires Invariant(h)
    ensures Invariant(Next(h, op))
  {
    hide Next, Invariant;
    match op
    case Start(key, host) => StartNextKeeps(h, key, host);
    case BecomeReady(c, host) => ReadyKeeps(h, c, host);
    case Projection(host, session) => ProjectionKeeps(h, host, session);
    case SessionEvent(c, host, session) => EventKeeps(h, c, host, session);
    case Finish(i, items) => FinishKeeps(h, i, items);
    case Defer(i) => MarkKeeps(h, i);
    case RetireRefresh(i) => MarkKeeps(h, i);
    case _ => ConnectionKeeps(h, op);
  }

  lemma StartNextKeeps(h: Hub, key: string, host: string)
    requires Invariant(h)
    ensures Invariant(Next(h, Start(key, host)))
  {
    StartKeeps(h, key, host);
  }

  lemma FinishKeeps(h: Hub, i: nat, items: Option<seq<string>>)
    requires Invariant(h)
    ensures Invariant(Next(h, Finish(i, items)))
  {
    if i < |h.refreshes| && !h.refreshes[i].completed {
      if items.Some? {
        CompleteKeeps(h, i, items.value);
      } else {
        assert RefreshKept(h, h.refreshes[i]);
        RefreshChanged(h, i, h.refreshes[i].(completed := true));
      }
    }
  }

  lemma {:induction false} RunKeeps(ops: seq<Op>)
    ensures Invariant(Run(ops))
  {
    if ops != [] {
      hide Invariant, Next;
      RunKeeps(ops[..|ops| - 1]);
      NextKeeps(Run(ops[..|ops| - 1]), ops[|ops| - 1]);
    } else {
      IdleKept();
    }
  }

  lemma IdleKept()
    ensures Invariant(IDLE)
  {}

  // ---- The theorem -----------------------------------------------------------------------------

  /** What the completion of a late list call adds to a client's queue. */
  lemma GivenRows(h: Hub, i: nat, items: seq<string>, c: nat)
    requires Invariant(h) && i < |h.refreshes| && h.refreshes[i].deferred && !h.refreshes[i].completed
      && c < |h.clients|
    ensures var r := h.refreshes[i]; var client := h.clients[c];
      |Complete(h, i, items).clients| == |h.clients|
      && Complete(h, i, items).clients[c].queue == client.queue
         + if client.open && Connected(client, r.host) then
           FreshRows(h, r, client.hosts[r.host].generation.value, items) else []
  {
    var r := h.refreshes[i];
    assert RefreshKept(h, r);
    var h1 := h.(refreshes := h.refreshes[i := r.(completed := true)]);
    AllPublished(h1, r, r.targets, items);
    GivenOnce(h1, r, r.targets, items, c);
    SameRows(h, h1, r, items);
  }

  /** When a list call completes late, every open client with a ready connection to the host is given exactly the listed
      sessions that nothing has been recorded for since the call began and that are not archived, each once per listing
      and under that connection's generation; no other client is given anything. */
  lemma LateRowsAreFresh(ops: seq<Op>, i: nat, items: seq<string>, c: nat)
    requires i < |Run(ops).refreshes| && Run(ops).refreshes[i].deferred && !Run(ops).refreshes[i].completed
    requires c < |Run(ops).clients|
    ensures var h := Run(ops); var r := h.refreshes[i]; var client := h.clients[c];
      |Complete(h, i, items).clients| == |h.clients|
      && Complete(h, i, items).clients[c].queue == client.queue
         + if client.open && Connected(client, r.host) then
           FreshRows(h, r, client.hosts[r.host].generation.value, items) else []
  {
    RunKeeps(ops);
    GivenRows(Run(ops), i, items, c);
  }

  lemma {:induction false} SameRows(h: Hub, g: Hub, r: Refresh, items: seq<string>)
    requires g.bumps == h.bumps && g.archived == h.archived
    ensures forall generation :: FreshRows(g, r, generation, items) == FreshRows(h, r, generation, items)
  {
    if items != [] { SameRows(h, g, r, items[..|items| - 1]); }
  }

  // ---- Every row of every run ------------------------------------------------------------------

  /** The packet waits for the client or has been handed to it. */
  predicate Has(h: Hub, c: nat, p: Packet) {
    c < |h.clients| && (p in h.clients[c].queue || p in h.clients[c].delivered)
  }

  /** The step completes a late list call that shows the row: listed, overtaken by nothing recorded since the call
      began, not archived, and over the client's ready connection. */
  predicate Published(h: Hub, op: Op, c: nat, p: Packet) {
    && p.Row? && op.Finish? && op.items.Some? && p.session in op.items.value && op.refresh < |h.refreshes|
    && var r := h.refreshes[op.refresh];
      && r.deferred && !r.completed && r.host == p.host
      && c < |h.clients| && h.clients[c].open && CarriedBy(h.clients[c], p)
      && r.since <= |h.bumps| && Untouched(h.bumps, r.since, p.host, p.session) && !Archived(h, p.host, p.session)
  }

  /** The client's connection to the row's host is ready and of the row's generation. */
  predicate CarriedBy(c: Client, p: Packet)
    requires p.Row?
  {
    Connected(c, p.host) && c.hosts[p.host].generation.value == p.generation
  }

  lemma {:induction false} FreshRowsAreFresh(h: Hub, r: Refresh, generation: nat, items: seq<string>, p: Packet)
    requires p in FreshRows(h, r, generation, items)
    ensures p.Row? && p.host == r.host && p.generation == generation && p.session in items
    ensures Untouched(h.bumps, r.since, r.host, p.session) && !Archived(h, r.host, p.session)
  {
    if p in FreshRows(h, r, generation, items[..|items| - 1]) {
      FreshRowsAreFresh(h, r, generation, items[..|items| - 1], p);
    }
  }

  /** A row that a client has after a step it had before, or the step published it. */
  lemma RowsComeFrom(h: Hub, op: Op, c: nat, p: Packet)
    requires Invariant(h) && p.Row? && Has(Next(h, op), c, p)
    ensures Has(h, c, p) || Published(h, op, c, p)
  {
    if op.Finish? && op.refresh < |h.refreshes| && !h.refreshes[op.refresh].completed && op.items.Some? {
      FinishedRows(h, op.refresh, op.items.value, c, p);
    }
  }

  lemma FinishedRows(h: Hub, i: nat, items: seq<string>, c: nat, p: Packet)
    requires Invariant(h) && i < |h.refreshes| && !h.refreshes[i].completed && p.Row?
      && Has(Complete(h, i, items), c, p)
    ensures Has(h, c, p) || Published(h, Finish(i, Some(items)), c, p)
  {
    var r := h.refreshes[i];
    CompleteKeeps(h, i, items);
    assert RefreshKept(h, r);
    if r.deferred && !Has(h, c, p) {
      GivenRows(h, i, items, c);
      assert p in FreshRows(h, r, h.clients[c].hosts[r.host].generation.value, items);
      FreshRowsAreFresh(h, r, h.clients[c].hosts[r.host].generation.value, items, p);
    }
  }

  /** Along every run, a client has only rows that were fresh when they were published to it. */
  lemma {:induction false} EveryRowWasFresh(ops: seq<Op>, c: nat, p: Packet)
    requires p.Row? && Has(Run(ops), c, p)
    ensures exists n: nat :: n < |ops| && Published(Run(ops[..n]), ops[n], c, p)
  {
    if ops != [] {
      var last := |ops| - 1;
      RunKeeps(ops[..last]);
      hide Next, Invariant, Published, Has;
      RowsComeFrom(Run(ops[..last]), ops[last], c, p);
      if Has(Run(ops[..last]), c, p) {
        EveryRowWasFresh(ops[..last], c, p);
        var n: nat :| n < last && Published(Run(ops[..last][..n]), ops[..last][n], c, p);
        assert ops[..last][..n] == ops[..n];
      }
    }
  }

  /** The step hands the client the `k`-th packet it is given. */
  predicate HandsOver(h: Hub, op: Op, c: nat, k: nat, p: Packet) {
    && op == Deliver(c) && c < |h.clients| && |h.clients[c].delivered| == k
    && h.clients[c].queue != [] && h.clients[c].queue[0] == p
    && (p.Row? ==> CarriedBy(h.clients[c], p))
  }

  lemma StepDelivers(h: Hub, op: Op, c: nat, k: nat)
    requires Invariant(h) && c < |Next(h, op).clients| && k < |Next(h, op).clients[c].delivered|
    ensures var p := Next(h, op).clients[c].delivered[k];
      || (c < |h.clients| && k < |h.clients[c].delivered| && h.clients[c].delivered[k] == p)
      || HandsOver(h, op, c, k, p)
  {
    if op.Finish? && op.refresh < |h.refreshes| && op.items.Some? {
      CompleteKeeps(h, op.refresh, op.items.value);
    }
  }

  /** Along every run, each row was handed over while the connection it was published for was still the client's ready
      one; rows of an earlier connection are never seen. */
  lemma {:induction false} RowsArriveCurrent(ops: seq<Op>, c: nat, k: nat)
    requires c < |Run(ops).clients| && k < |Run(ops).clients[c].delivered|
    ensures exists n: nat :: n < |ops| && HandsOver(Run(ops[..n]), ops[n], c, k, Run(ops).clients[c].delivered[k])
  {
    if ops != [] {
      var last := |ops| - 1;
      var h := Run(ops[..last]);
      RunKeeps(ops[..last]);
      hide Next, Invariant, HandsOver;
      StepDelivers(h, ops[last], c, k);
      if !HandsOver(h, ops[last], c, k, Run(ops).clients[c].delivered[k]) {
        RowsArriveCurrent(ops[..last], c, k);
        var n: nat :| n < last && HandsOver(Run(ops[..last][..n]), ops[..last][n], c, k, h.clients[c].delivered[k]);
        assert ops[..last][..n] == ops[..n];
      }
    }
  }
}
