/** What each step does to connections, records, refreshes and queues, said of the step and the tables' fields. */
module LateRowsLaws {
  import opened Prelude
  import opened LateRows
  import opened LateRowsRuns

  // ---- Connections -----------------------------------------------------------------------------

  /** The client is open and follows the host. */
  predicate Follows(h: Hub, c: nat, host: string) {
    c < |h.clients| && h.clients[c].open && host in h.clients[c].hosts
  }

  /** Its connection to the host is ready, and of this generation. */
  predicate ReadyOver(client: Client, host: string, generation: nat) {
    host in client.hosts && client.hosts[host] == HostState(true, Some(generation))
  }

  lemma ReadyLaw(client: Client, host: string)
    ensures Connected(client, host) <==> exists g :: ReadyOver(client, host, g)
    ensures forall g :: ReadyOver(client, host, g) <==>
      Connected(client, host) && client.hosts[host].generation.value == g
  {
    if Connected(client, host) { assert ReadyOver(client, host, client.hosts[host].generation.value); }
  }

  /** What a step makes of an open client's connection: a new one is not ready and has a generation of its own, it may
      become ready, and it may go. */
  function HostAfter(h: Hub, op: Op, c: nat, host: string, was: HostState): HostState {
    if op == Attach(c, host) then HostState(false, Some(h.generations))
    else if op == BecomeReady(c, host) && was.generation.Some? then HostState(true, was.generation)
    else if op == Detach(c, host) then HostState(false, None)
    else was
  }

  /** CONNECTIONS. Only the client's own steps change its connections, and only while it is open. */
  lemma Connections(ops: seq<Op>, op: Op, c: nat, host: string)
    requires c < |Run(ops).clients|
    ensures var h, g := Run(ops), Run(ops + [op]);
      && c < |g.clients| && (g.clients[c].open <==> h.clients[c].open && op != CloseClient(c))
      && (host in g.clients[c].hosts <==> host in h.clients[c].hosts)
      && (host in h.clients[c].hosts && !h.clients[c].open ==> g.clients[c].hosts[host] == h.clients[c].hosts[host])
      && (host in h.clients[c].hosts && h.clients[c].open ==>
            g.clients[c].hosts[host] == HostAfter(h, op, c, host, h.clients[c].hosts[host]))
  {
    var h := Run(ops);
    LastStep(ops, op);
    RunKeeps(ops);
    hide Run;
    if op.Finish? {
      FinishedConnections(h, op);
    } else {
      hide Invariant;
      OtherConnections(h, op, c, host);
    }
  }

  /** The clients but for their queues. */
  ghost predicate SameConnections(h: Hub, g: Hub) {
    && |g.clients| == |h.clients|
    && forall c :: 0 <= c < |h.clients| ==> g.clients[c] == h.clients[c].(queue := g.clients[c].queue)
  }

  lemma FinishedConnections(h: Hub, op: Op)
    requires Invariant(h) && op.Finish?
    ensures SameConnections(h, Next(h, op))
  {
    if op.refresh < |h.refreshes| && op.items.Some? { CompleteKeeps(h, op.refresh, op.items.value); }
  }

  lemma OtherConnections(h: Hub, op: Op, c: nat, host: string)
    requires c < |h.clients| && !op.Finish?
    ensures var g := Next(h, op);
      && c < |g.clients| && (g.clients[c].open <==> h.clients[c].open && op != CloseClient(c))
      && (host in g.clients[c].hosts <==> host in h.clients[c].hosts)
      && (host in h.clients[c].hosts && !h.clients[c].open ==> g.clients[c].hosts[host] == h.clients[c].hosts[host])
      && (host in h.clients[c].hosts && h.clients[c].open ==>
            g.clients[c].hosts[host] == HostAfter(h, op, c, host, h.clients[c].hosts[host]))
  {
    hide Bump, StartRefresh, RegisterAll;
    assert forall k, s :: Bump(h, k, s).clients == h.clients by { BumpClients(h); }
    if op.Start? {
      assert StartRefresh(h, op.key, op.host).clients == h.clients by { StartClients(h, op.key, op.host); }
    }
  }

  lemma BumpClients(h: Hub)
    ensures forall k, s :: Bump(h, k, s).clients == h.clients
  {}

  lemma StartClients(h: Hub, key: string, host: string)
    ensures StartRefresh(h, key, host).clients == h.clients
  {}

  lemma LastStep(ops: seq<Op>, op: Op)
    ensures Run(ops + [op]) == Next(Run(ops), op)
  {
    assert (ops + [op])[..|ops|] == ops;
  }

  /** NEW CLIENTS. Opening a client adds one with no connection and nothing queued; nothing else changes how many there
      are, and only a new connection takes a generation. */
  lemma NewClients(ops: seq<Op>, op: Op)
    ensures var h, g := Run(ops), Run(ops + [op]);
      && |g.clients| == |h.clients| + (if op.OpenClient? then 1 else 0)
      && (op.OpenClient? ==>
            var client := g.clients[|h.clients|];
            && client.open && client.queue == [] && client.delivered == [] && client.hosts.Keys == op.hosts
            && forall host :: host in op.hosts ==> client.hosts[host] == HostState(false, None))
      && g.generations == h.generations + if op.Attach? && Follows(h, op.client, op.host) then 1 else 0
  {
    var h := Run(ops);
    LastStep(ops, op);
    RunKeeps(ops);
    hide Run, Invariant;
    match op
    case Finish(i, items) => if i < |h.refreshes| && items.Some? { CompleteKeeps(h, i, items.value); }
    case _ =>
  }

  /** Every generation in use was handed out, so a new one is like no other. */
  lemma {:induction false} GenerationsAreNew(ops: seq<Op>, c: nat, host: string, generation: nat)
    requires c < |Run(ops).clients| && host in Run(ops).clients[c].hosts
    requires Run(ops).clients[c].hosts[host].generation == Some(generation)
    ensures generation < Run(ops).generations
  {
    if ops != [] {
      var front, op := ops[..|ops| - 1], ops[|ops| - 1];
      assert ops == front + [op];
      NewClients(front, op);
      if c < |Run(front).clients| {
        Connections(front, op, c, host);
        hide Run;
        if Run(front).clients[c].hosts[host].generation == Some(generation) {
          GenerationsAreNew(front, c, host, generation);
        }
      }
    }
  }

  // ---- Records ---------------------------------------------------------------------------------

  /** RECORDED. A session is recorded by its projections, and by its events over ready connections of open clients. */
  lemma Recorded(ops: seq<Op>, op: Op)
    ensures var h, g := Run(ops), Run(ops + [op]);
      g.bumps == h.bumps +
        if op.Projection? then [(op.host, op.projected)]
        else if op.SessionEvent? && op.session.Some? && Follows(h, op.client, op.host)
          && h.clients[op.client].hosts[op.host].ready then [(op.host, op.session.value)]
        else []
  {
    var h := Run(ops);
    LastStep(ops, op);
    RunKeeps(ops);
    hide Run, Invariant;
    match op
    case Finish(i, items) => if i < |h.refreshes| && items.Some? { CompleteKeeps(h, i, items.value); }
    case _ =>
  }

  /** ARCHIVED. A host's archive is the last one it sent. */
  lemma ArchivedLast(ops: seq<Op>, op: Op, host: string, session: string)
    ensures !Archived(Run([]), host, session)
    ensures Archived(Run(ops + [op]), host, session) <==>
            if op.Archive? && op.host == host then session in op.sessions else Archived(Run(ops), host, session)
  {
    var h := Run(ops);
    LastStep(ops, op);
    RunKeeps(ops);
    assert Run([]) == IDLE;
    hide Run, Invariant;
    match op
    case Finish(i, items) => if i < |h.refreshes| && items.Some? { CompleteKeeps(h, i, items.value); }
    case _ =>
  }

  // ---- Refreshes -------------------------------------------------------------------------------

  /** A refresh under the key is not retired. */
  predicate Joins(h: Hub, key: string) {
    exists i :: 0 <= i < |h.refreshes| && h.refreshes[i].key == key && !h.refreshes[i].retired
  }

  /** The connection becomes ready, and of this generation. */
  predicate Readies(h: Hub, op: Op, c: nat, host: string, generation: nat) {
    op == BecomeReady(c, host) && Follows(h, c, host) && h.clients[c].hosts[host].generation == Some(generation)
  }

  /** REFRESHES. A refresh keeps its key, host and moment; it is deferred, completed and, once completed, retired by its
      own steps; and while it is not completed it gains each connection to its host that becomes ready. */
  lemma Refreshes(ops: seq<Op>, op: Op, i: nat)
    requires i < |Run(ops).refreshes|
    ensures i < |Run(ops + [op]).refreshes|
    ensures var h, r, q := Run(ops), Run(ops).refreshes[i], Run(ops + [op]).refreshes[i];
      && q.key == r.key && q.host == r.host && q.since == r.since
      && (q.deferred <==> r.deferred || op == Defer(i))
      && (q.completed <==> r.completed || (op.Finish? && op.refresh == i))
      && (q.retired <==> r.retired || (op == RetireRefresh(i) && r.completed))
      && forall c: nat, g: nat ::
           IsTarget(q, c, g) <==> IsTarget(r, c, g) || (!r.completed && Readies(h, op, c, r.host, g))
  {
    var h := Run(ops);
    LastStep(ops, op);
    RunKeeps(ops);
    hide Run, Invariant;
    match op
    case Finish(k, items) => if k < |h.refreshes| && items.Some? { CompleteKeeps(h, k, items.value); }
    case BecomeReady(c, host) =>
      if Live(h, c, host) && h.clients[c].hosts[host].generation.Some? {
        RegisteredTargets(h.refreshes[i], host, c, h.clients[c].hosts[host].generation.value);
      }
    case _ =>
  }

  lemma RegisteredTargets(r: Refresh, host: string, c: nat, generation: nat)
    ensures forall d: nat, g: nat :: IsTarget(Registered(r, host, c, generation), d, g) <==>
      IsTarget(r, d, g) || (!r.completed && r.host == host && d == c && g == generation)
  {
    var q := Registered(r, host, c, generation);
    if q != r {
      assert q.targets == r.targets + [Target(c, generation, r.startVersions)];
      assert forall t :: t in q.targets <==> t in r.targets || t == Target(c, generation, r.startVersions);
    }
  }

  /** STARTED. A call joins the refresh under its key, or begins one, at this moment and with the ready connections to
      its host for targets. No other step begins one. */
  lemma Started(ops: seq<Op>, op: Op)
    ensures var h, g := Run(ops), Run(ops + [op]);
      if op.Start? && !Joins(h, op.key) then
        && |g.refreshes| == |h.refreshes| + 1
        && var r := g.refreshes[|h.refreshes|];
        && r.key == op.key && r.host == op.host && !r.deferred && !r.completed && !r.retired && r.since == |h.bumps|
        && forall c: nat, k: nat :: IsTarget(r, c, k) <==>
             c < |h.clients| && h.clients[c].open && ReadyOver(h.clients[c], op.host, k)
      else |g.refreshes| == |h.refreshes|
  {
    var h := Run(ops);
    LastStep(ops, op);
    RunKeeps(ops);
    hide Run, Invariant;
    match op
    case Finish(k, items) => if k < |h.refreshes| && items.Some? { CompleteKeeps(h, k, items.value); }
    case Start(key, host) =>
      if !Joins(h, key) { CapturedTargets(h, host, Next(h, op).refreshes[|h.refreshes|]); }
    case _ =>
  }

  lemma CapturedTargets(h: Hub, host: string, r: Refresh)
    requires r.targets == Capture(h.clients, host, VersionsOf(h, host), |h.clients|)
    ensures forall c: nat, k: nat :: IsTarget(r, c, k) <==>
      c < |h.clients| && h.clients[c].open && ReadyOver(h.clients[c], host, k)
  {
    forall c: nat, k: nat
      ensures IsTarget(r, c, k) <==> c < |h.clients| && h.clients[c].open && ReadyOver(h.clients[c], host, k)
    {
      if c < |h.clients| && h.clients[c].open && ReadyOver(h.clients[c], host, k) {
        CaptureHolds(h.clients, host, VersionsOf(h, host), |h.clients|, c);
      }
      if IsTarget(r, c, k) {
        var t :| t in r.targets && t.client == c && t.generation == k;
        CaptureFinds(h.clients, host, VersionsOf(h, host), |h.clients|, t);
      }
    }
  }

  lemma {:induction false} CaptureFinds(clients: seq<Client>, host: string, versions: map<string, nat>, n: nat,
      t: Target)
    requires n <= |clients| && t in Capture(clients, host, versions, n)
    ensures t.client < n && clients[t.client].open && ReadyOver(clients[t.client], host, t.generation)
  {
    if t in Capture(clients, host, versions, n - 1) { CaptureFinds(clients, host, versions, n - 1, t); }
  }

  // ---- Queues ----------------------------------------------------------------------------------

  /** A row whose connection is not the ready one any more. */
  predicate Outdated(client: Client, p: Packet) {
    p.Row? && !ReadyOver(client, p.host, p.generation)
  }

  /** The listed sessions that nothing was recorded for since the refresh began and that the host has not archived, in
      the order listed, as rows of the generation. */
  ghost predicate AreFresh(h: Hub, r: Refresh, generation: nat, items: seq<string>, rows: seq<Packet>)
    decreases items
  {
    if items == [] then rows == []
    else
      var session := items[|items| - 1];
      var overtaken := exists k :: r.since <= k < |h.bumps| && h.bumps[k] == (r.host, session);
      if overtaken || (r.host in h.archived && session in h.archived[r.host]) then
        AreFresh(h, r, generation, items[..|items| - 1], rows)
      else
        && rows != [] && rows[|rows| - 1] == Row(r.host, generation, session)
        && AreFresh(h, r, generation, items[..|items| - 1], rows[..|rows| - 1])
  }

  lemma {:induction false} FreshRowsLaw(h: Hub, r: Refresh, generation: nat, items: seq<string>)
    requires r.since <= |h.bumps|
    ensures AreFresh(h, r, generation, items, FreshRows(h, r, generation, items))
  {
    if items != [] {
      FreshRowsLaw(h, r, generation, items[..|items| - 1]);
      var session := items[|items| - 1];
      var front, rows := FreshRows(h, r, generation, items[..|items| - 1]), FreshRows(h, r, generation, items);
      if rows != front { assert rows[..|rows| - 1] == front; }
    }
  }

  /** The step completes a late list call over this ready connection. */
  predicate Completes(h: Hub, op: Op, client: Client, generation: nat) {
    && op.Finish? && op.items.Some? && op.refresh < |h.refreshes| && client.open
    && var r := h.refreshes[op.refresh];
    && r.deferred && !r.completed && ReadyOver(client, r.host, generation)
  }

  /** QUEUES. A client's queue gains an event for each of its ready connections' events, and the fresh rows of each late
      call that completes over its ready connection; a delivery takes the oldest packet, and hands it over unless it is
      a row of a connection that is no longer the ready one. Nothing else changes what it is given. */
  lemma Queues(ops: seq<Op>, op: Op, c: nat)
    requires c < |Run(ops).clients|
    ensures c < |Run(ops + [op]).clients|
    ensures var h, was, now := Run(ops), Run(ops).clients[c], Run(ops + [op]).clients[c];
      if op == Deliver(c) then
        if was.queue == [] then now == was
        else
          && now.queue == was.queue[1..]
          && now.delivered == was.delivered + if Outdated(was, was.queue[0]) then [] else [was.queue[0]]
      else
        && now.delivered == was.delivered
        && if op.SessionEvent? && op.client == c && Follows(h, c, op.host) && was.hosts[op.host].ready then
             now.queue == was.queue + [Event(op.host)]
           else if exists g :: Completes(h, op, was, g) then
             exists rows, g :: now.queue == was.queue + rows && Completes(h, op, was, g)
               && AreFresh(h, h.refreshes[op.refresh], g, op.items.value, rows)
           else now.queue == was.queue
  {
    var h := Run(ops);
    LastStep(ops, op);
    RunKeeps(ops);
    hide Run;
    if op.Finish? && op.items.Some? && op.refresh < |h.refreshes| && !h.refreshes[op.refresh].completed {
      FinishedQueue(h, op.refresh, op.items.value, c);
    } else {
      hide Invariant;
      OtherQueue(h, op, c);
    }
  }

  lemma OtherQueue(h: Hub, op: Op, c: nat)
    requires c < |h.clients| && !(op.Finish? && op.items.Some? && op.refresh < |h.refreshes|
                                  && !h.refreshes[op.refresh].completed)
    ensures c < |Next(h, op).clients|
    ensures var was, now := h.clients[c], Next(h, op).clients[c];
      if op == Deliver(c) then
        if was.queue == [] then now == was
        else
          && now.queue == was.queue[1..]
          && now.delivered == was.delivered + if Outdated(was, was.queue[0]) then [] else [was.queue[0]]
      else
        && now.delivered == was.delivered
        && now.queue == was.queue
          + if op.SessionEvent? && op.client == c && Follows(h, c, op.host) && was.hosts[op.host].ready
            then [Event(op.host)] else []
  {}

  lemma FinishedQueue(h: Hub, i: nat, items: seq<string>, c: nat)
    requires Invariant(h) && i < |h.refreshes| && !h.refreshes[i].completed && c < |h.clients|
    ensures var op, was := Finish(i, Some(items)), h.clients[c];
      && c < |Next(h, op).clients| && Next(h, op).clients[c].delivered == was.delivered
      && if exists g :: Completes(h, op, was, g) then
           exists rows, g :: Next(h, op).clients[c].queue == was.queue + rows && Completes(h, op, was, g)
             && AreFresh(h, h.refreshes[i], g, items, rows)
         else Next(h, op).clients[c].queue == was.queue
  {
    var op, was, r := Finish(i, Some(items)), h.clients[c], h.refreshes[i];
    CompleteKeeps(h, i, items);
    assert RefreshKept(h, r);
    ReadyLaw(was, r.host);
    if r.deferred {
      GivenRows(h, i, items, c);
      if was.open && Connected(was, r.host) {
        var g := was.hosts[r.host].generation.value;
        FreshRowsLaw(h, r, g, items);
        assert Completes(h, op, was, g);
      }
    }
  }
}
