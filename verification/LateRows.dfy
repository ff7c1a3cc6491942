/** Late session rows of packages/browser-host-hub-rc1/src/index.js: a session list that arrives after its caller gave
    up is still shown to the clients, but only the rows that nothing newer has overtaken. */
module LateRows {
  import opened Prelude

  /** A host's event stream as one client sees it; each connection attempt is a new generation. */
  datatype HostState = HostState(ready: bool, generation: Option<nat>)

  datatype Packet = Event(host: string) | Row(host: string, generation: nat, session: string)

  /** A client's event stream; it is in the hub's table while `open`. */
  datatype Client = Client(open: bool, hosts: map<string, HostState>, queue: seq<Packet>, delivered: seq<Packet>)

  datatype Target = Target(client: nat, generation: nat, versions: map<string, nat>)

  /** A list request; `since` records how many bumps the hub had made when it began. */
  datatype Refresh = Refresh(key: string, host: string, deferred: bool, completed: bool, retired: bool,
                             startVersions: map<string, nat>, targets: seq<Target>, since: nat)

  /** The hub's tables. `bumps` records every session event and projection in order. */
  datatype Hub = Hub(versions: map<string, map<string, nat>>, archived: map<string, set<string>>, clients: seq<Client>,
                     generations: nat, refreshes: seq<Refresh>, bumps: seq<(string, string)>)

  const IDLE := Hub(map[], map[], [], 0, [], [])

  function VersionsOf(h: Hub, host: string): map<string, nat> {
    if host in h.versions then h.versions[host] else map[]
  }

  function Version(versions: map<string, nat>, session: string): nat {
    if session in versions then versions[session] else 0
  }

  /** `#bumpSessionListSessionVersion`. */
  function Bump(h: Hub, host: string, session: string): Hub {
    var versions := VersionsOf(h, host);
    h.(versions := h.versions[host := versions[session := Version(versions, session) + 1]],
      bumps := h.bumps + [(host, session)])
  }

  predicate Archived(h: Hub, host: string, session: string) {
    host in h.archived && session in h.archived[host]
  }

  /** The client has a ready connection to the host; its generation. */
  predicate Connected(c: Client, host: string) {
    host in c.hosts && c.hosts[host].ready && c.hosts[host].generation.Some?
  }

  /** `#captureSessionListTargets`, among the first `n` clients. */
  function Capture(clients: seq<Client>, host: string, versions: map<string, nat>, n: nat): seq<Target>
    requires n <= |clients|
  {
    if n == 0 then []
    else
      Capture(clients, host, versions, n - 1)
      + if clients[n - 1].open && Connected(clients[n - 1], host) then
        [Target(n - 1, clients[n - 1].hosts[host].generation.value, versions)] else []
  }

  function StartRefresh(h: Hub, key: string, host: string): Hub {
    if exists i :: 0 <= i < |h.refreshes| && h.refreshes[i].key == key && !h.refreshes[i].retired then h
    else
      var versions := VersionsOf(h, host);
      h.(refreshes := h.refreshes
        + [Refresh(key, host, false, false, false, versions, Capture(h.clients, host, versions, |h.clients|),
          |h.bumps|)])
  }

  /** `#registerSessionListTargets`, for one refresh. */
  function Registered(r: Refresh, host: string, client: nat, generation: nat): Refresh {
    if r.host != host || r.completed
      || exists t :: t in r.targets && t.client == client && t.generation == generation then r
    else r.(targets := r.targets + [Target(client, generation, r.startVersions)])
  }

  function RegisterAll(rs: seq<Refresh>, host: string, client: nat, generation: nat): seq<Refresh> {
    seq(|rs|, i requires 0 <= i < |rs| => Registered(rs[i], host, client, generation))
  }

  /** `#canPublishLateSessionItem`. */
  predicate CanPublish(h: Hub, t: Target, host: string, session: string) {
    && t.client < |h.clients| && h.clients[t.client].open
    && Connected(h.clients[t.client], host) && h.clients[t.client].hosts[host].generation.value == t.generation
    && Version(VersionsOf(h, host), session) == Version(t.versions, session)
    && !Archived(h, host, session)
  }

  function Enqueued(h: Hub, c: nat, p: Packet): Hub
    requires c < |h.clients|
  {
    h.(clients := h.clients[c := h.clients[c].(queue := h.clients[c].queue + [p])])
  }

  /** One target is offered the listed rows in turn. */
  function PublishRows(h: Hub, t: Target, host: string, items: seq<string>): Hub {
    if items == [] then h
    else
      var before := PublishRows(h, t, host, items[..|items| - 1]);
      var session := items[|items| - 1];
      if CanPublish(before, t, host, session) then Enqueued(before, t.client, Row(host, t.generation, session))
        else before
  }

  function PublishAll(h: Hub, targets: seq<Target>, host: string, items: seq<string>): Hub {
    if targets == [] then h
    else PublishRows(PublishAll(h, targets[..|targets| - 1], host, items), targets[|targets| - 1], host, items)
  }

  /** The list call succeeds. */
  function Complete(h: Hub, i: nat, items: seq<string>): Hub
    requires i < |h.refreshes|
  {
    var r := h.refreshes[i];
    var h1 := h.(refreshes := h.refreshes[i := r.(completed := true)]);
    if r.deferred then PublishAll(h1, r.targets, r.host, items) else h1
  }

  function SetHost(h: Hub, c: nat, host: string, state: HostState): Hub
    requires c < |h.clients|
  {
    h.(clients := h.clients[c := h.clients[c].(hosts := h.clients[c].hosts[host := state])])
  }

  /** A frame that names no session, such as the one that says a connection is ready, is a session event without one. */
  datatype Op =
    | OpenClient(hosts: set<string>)
    | CloseClient(client: nat)
    | Attach(client: nat, host: string)
    | BecomeReady(client: nat, host: string)
    | Detach(client: nat, host: string)
    | SessionEvent(client: nat, host: string, session: Option<string>)
    | Projection(host: string, projected: string)
    | Archive(host: string, sessions: set<string>)
    | Start(key: string, host: string)
    | Defer(refresh: nat)
    | Finish(refresh: nat, items: Option<seq<string>>)
    | RetireRefresh(refresh: nat)
    | Deliver(client: nat)

  predicate Live(h: Hub, c: nat, host: string) {
    c < |h.clients| && h.clients[c].open && host in h.clients[c].hosts
  }

  /** What the consumer of a client's queue does with its next packet. */
  function Delivered(c: Client): Client
    requires c.queue != []
  {
    var p := c.queue[0];
    var stale := p.Row? && !(Connected(c, p.host) && c.hosts[p.host].generation.value == p.generation);
    c.(queue := c.queue[1..], delivered := if stale then c.delivered else c.delivered + [p])
  }

  function Next(h: Hub, op: Op): Hub {
    match op
    case OpenClient(hosts) => h.(clients := h.clients
      + [Client(true, map host | host in hosts :: HostState(false, None), [], [])])
    case CloseClient(c) => if c < |h.clients| then h.(clients := h.clients[c := h.clients[c].(open := false)]) else h
    case Attach(c, host) => if Live(h, c, host) then
      SetHost(h, c, host, HostState(false, Some(h.generations))).(generations := h.generations + 1) else h
    case BecomeReady(c, host) =>
      if Live(h, c, host) && h.clients[c].hosts[host].generation.Some? then
        var generation := h.clients[c].hosts[host].generation;
        SetHost(h, c, host, HostState(true, generation)).(refreshes :=
          RegisterAll(h.refreshes, host, c, generation.value))
      else h
    case Detach(c, host) => if Live(h, c, host) then SetHost(h, c, host, HostState(false, None)) else h
    case SessionEvent(c, host, session) =>
      if Live(h, c, host) && h.clients[c].hosts[host].ready
      then Enqueued(if session.Some? then Bump(h, host, session.value) else h, c, Event(host)) else h
    case Projection(host, session) => Bump(h, host, session)
    case Archive(host, sessions) => h.(archived := h.archived[host := sessions])
    case Start(key, host) => StartRefresh(h, key, host)
    case Defer(i) => if i < |h.refreshes| then h.(refreshes := h.refreshes[i := h.refreshes[i].(deferred := true)])
      else h
    case Finish(i, items) =>
      if i < |h.refreshes| && !h.refreshes[i].completed then
        if items.Some? then Complete(h, i, items.value)
        else h.(refreshes := h.refreshes[i := h.refreshes[i].(completed := true)])
      else h
    case RetireRefresh(i) => if i < |h.refreshes| && h.refreshes[i].completed then
      h.(refreshes := h.refreshes[i := h.refreshes[i].(retired := true)]) else h
    case Deliver(c) => if c < |h.clients| && h.clients[c].queue != [] then
      h.(clients := h.clients[c := Delivered(h.clients[c])]) else h
  }

  function Run(ops: seq<Op>): Hub {
    if ops == [] then IDLE else Next(Run(ops[..|ops| - 1]), ops[|ops| - 1])
  }

  // ---- The tables as they are updated ----------------------------------------------------------

  class SessionListTables {
    var versions: map<string, map<string, nat>>
    var archived: map<string, set<string>>
    var clients: seq<Client>
    var generations: nat
    var refreshes: seq<Refresh>
    var bumps: seq<(string, string)>

    function Abstract(): Hub
      reads this
    {
      Hub(versions, archived, clients, generations, refreshes, bumps)
    }

    constructor ()
      ensures Abstract() == IDLE
    {
      versions, archived, clients, generations, refreshes, bumps := map[], map[], [], 0, [], [];
    }

    method BumpVersion(host: string, session: string)
      modifies this`versions, this`bumps
      ensures Abstract() == Bump(old(Abstract()), host, session)
    {
      var ofHost := if host in versions then versions[host] else map[];
      var count := if session in ofHost then ofHost[session] else 0;
      versions := versions[host := ofHost[session := count + 1]];
      bumps := bumps + [(host, session)];
    }

    method CaptureTargets(host: string, startVersions: map<string, nat>) returns (targets: seq<Target>)
      ensures targets == Capture(clients, host, startVersions, |clients|)
    {
      targets := [];
      for i := 0 to |clients|
        invariant targets == Capture(clients, host, startVersions, i)
      {
        var c := clients[i];
        if c.open && Connected(c, host) {
          targets := targets + [Target(i, c.hosts[host].generation.value, startVersions)];
        }
      }
    }

    /** The part of `#boundedSessionListHostCall` that begins a refresh. */
    method BeginRefresh(key: string, host: string)
      modifies this`refreshes
      ensures Abstract() == StartRefresh(old(Abstract()), key, host)
    {
      for i := 0 to |refreshes|
        invariant refreshes == old(refreshes)
        invariant forall j :: 0 <= j < i ==> !(refreshes[j].key == key && !refreshes[j].retired)
      {
        if refreshes[i].key == key && !refreshes[i].retired {
          return;
        }
      }
      var startVersions := if host in versions then versions[host] else map[];
      var targets := CaptureTargets(host, startVersions);
      refreshes := refreshes + [Refresh(key, host, false, false, false, startVersions, targets, |bumps|)];
    }

    method RegisterTargets(host: string, client: nat, generation: nat)
      modifies this`refreshes
      ensures refreshes == RegisterAll(old(refreshes), host, client, generation)
    {
      for i := 0 to |refreshes|
        invariant |refreshes| == |old(refreshes)|
        invariant forall j :: 0 <= j < i ==> refreshes[j] == Registered(old(refreshes)[j], host, client, generation)
        invariant forall j :: i <= j < |refreshes| ==> refreshes[j] == old(refreshes)[j]
      {
        var r := refreshes[i];
        if r.host == host && !r.completed
          && !exists t :: t in r.targets && t.client == client && t.generation == generation {
          refreshes := refreshes[i := r.(targets := r.targets + [Target(client, generation, r.startVersions)])];
        }
      }
    }

    /** The continuation of a successful list call. */
    method CompleteRefresh(i: nat, items: seq<string>)
      requires i < |refreshes|
      modifies this`refreshes, this`clients
      ensures Abstract() == Complete(old(Abstract()), i, items)
    {
      var r := refreshes[i];
      refreshes := refreshes[i := r.(completed := true)];
      if !r.deferred {
        return;
      }
      ghost var h := Abstract();
      for t := 0 to |r.targets|
        invariant Abstract() == PublishAll(h, r.targets[..t], r.host, items)
      {
        ghost var before := Abstract();
        for j := 0 to |items|
          invariant Abstract() == PublishRows(before, r.targets[t], r.host, items[..j])
        {
          assert items[..j + 1][..j] == items[..j];
          var target := r.targets[t];
          if CanPublish(Abstract(), target, r.host, items[j]) {
            clients := clients[target.client :=
              clients[target.client].(queue := clients[target.client].queue
                + [Row(r.host, target.generation, items[j])])];
          }
        }
        assert items[..|items|] == items && r.targets[..t + 1][..t] == r.targets[..t];
      }
      assert r.targets[..|r.targets|] == r.targets;
    }
  }
}
