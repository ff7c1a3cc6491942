/** Which frames of the hosts an aggregate stream takes, and when it is seeded, over every run. */
module AggregateLinks {
  import opened Prelude
  import opened AggregateView
  import opened AggregateRuns

  // ---- Connections -----------------------------------------------------------------------------

  /** A host's connection, read off the events: it is live once its first frame was a baseline, and torn down if that
      was anything else. */
  datatype Link = Closed | Opened | Live

  function LinkAt(events: seq<Event>, host: string): Link {
    if events == [] then Closed
    else
      var before := LinkAt(events[..|events| - 1], host);
      match events[|events| - 1]
      case Connects(h) => if h == host then Opened else before
      case Disconnects(h) => if h == host then Closed else before
      case Sends(h, frame) =>
        if h != host || before.Closed? then before
        else if before.Live? || frame.Baseline? then Live
        else Closed
      case _ => before
  }

  /** The frames of live connections, in the order sent. */
  function Taken(events: seq<Event>): seq<Packet> {
    if events == [] then []
    else
      var init, last := events[..|events| - 1], events[|events| - 1];
      Taken(init) + if last.Sends? && LinkAt(events, last.sender).Live? then [Packet(last.sender, last.frame)] else []
  }

  function Deliveries(events: seq<Event>): nat {
    if events == [] then 0
    else Deliveries(events[..|events| - 1]) + if events[|events| - 1].Consume? then 1 else 0
  }

  /** The parts of the hub that matter here. */
  datatype Part = Part(generation: map<string, bool>, queue: seq<Packet>, hosts: seq<string>, views: map<string, View>,
                       initial: bool)

  function PartOf(s: Hub): Part {
    Part(s.generation, s.queue, s.hosts, s.views, s.initial)
  }

  /** How a step moves them: hosts are listed in the order of their first baselines. */
  predicate Moves(endpoint: Endpoint, entries: set<string>, a: Part, e: Event, b: Part) {
    match e
    case Connects(host) => host in entries && b == a.(generation := a.generation[host := false])
    case Disconnects(host) => b == a.(generation := a.generation - {host})
    case Sends(host, frame) =>
      if host !in a.generation then b == a
      else if a.generation[host] || frame.Baseline?
      then b == a.(generation := a.generation[host := true], queue := a.queue + [Packet(host, frame)])
      else b == a.(generation := a.generation - {host})
    case Deadline => !a.initial && b == a.(initial := true)
    case Consume =>
      && a.queue != [] && b.generation == a.generation && b.queue == a.queue[1..]
      && var host, frame := a.queue[0].host, a.queue[0].frame;
         && (frame.Baseline? || host in a.views)
         && b.views == a.views[host := if frame.Baseline? then frame.value else Apply(endpoint, a.views[host], frame)]
         && b.hosts == (if host in a.views then a.hosts else a.hosts + [host])
         && (b.initial <==> a.initial || (frame.Baseline? && |b.views| == |entries|))
  }

  lemma DeliverySeeds(s: Hub, p: Packet, s': Hub, out: seq<Frame>)
    requires HostsListed(s) && (p.frame.Baseline? || p.host in s.views) && Handles(s, p, s', out)
    ensures s'.initial <==> s.initial || (p.frame.Baseline? && |s'.views| == |s.entries|)
    ensures var view := if p.frame.Baseline? then p.frame.value else Apply(s.endpoint, s.views[p.host], p.frame);
      s'.views == s.views[p.host := view] && s'.hosts == if p.host in s.views then s.hosts else s.hosts + [p.host]
  {
    hide Apply, Merge, Fold, IsReplacement, OrderKept, Forwarded;
    if !p.frame.Baseline? {
      assert HandlesIncrement(s, p, s', out);
    } else if !s.initial {
      assert HandlesFirst(s, p, s', out);
    }
  }

  lemma MovedByDelivery(s: Hub, s': Hub, out: seq<Frame>)
    requires HostsListed(s) && !s.ended && s.queue != [] && (s.queue[0].frame.Baseline? || s.queue[0].host in s.views)
    requires Handles(s.(queue := s.queue[1..]), s.queue[0], s', out)
    ensures s'.entries == s.entries && s'.endpoint == s.endpoint
    ensures Moves(s.endpoint, s.entries, PartOf(s), Consume, PartOf(s'))
  {
    DeliverySeeds(s.(queue := s.queue[1..]), s.queue[0], s', out);
    HandlesFrame(s.(queue := s.queue[1..]), s.queue[0], s', out);
    hide Handles, HostsListed, Apply;
  }

  lemma Moved(s: Hub, e: Event, s': Hub, out: seq<Frame>)
    requires Next(s, e, s', out)
    ensures s'.entries == s.entries && s'.endpoint == s.endpoint
    ensures Moves(s.endpoint, s.entries, PartOf(s), e, PartOf(s'))
  {
    hide Handles, FrameOk, Merge, HostsListed, Apply;
    if e.Consume? { MovedByDelivery(s, s', out); }
  }

  // ---- The queue -------------------------------------------------------------------------------

  ghost predicate Linked(events: seq<Event>, a: Part) {
    && (forall host :: LinkAt(events, host) == LinkOf(a, host))
    && Deliveries(events) <= |Taken(events)| && a.queue == Taken(events)[Deliveries(events)..]
  }

  function LinkOf(a: Part, host: string): Link {
    if host !in a.generation then Closed else if a.generation[host] then Live else Opened
  }

  lemma LinksStep(endpoint: Endpoint, entries: set<string>, events: seq<Event>, a: Part, e: Event, b: Part,
      host: string)
    requires LinkAt(events, host) == LinkOf(a, host) && Moves(endpoint, entries, a, e, b)
    ensures LinkAt(events + [e], host) == LinkOf(b, host)
  {
    assert (events + [e])[..|events|] == events;
    hide Apply;
  }

  lemma LinkedStep(endpoint: Endpoint, entries: set<string>, events: seq<Event>, a: Part, e: Event, b: Part)
    requires Linked(events, a) && Moves(endpoint, entries, a, e, b)
    ensures Linked(events + [e], b)
  {
    var all := events + [e];
    assert all[..|events|] == events;
    forall host ensures LinkAt(all, host) == LinkOf(b, host) {
      assert LinkAt(events, host) == LinkOf(a, host);
      LinksStep(endpoint, entries, events, a, e, b, host);
    }
    hide LinkAt, Apply;
    if e.Sends? { assert LinkAt(all, e.sender) == LinkOf(b, e.sender); }
  }

  /** TAKEN. Along every run, what waits is what live connections sent, in the order sent, less what has been
      delivered. */
  lemma {:induction false} LinksAndQueue(states: seq<Hub>, events: seq<Event>, outs: seq<seq<Frame>>)
    requires IsRun(states, events, outs)
    ensures Linked(events, PartOf(states[|events|]))
    decreases |events|
  {
    if events != [] {
      var n := |events| - 1;
      var before, taken, sent := states[..n + 1], events[..n], outs[..n];
      assert IsRun(before, taken, sent) && Next(states[n], events[n], states[n + 1], outs[n]);
      hide Linked, Next, IsRun, Moves;
      LinksAndQueue(before, taken, sent);
      Moved(states[n], events[n], states[n + 1], outs[n]);
      LinkedStep(states[n].endpoint, states[n].entries, taken, PartOf(states[n]), events[n], PartOf(states[n + 1]));
      assert taken + [events[n]] == events;
    }
  }

  // ---- Seeding ---------------------------------------------------------------------------------

  predicate DeadlinePassed(events: seq<Event>) {
    exists k :: 0 <= k < |events| && events[k].Deadline?
  }

  /** Only known hosts connect, send and are recorded; and the client is seeded as the theorem says. */
  ghost predicate Seeded(entries: set<string>, events: seq<Event>, a: Part) {
    && a.views.Keys <= entries && a.generation.Keys <= entries && (forall p :: p in a.queue ==> p.host in entries)
    && (a.initial <==> a.views.Keys == entries || DeadlinePassed(events))
  }

  lemma SubsetSize(a: set<string>, b: set<string>)
    requires a <= b
    ensures |a| == |b| <==> a == b
  {
    assert |b - a| == |b| - |a|;
    assert b == a + (b - a);
  }

  lemma SeededStep(endpoint: Endpoint, entries: set<string>, events: seq<Event>, a: Part, e: Event, b: Part)
    requires Seeded(entries, events, a) && Moves(endpoint, entries, a, e, b)
    ensures Seeded(entries, events + [e], b)
  {
    var all := events + [e];
    assert DeadlinePassed(all) <==> DeadlinePassed(events) || e.Deadline? by {
      assert forall k :: 0 <= k < |events| ==> all[k] == events[k];
      assert all[|events|] == e;
    }
    hide DeadlinePassed, Apply;
    if e.Consume? { SeededByDelivery(endpoint, entries, a, b); }
  }

  lemma SeededByDelivery(endpoint: Endpoint, entries: set<string>, a: Part, b: Part)
    requires a.views.Keys <= entries && (forall p :: p in a.queue ==> p.host in entries)
    requires Moves(endpoint, entries, a, Consume, b)
    ensures b.views.Keys <= entries && (forall p :: p in b.queue ==> p.host in entries)
    ensures a.views.Keys == entries ==> b.views.Keys == entries
    ensures b.initial <==> a.initial || (a.queue[0].frame.Baseline? && b.views.Keys == entries)
    ensures !a.queue[0].frame.Baseline? ==> b.views.Keys == a.views.Keys
  {
    hide Apply;
    assert a.queue[0] in a.queue;
    assert b.views.Keys == a.views.Keys + {a.queue[0].host} && |b.views.Keys| == |b.views|;
    SubsetSize(b.views.Keys, entries);
  }

  /** SEEDING. Along every run the client has been seeded exactly if every host has given a view or the deadline has
      passed. */
  lemma {:induction false} SeededWhen(states: seq<Hub>, events: seq<Event>, outs: seq<seq<Frame>>)
    requires IsRun(states, events, outs)
    ensures states[|events|].entries == states[0].entries
    ensures Seeded(states[0].entries, events, PartOf(states[|events|]))
    decreases |events|
  {
    if events != [] {
      var n := |events| - 1;
      var before, taken, sent := states[..n + 1], events[..n], outs[..n];
      assert IsRun(before, taken, sent) && Next(states[n], events[n], states[n + 1], outs[n]);
      hide Seeded, Next, IsRun, Moves;
      SeededWhen(before, taken, sent);
      Moved(states[n], events[n], states[n + 1], outs[n]);
      SeededStep(states[n].endpoint, states[0].entries, taken, PartOf(states[n]), events[n], PartOf(states[n + 1]));
      assert taken + [events[n]] == events;
    }
  }
}
