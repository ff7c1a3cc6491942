/** One live subscriber of packages/mobile-stream-compat-rc1/src/index.js: a bounded queue that drops what the client
    has already been given and ends with an overflow frame when the client is too slow. */
module Subscriber {
  import opened Prelude

  /** A live event; `topic` is the identity of a control event that has one, `bytes` its JSON length. */
  datatype Event = Event(session: Option<string>, seqNo: Option<int>, topic: Option<string>, bytes: nat, body: string)

  datatype Frame = Live(event: Event) | OverflowFrame

  /** `belongs` is the channel test; the rest are the subscriber's own filters and the limits. */
  datatype Options = Options(session: Option<string>, sinceSeq: Option<int>, belongs: Event -> bool,
                             maxQueue: nat, maxBytes: nat, maxSeen: nat, overflowBytes: nat)

  datatype Key = EventKey(session: string, seqNo: int) | TopicKey(topic: string)

  /** The subscriber's fields; `taken` records every frame the client has been handed. */
  datatype State = State(queue: seq<Frame>, queuedBytes: int, seen: set<Key>, seenOrder: seq<Key>,
                         lastSeq: map<string, int>, done: bool, taken: seq<Frame>)

  const FRESH := State([], 0, {}, [], map[], false, [])

  predicate Durable(e: Event) {
    e.session.Some? && e.seqNo.Some?
  }

  /** `subscriberEventKey`. */
  function KeyOf(e: Event): Option<Key> {
    if Durable(e) then Some(EventKey(e.session.value, e.seqNo.value))
    else if e.topic.Some? then Some(TopicKey(e.topic.value)) else None
  }

  function SizeOf(o: Options, f: Frame): nat {
    if f.Live? then f.event.bytes else o.overflowBytes
  }

  /** The tests `emit` makes before it enqueues. */
  predicate Wanted(o: Options, e: Event) {
    && o.belongs(e)
    && !(o.session.Some? && e.session.Some? && e.session.value != "" && e.session.value != o.session.value)
    && !(e.seqNo.Some? && o.sinceSeq.Some? && e.seqNo.value <= o.sinceSeq.value)
  }

  /** Already passed: the client has this seq of this session, or asked for later ones. */
  predicate Passed(o: Options, s: State, e: Event) {
    Durable(e) && (
      || (e.session.value in s.lastSeq && e.seqNo.value <= s.lastSeq[e.session.value])
      || (o.sinceSeq.Some? && e.seqNo.value <= o.sinceSeq.value))
  }

  function Trim(keys: seq<Key>, limit: nat): seq<Key> {
    if |keys| <= limit then keys else keys[|keys| - limit..]
  }

  function Members(keys: seq<Key>): set<Key> {
    set k | k in keys
  }

  function Remember(o: Options, s: State, key: Key): State {
    var order := Trim(s.seenOrder + [key], o.maxSeen);
    s.(seen := s.seen + {key} - (Members(s.seenOrder + [key]) - Members(order)), seenOrder := order)
  }

  /** `failSubscriber`. */
  function Fail(o: Options, s: State): State {
    State([OverflowFrame], o.overflowBytes, {}, [], map[], true, s.taken)
  }

  predicate Full(o: Options, s: State, e: Event) {
    |s.queue| >= o.maxQueue || s.queuedBytes + e.bytes > o.maxBytes
  }

  /** `enqueue`. */
  function Enqueue(o: Options, s: State, e: Event): State {
    if s.done || Passed(o, s, e) then s
    else
      var s1 := if Durable(e) then s.(lastSeq := s.lastSeq[e.session.value := e.seqNo.value]) else s;
      var key := KeyOf(e);
      if key.Some? && key.value in s.seen then s1
      else
        var s2 := if key.Some? then Remember(o, s1, key.value) else s1;
        if Full(o, s, e) then Fail(o, s2)
        else s2.(queue := s.queue + [Live(e)], queuedBytes := s.queuedBytes + e.bytes)
  }

  function Emit(o: Options, s: State, e: Event): State {
    if Wanted(o, e) then Enqueue(o, s, e) else s
  }

  /** `takeQueued`. */
  function Take(o: Options, s: State): State
    requires s.queue != []
  {
    var left := s.queuedBytes - SizeOf(o, s.queue[0]);
    s.(queue := s.queue[1..], queuedBytes := if left < 0 then 0 else left, taken := s.taken + [s.queue[0]])
  }

  /** `closeSubscriber`. */
  function Close(s: State): State {
    State([], 0, {}, [], map[], true, s.taken)
  }

  datatype Op = DoEmit(event: Event) | DoTake | DoClose

  function Next(o: Options, s: State, op: Op): State {
    match op
    case DoEmit(e) => Emit(o, s, e)
    case DoTake => if s.queue == [] then s else Take(o, s)
    case DoClose => Close(s)
  }

  function Run(o: Options, ops: seq<Op>): State {
    if ops == [] then FRESH else Next(o, Run(o, ops[..|ops| - 1]), ops[|ops| - 1])
  }

  // ---- The class -------------------------------------------------------------------------------

  class LiveSubscriber {
    const options: Options
    var queue: seq<Frame>
    var queuedBytes: int
    var seen: set<Key>
    var seenOrder: seq<Key>
    var lastSeq: map<string, int>
    var done: bool
    ghost var taken: seq<Frame>

    ghost function Abstract(): State
      reads this
    {
      State(queue, queuedBytes, seen, seenOrder, lastSeq, done, taken)
    }

    constructor (options: Options)
      ensures Abstract() == FRESH && this.options == options
    {
      this.options := options;
      queue, queuedBytes, seen, seenOrder, lastSeq, done, taken := [], 0, {}, [], map[], false, [];
    }

    method RememberKey(key: Key)
      requires Distinct(seenOrder + [key])
      modifies this`seen, this`seenOrder
      ensures Abstract() == Remember(options, old(Abstract()), key)
    {
      ghost var all := seenOrder + [key];
      seen, seenOrder := seen + {key}, seenOrder + [key];
      while |seenOrder| > options.maxSeen
        invariant |seenOrder| <= |all| && seenOrder == all[|all| - |seenOrder|..]
        invariant |seenOrder| >= options.maxSeen || seenOrder == all
        invariant seen == old(seen) + {key} - (Members(all) - Members(seenOrder))
        decreases |seenOrder|
      {
        var oldest := seenOrder[0];
        OldestLeaves(all, seenOrder);
        seen, seenOrder := seen - {oldest}, seenOrder[1..];
      }
    }

    method FailSubscriber()
      modifies this`queue, this`queuedBytes, this`seen, this`seenOrder, this`lastSeq, this`done
      ensures !old(done) ==> Abstract() == Fail(options, old(Abstract()))
      ensures old(done) ==> Abstract() == old(Abstract())
    {
      if done {
        return;
      }
      queue, queuedBytes, seen, seenOrder, lastSeq, done := [], 0, {}, [], map[], true;
      queue := queue + [OverflowFrame];
      queuedBytes := options.overflowBytes;
    }

    method EnqueueEvent(e: Event)
      requires Distinct(seenOrder) && seen == Members(seenOrder)
      modifies this
      ensures Abstract() == Enqueue(options, old(Abstract()), e)
    {
      if done {
        return;
      }
      if e.session.Some? && e.seqNo.Some? {
        if e.session.value in lastSeq && e.seqNo.value <= lastSeq[e.session.value] {
          return;
        }
        if options.sinceSeq.Some? && e.seqNo.value <= options.sinceSeq.value {
          return;
        }
        lastSeq := lastSeq[e.session.value := e.seqNo.value];
      }
      var key := KeyOf(e);
      if key.Some? {
        if key.value in seen {
          return;
        }
        RememberKey(key.value);
      }
      if |queue| >= options.maxQueue || queuedBytes + e.bytes > options.maxBytes {
        FailSubscriber();
        return;
      }
      queue := queue + [Live(e)];
      queuedBytes := queuedBytes + e.bytes;
    }

    method TakeQueued() returns (frame: Frame)
      requires queue != []
      modifies this`queue, this`queuedBytes, this`taken
      ensures Abstract() == Take(options, old(Abstract())) && frame == old(queue[0])
    {
      frame := queue[0];
      queue := queue[1..];
      var left := queuedBytes - SizeOf(options, frame);
      queuedBytes := if left < 0 then 0 else left;
      taken := taken + [frame];
    }

    method CloseSubscriber()
      modifies this`queue, this`queuedBytes, this`seen, this`seenOrder, this`lastSeq, this`done
      ensures Abstract() == Close(old(Abstract()))
    {
      queue, queuedBytes, seen, seenOrder, lastSeq, done := [], 0, {}, [], map[], true;
    }
  }

  lemma OldestLeaves(all: seq<Key>, order: seq<Key>)
    requires Distinct(all) && 0 < |order| <= |all| && order == all[|all| - |order|..]
    ensures Members(order[1..]) == Members(order) - {order[0]}
  {
    assert order == [order[0]] + order[1..];
    assert Distinct(order);
    assert order[0] !in order[1..];
  }
}
