/** What the socket does with each request, cancel and turn of a read loop, said of limits, bytes and the table of
    streams. */
module StreamMuxLaws {
  import opened Prelude
  import opened FairSender
  import Fair = FairSenderRuns
  import Loads = FairSenderLaws
  import opened StreamMux
  import Runs = StreamMuxRuns

  // ---- Stream ids ------------------------------------------------------------------------------

  function DigitChar(v: nat): char
    requires v < 36
  {
    if v < 10 then '0' + v as char else 'a' + (v - 10) as char
  }

  /** How a number is written in base 36. */
  function Base36(n: nat): (s: string)
    ensures s != ""
  {
    (if n < 36 then "" else Base36(n / 36)) + [DigitChar(n % 36)]
  }

  lemma DigitLaw(c: char, v: nat)
    ensures Digit(c) == Some(v) <==> v < 36 && DigitChar(v) == c
  {}

  lemma {:induction false} WrittenReads(n: nat)
    ensures Digits36(Base36(n)) == Some(n) && (n > 0 ==> Base36(n)[0] != '0')
  {
    var s := Base36(n);
    DigitLaw(DigitChar(n % 36), n % 36);
    if n >= 36 {
      WrittenReads(n / 36);
      assert s[..|s| - 1] == Base36(n / 36);
    } else {
      assert s[..0] == "" && Digits36("") == Some(0);
      DigitLaw('0', n);
    }
  }

  lemma DivBack(m: nat, d: nat)
    requires d < 36
    ensures (m * 36 + d) / 36 == m && (m * 36 + d) % 36 == d
  {}

  /** One more digit behind a number that is not zero. */
  lemma OneMoreDigit(m: nat, d: nat)
    requires d < 36 && m > 0
    ensures Base36(m * 36 + d) == Base36(m) + [DigitChar(d)]
  {
    DivBack(m, d);
  }

  lemma FrontReads(s: string) returns (m: nat, d: nat)
    requires |s| >= 2 && Number36(s).Some?
    ensures Number36(s[..|s| - 1]) == Some(m) && d < 36 && DigitChar(d) == s[|s| - 1] && Number36(s) == Some(m * 36 + d)
  {
    m, d := Number36(s[..|s| - 1]).value, Digit(s[|s| - 1]).value;
    DigitLaw(s[|s| - 1], d);
  }

  lemma OneDigitReads(s: string)
    requires |s| == 1 && Number36(s).Some?
    ensures 1 <= Number36(s).value < 36 && s == [DigitChar(Number36(s).value)]
  {
    assert s[..0] == "" && Digits36("") == Some(0);
    DigitLaw(s[0], Number36(s).value);
    DigitLaw('0', 0);
  }

  lemma {:induction false} ReadIsWritten(s: string)
    requires Number36(s).Some?
    ensures Number36(s).value >= 1 && s == Base36(Number36(s).value)
  {
    if |s| >= 2 {
      var m, d := FrontReads(s);
      hide Number36;
      ReadIsWritten(s[..|s| - 1]);
      hide Base36, DigitChar;
      OneMoreDigit(m, d);
      assert s == s[..|s| - 1] + [s[|s| - 1]];
    } else {
      OneDigitReads(s);
    }
  }

  /** NUMERALS. A numeral is accepted exactly if it is how a positive number is written in base 36. */
  lemma Numerals(s: string, n: nat)
    ensures Number36(s) == Some(n) <==> n >= 1 && s == Base36(n)
  {
    if Number36(s) == Some(n) { ReadIsWritten(s); }
    if n >= 1 && s == Base36(n) { WrittenReads(n); }
  }

  lemma {:induction false} NoColonIn(n: nat)
    ensures ':' !in Base36(n)
  {
    if n >= 36 { NoColonIn(n / 36); }
  }

  lemma {:induction false} LastColonLaw(s: string)
    ensures var k := LastColon(s);
      (k >= 0 ==> s[k] == ':') && forall i :: k < i < |s| ==> s[i] != ':'
  {
    if s != "" && s[|s| - 1] != ':' { LastColonLaw(s[..|s| - 1]); }
  }

  /** STREAM IDS. An id is well formed exactly if it is a prefix that is not empty, a colon, and a positive safe integer
      written in base 36; the prefix may hold colons of its own. */
  lemma StreamIds(id: string, prefix: string, n: nat)
    ensures ParseId(id) == Some((prefix, n)) <==>
            prefix != "" && 1 <= n <= MAX_SAFE && id == prefix + ":" + Base36(n)
  {
    var k := LastColon(id);
    LastColonLaw(id);
    if ParseId(id) == Some((prefix, n)) {
      Numerals(id[k + 1..], n);
      assert id == id[..k] + [id[k]] + id[k + 1..];
    }
    if prefix != "" && 1 <= n <= MAX_SAFE && id == prefix + ":" + Base36(n) {
      NoColonIn(n);
      assert id[|prefix|] == ':' && id[|prefix| + 1..] == Base36(n) && id[..|prefix|] == prefix;
      forall i | |prefix| < i < |id| ensures id[i] != ':' { assert id[i] == Base36(n)[i - |prefix| - 1]; }
      assert k == |prefix|;
      Numerals(Base36(n), n);
    }
  }

  // ---- Frames of the socket's own --------------------------------------------------------------

  /** The frame exceeds a limit of its own, of its stream, or of the socket, or its send throws. */
  ghost predicate Fails(c: Config, s: Sender, id: string, frame: Item, sendThrows: bool) {
    && s.socketOpen
    && (|| Loads.TooLarge(c.limits, frame) || Loads.StreamFull(c.limits, s, id, frame)
        || Loads.SocketFull(c.limits, s, frame) || (s.flight.None? && sendThrows))
  }

  /** Everything but the sender and the history of frames is as before. */
  ghost predicate OnlyFrames(m: Mux, t: Mux) {
    t == m.(sender := t.sender, notes := t.notes, refused := t.refused, dropped := t.dropped)
  }

  /** The socket has failed: the table is empty, and who was in it with an iterator in hand has been returned. */
  ghost predicate Failed(m: Mux, t: Mux) {
    !t.open && t.streams == map[] && t.returned == m.returned + multiset(Held(m.streams)) && t.opens == m.opens
    && t.ended == m.ended && t.sender.closed
  }

  lemma ForcedAnswers(c: Config, m: Mux, id: string, frame: Item, sendThrows: bool, terminal: bool)
    requires m.open && !m.sender.closed && Fair.Invariant(c.limits, m.sender)
    ensures var t := Forced(c, m, id, frame, sendThrows, terminal);
      if Fails(c, m.sender, id, frame, sendThrows) then Failed(m, t)
      else OnlyFrames(m, t) && !t.sender.closed && t.dropped == m.dropped
           && t.notes == (if m.sender.socketOpen
                          then m.notes + [if terminal then Terminal(id, frame) else Refusal(id, frame, Over(m, id))]
                          else m.notes)
           && t.refused == (if terminal then m.refused else m.refused + {id})
  {
    Loads.Admission(c.limits, m.sender, id, frame, true, sendThrows);
    hide Enqueue, Fair.Invariant, Loads.TooLarge, Loads.StreamFull, Loads.SocketFull;
  }

  // ---- Requests --------------------------------------------------------------------------------

  /** The id is the next one of this socket: behind its prefix, with a greater number. */
  ghost predicate NextId(m: Mux, id: string, prefix: string, n: nat) {
    && prefix != "" && 1 <= n <= MAX_SAFE && id == prefix + ":" + Base36(n)
    && n > m.lastNumber && (m.prefix.Some? ==> m.prefix.value == prefix)
  }

  lemma NextIdLaw(m: Mux, id: string)
    ensures Acceptable(m, id) <==> exists prefix, n: nat :: NextId(m, id, prefix, n)
    ensures forall prefix, n: nat :: NextId(m, id, prefix, n) ==> ParseId(id) == Some((prefix, n))
  {
    if ParseId(id).Some? { StreamIds(id, ParseId(id).value.0, ParseId(id).value.1); }
    hide ParseId;
    forall prefix, n: nat | NextId(m, id, prefix, n) ensures ParseId(id) == Some((prefix, n)) {
      StreamIds(id, prefix, n);
    }
    if Acceptable(m, id) { assert NextId(m, id, ParseId(id).value.0, ParseId(id).value.1); }
  }

  /** REQUESTS. A request without an id has no answer; a malformed one is refused by an error frame; one under an id
      that is not the next one fails the socket; one the hub throws at is refused; any other opens its stream. Both last
      ones use up the id. A refusal that cannot be queued or sent fails the socket. */
  lemma Requests(c: Config, m: Mux, id: string, result: OpenResult, sendThrows: bool)
    requires Runs.Invariant(c, m) && m.open
    ensures var t := Step(c, m, OpenStream(id, result), sendThrows);
      var next := exists prefix, n: nat :: NextId(m, id, prefix, n);
      if id == "" then t == m
      else if !result.Malformed? && !next then Failed(m, t)
      else if result.Opens? then
        t == m.(prefix := t.prefix, lastNumber := t.lastNumber, streams := m.streams[id := OPENED],
          opens := m.opens + [id])
        && NextId(m, id, t.prefix.value, t.lastNumber) && id !in m.streams
      else if Fails(c, m.sender, id, c.errorFrame(id), sendThrows) then Failed(m, t)
      else id in t.refused && t.streams == m.streams && t.open && t.opens == m.opens && t.returned == m.returned
           && (result.Malformed? ==> t.prefix == m.prefix && t.lastNumber == m.lastNumber)
           && (result.Throws? ==> NextId(m, id, t.prefix.value, t.lastNumber))
  {
    NextIdLaw(m, id);
    if id != "" {
      ForcedAnswers(c, m, id, c.errorFrame(id), sendThrows, false);
      if Acceptable(m, id) {
        NumberedLaw(m, id);
        NewRecord(c, m, id);
        ForcedAnswers(c, Numbered(m, id), id, c.errorFrame(id), sendThrows, false);
      }
    }
    hide Forced, ParseId, Fails, Runs.Invariant, Fair.Invariant, NextId;
  }

  lemma NumberedLaw(m: Mux, id: string)
    requires Acceptable(m, id)
    ensures var t := Numbered(m, id);
      t.prefix.Some? && t.lastNumber >= 0 && NextId(m, id, t.prefix.value, t.lastNumber)
  {
    NextIdLaw(m, id);
    hide ParseId;
  }

  lemma NewRecord(c: Config, m: Mux, id: string)
    requires Runs.Invariant(c, m) && Acceptable(m, id)
    ensures id !in m.streams && id !in m.opens
  {
    Runs.NewIds(c, m, id);
    assert Runs.Released(m, id);
  }

  // ---- Cancels ---------------------------------------------------------------------------------

  /** CANCELS. A live stream leaves the table, nothing of it waits any more, and its iterator is returned; every other
      stream stays as it is. A cancel of anything else does nothing. */
  lemma Cancels(c: Config, m: Mux, id: string, sendThrows: bool)
    requires Runs.Invariant(c, m) && m.open
    ensures var t := Step(c, m, CancelStream(id), sendThrows);
      if id !in m.streams then t == m
      else t == m.(streams := m.streams - {id}, sender := t.sender, returned := m.returned + multiset{id},
                   dropped := m.dropped + {id})
           && QueueOf(t.sender, id).items == [] && t.sender.log == m.sender.log && t.sender.flight == m.sender.flight
           && forall k :: k != id ==> QueueOf(t.sender, k) == QueueOf(m.sender, k)
  {
    if id in m.streams {
      assert Runs.Released(m, id);
      Loads.DropLeaves(c.limits, m.sender, id);
    }
    hide Runs.Invariant, Drop;
  }

  // ---- Read loops ------------------------------------------------------------------------------

  /** Bytes of a stream's frames that wait. */
  function Waiting(s: Sender, id: string): int {
    SumBytes(QueueOf(s, id).items)
  }

  /** Whether the error frame fails once the stream's waiting frames are gone: only its frame in flight counts against
      it. */
  ghost predicate ErrorFails(c: Config, s: Sender, id: string, sendThrows: bool) {
    var bytes := c.errorFrame(id).bytes;
    && s.socketOpen
    && (|| bytes > c.limits.maxFrameBytes
        || Loads.StreamLoad(s, id) - Waiting(s, id) + bytes > c.limits.maxStreamQueuedBytes
        || Loads.Load(s, s.queues.Keys) - Waiting(s, id) + bytes > c.limits.maxSocketQueuedBytes
        || (s.flight.None? && sendThrows))
  }

  /** A live stream has ended with an error: it alone leaves the table, and its iterator is returned. */
  ghost predicate EndedAlone(m: Mux, t: Mux, id: string) {
    && t.open && t.streams == m.streams - {id} && t.returned == m.returned + multiset{id} && t.ended == m.ended
    && t.opens == m.opens && !t.sender.closed
  }

  /** The end of a stream whose frames stay: by an error, or by itself. */
  lemma Ends(c: Config, m: Mux, id: string, error: bool, sendThrows: bool)
    requires Runs.Invariant(c, m) && m.open && id in m.streams
    ensures var t := Ended(c, m, id, error, sendThrows);
      var frame := if error then c.errorFrame(id) else c.endFrame(id);
      if Fails(c, m.sender, id, frame, sendThrows)
      then !t.open && t.streams == map[] && t.returned == m.returned + multiset(m.streams.Keys)
      else t.open && t.streams == m.streams - {id} && !t.sender.closed && t.opens == m.opens
           && t.returned == m.returned + (if error then multiset{id} else multiset{})
           && t.ended == m.ended + (if error then {} else {id})
           && t.notes == (if m.sender.socketOpen then m.notes + [Terminal(id, frame)] else m.notes)
  {
    var frame := if error then c.errorFrame(id) else c.endFrame(id);
    var marked := Marked(m, id, error);
    MarkedTable(c, m, id, error);
    ForcedAnswers(c, marked, id, frame, sendThrows, true);
    hide Forced, Fails, Runs.Invariant, Fair.Invariant, Held, Marked;
  }

  lemma AllHeld(c: Config, m: Mux)
    requires Runs.Invariant(c, m)
    ensures Held(m.streams) == m.streams.Keys
  {
    forall k | k in m.streams ensures !m.streams[k].returned { assert Runs.Released(m, k); }
  }

  /** The record whose end is decided, before its last frame. */
  lemma MarkedTable(c: Config, m: Mux, id: string, error: bool)
    requires Runs.Invariant(c, m) && m.open && id in m.streams
    ensures Live(m, id) && !m.sender.closed && Fair.Invariant(c.limits, m.sender)
    ensures var t := Marked(m, id, error);
      && t == m.(streams := t.streams, returned := t.returned, ended := t.ended) && t.streams - {id} == m.streams - {id}
      && t.returned == m.returned + (if error then multiset{id} else multiset{})
      && t.returned + multiset(Held(t.streams)) == m.returned + multiset(m.streams.Keys)
      && t.ended == m.ended + (if error then {} else {id})
  {
    assert Runs.Released(m, id);
    AllHeld(c, m);
    var t := Marked(m, id, error);
    assert Held(t.streams) == m.streams.Keys - if error then {id} else {};
    hide Runs.Invariant, Runs.Released;
    assert multiset(m.streams.Keys) == multiset(m.streams.Keys - {id}) + multiset{id};
  }

  /** OWN LIMITS. A stream that exceeds a limit of its own loses what waits of it and ends with an error, and no other
      stream is touched; only if even its error frame fails does the socket. */
  lemma OwnLimits(c: Config, m: Mux, id: string, kind: OverflowKind, sendThrows: bool)
    requires Runs.Invariant(c, m) && m.open && id in m.streams && !kind.SocketOverflow?
    ensures var t := Overflowed(c, m, id, kind, sendThrows);
      if ErrorFails(c, m.sender, id, sendThrows)
      then !t.open && t.streams == map[] && t.returned == m.returned + multiset(m.streams.Keys)
      else EndedAlone(m, t, id)
  {
    assert Runs.Released(m, id);
    var d := m.(sender := Drop(m.sender, id), dropped := m.dropped + {id});
    Runs.DropShape(c, m.sender, id);
    Runs.SenderChanged(c, m, d);
    FailsAfterDrop(c, m.sender, id, sendThrows);
    hide Drop, Ended, Runs.Invariant, Fails, ErrorFails, Runs.Released;
    Ends(c, d, id, true, sendThrows);
  }

  lemma FailsAfterDrop(c: Config, s: Sender, id: string, sendThrows: bool)
    requires Fair.Invariant(c.limits, s)
    ensures Fails(c, Drop(s, id), id, c.errorFrame(id), sendThrows) <==> ErrorFails(c, s, id, sendThrows)
  {
    Loads.DropLeaves(c.limits, s, id);
    hide Drop, Fair.Invariant, Loads.Load, Loads.StreamLoad;
  }

  /** PULLS. What one turn of a live stream's loop does, by what its iterator yields and by the bytes that wait. */
  lemma Pulls(c: Config, m: Mux, id: string, item: Item, sendThrows: bool)
    requires Runs.Invariant(c, m) && m.open && id in m.streams && m.streams[id].pumping
    ensures var t := Step(c, m, Pull(id, Yields(item)), sendThrows);
      if !m.sender.socketOpen then t == m.(streams := m.streams[id := m.streams[id].(pumping := false)])
      else if Loads.TooLarge(c.limits, item) || Loads.StreamFull(c.limits, m.sender, id, item) then
        if ErrorFails(c, m.sender, id, sendThrows)
        then !t.open && t.streams == map[] && t.returned == m.returned + multiset(m.streams.Keys)
        else EndedAlone(m, t, id)
      else if Loads.SocketFull(c.limits, m.sender, item) || (m.sender.flight.None? && sendThrows)
      then !t.open && t.streams == map[] && t.returned == m.returned + multiset(m.streams.Keys)
      else OnlyFrames(m, t) && t.notes == m.notes + [Frame(id, item)] && !t.sender.closed
  {
    assert Runs.Released(m, id);
    Loads.Admission(c.limits, m.sender, id, item, false, sendThrows);
    var (s, r) := Enqueue(c.limits, m.sender, id, item, false, sendThrows);
    hide Fair.Invariant, Loads.TooLarge, Loads.StreamFull, Loads.SocketFull, Held, Runs.Released, Loads.Load, Enqueue;
    match r
    case Overflow(kind) => OverflowedPull(c, m, s, id, item, kind, sendThrows);
    case Accepted => AllHeld(c, m);
    case _ =>
  }

  lemma OverflowedPull(c: Config, m: Mux, s: Sender, id: string, item: Item, kind: OverflowKind, sendThrows: bool)
    requires Runs.Invariant(c, m) && m.open && id in m.streams
    requires Enqueue(c.limits, m.sender, id, item, false, sendThrows) == (s, Overflow(kind))
    ensures var t := Overflowed(c, m.(sender := s), id, kind, sendThrows);
      if kind.SocketOverflow? || ErrorFails(c, m.sender, id, sendThrows)
      then !t.open && t.streams == map[] && t.returned == m.returned + multiset(m.streams.Keys)
      else EndedAlone(m, t, id)
  {
    hide Enqueue, Fair.Invariant, ErrorFails, Runs.Released, Held;
    if kind.SocketOverflow? {
      AllHeld(c, m);
    } else {
      hide Overflowed, Runs.Invariant;
      OwnOverflow(c, m, s, id, item, kind, sendThrows);
    }
  }

  /** The overflow of the stream itself, behind the enqueue that found it. */
  lemma OwnOverflow(c: Config, m: Mux, s: Sender, id: string, item: Item, kind: OverflowKind, sendThrows: bool)
    requires Runs.Invariant(c, m) && m.open && id in m.streams && !kind.SocketOverflow?
    requires Enqueue(c.limits, m.sender, id, item, false, sendThrows) == (s, Overflow(kind))
    ensures var t := Overflowed(c, m.(sender := s), id, kind, sendThrows);
      if ErrorFails(c, m.sender, id, sendThrows)
      then !t.open && t.streams == map[] && t.returned == m.returned + multiset(m.streams.Keys)
      else EndedAlone(m, t, id)
  {
    var n := m.(sender := s);
    Loads.Admission(c.limits, m.sender, id, item, false, sendThrows);
    Runs.EnqueueShape(c, m.sender, id, item, false, sendThrows);
    Runs.SenderChanged(c, m, n);
    SameLoads(c, m.sender, s, id, sendThrows);
    hide Enqueue, Overflowed, Fair.Invariant, Runs.Invariant, ErrorFails;
    OwnLimits(c, n, id, kind, sendThrows);
  }

  lemma SameLoads(c: Config, s: Sender, t: Sender, id: string, sendThrows: bool)
    requires Fair.Invariant(c.limits, s) && Fair.Invariant(c.limits, t)
    requires t.queuedBytes == s.queuedBytes && t.socketOpen == s.socketOpen && t.flight == s.flight
    requires QueueOf(t, id) == QueueOf(s, id)
    ensures ErrorFails(c, t, id, sendThrows) <==> ErrorFails(c, s, id, sendThrows)
  {
    Loads.CountsAreLoads(c.limits, s, id);
    Loads.CountsAreLoads(c.limits, t, id);
    hide Fair.Invariant, Loads.Load, Loads.StreamLoad;
  }
}
