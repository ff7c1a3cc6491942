/** Reading a whole session log in bounded chunks, packages/runtime-interface/src/session-persistence.js: the log may
    grow between chunks. */
module BoundedReader {
  import opened Prelude

  datatype Chunk<T> = Chunk(events: seq<T>) | Malformed
  datatype ReadError = InvalidResult | HistoryTooLarge

  /** `logs(k)` is the log when the k-th read is answered. */
  ghost predicate Growing<T(!new)>(logs: nat -> seq<T>) {
    forall j, k :: 0 <= j <= k ==> logs(j) <= logs(k)
  }

  /** Each answer is a stretch of the log of that moment, empty only at its end. */
  ghost predicate HonestRead<T(!new)>(logs: nat -> seq<T>, read: (nat, nat) -> Chunk<T>, size: nat) {
    forall k, offset :: HonestChunk(logs(k), read(k, offset), offset, size)
  }

  ghost predicate HonestChunk<T(!new)>(log: seq<T>, c: Chunk<T>, offset: nat, size: nat) {
    && c.Chunk? && |c.events| <= size
    && (if offset >= |log| then c.events == []
        else c.events != [] && offset + |c.events| <= |log| && c.events == log[offset..offset + |c.events|])
  }

  /** The log from an offset on. */
  function From<T>(log: seq<T>, offset: nat): seq<T> {
    if offset <= |log| then log[offset..] else []
  }

  /** The offset of the k-th read, if every earlier one was answered with a chunk. */
  function OffsetAt<T>(read: (nat, nat) -> Chunk<T>, fromSeq: nat, k: nat): (offset: nat) {
    if k == 0 then fromSeq
    else
      var before := OffsetAt(read, fromSeq, k - 1);
      var chunk := read(k - 1, before);
      if chunk.Chunk? then before + |chunk.events| else before
  }

  /** The read whose empty answer ends the loop: the first such. */
  ghost predicate LastRead<T>(read: (nat, nat) -> Chunk<T>, fromSeq: nat, last: nat) {
    && read(last, OffsetAt(read, fromSeq, last)) == Chunk([])
    && forall k: nat :: k < last ==> read(k, OffsetAt(read, fromSeq, k)) != Chunk([])
  }

  /** The read whose answer cannot be used: it is malformed, holds more than was asked for, or leads beyond the safe
      integers. */
  ghost predicate BadRead<T(!new)>(read: (nat, nat) -> Chunk<T>, fromSeq: nat, size: nat, last: nat, error: ReadError) {
    var offset := OffsetAt(read, fromSeq, last);
    var chunk := read(last, offset);
    match error
    case InvalidResult => chunk.Malformed? || |chunk.events| > size
    case HistoryTooLarge => chunk.Chunk? && offset + |chunk.events| > MAX_SAFE
  }

  /** The loop of `readFrom`. What it returns is the log as it stood at the last read. */
  method ReadFrom<T(!new)>(ghost logs: nat -> seq<T>, read: (nat, nat) -> Chunk<T>, fromSeq: nat, size: nat)
    returns (r: Result<seq<T>, ReadError>, ghost last: nat)
    requires 1 <= size && fromSeq <= MAX_SAFE
    ensures r.Ok? ==> LastRead(read, fromSeq, last)
    ensures r.Err? ==> BadRead(read, fromSeq, size, last, r.error)
    ensures r == Err(HistoryTooLarge) ==> |read(last, OffsetAt(read, fromSeq, last)).events| <= size
    ensures Growing(logs) && HonestRead(logs, read, size) && r.Ok? ==> r.value == From(logs(last), fromSeq)
    ensures Growing(logs) && HonestRead(logs, read, size) && (forall k :: |logs(k)| <= MAX_SAFE) ==> r.Ok?
  {
    hide Growing, HonestRead, ReadSoFar;
    var events: seq<T> := [];
    assert forall log: seq<T> :: ReadSoFar(log, [], fromSeq) by { EmptyRead<T>(fromSeq); }
    var offset := fromSeq;
    last := 0;
    var served: nat := 0;
    while true
      invariant offset == fromSeq + |events| && fromSeq <= offset <= MAX_SAFE && last == served
      invariant offset == OffsetAt(read, fromSeq, served)
      invariant forall k: nat :: k < served ==> read(k, OffsetAt(read, fromSeq, k)) != Chunk([])
      invariant Growing(logs) && HonestRead(logs, read, size) ==> ReadSoFar(logs(served), events, fromSeq)
      decreases MAX_SAFE - offset
    {
      var chunk := read(served, offset);
      if Growing(logs) && HonestRead(logs, read, size) { Continued(logs, read, events, fromSeq, served, size); }
      if chunk.Malformed? {
        return Err(InvalidResult), last;
      }
      if chunk.events == [] {
        break;
      }
      if |chunk.events| > size {
        return Err(InvalidResult), last;
      }
      if offset + |chunk.events| > MAX_SAFE {
        return Err(HistoryTooLarge), last;
      }
      events := events + chunk.events;
      offset := offset + |chunk.events|;
      served := served + 1;
      last := served;
    }
    return Ok(events), last;
  }

  /** What has been read is a stretch of the log; nothing yet, it may begin anywhere. */
  ghost predicate ReadSoFar<T(!new)>(log: seq<T>, events: seq<T>, fromSeq: nat) {
    events != [] ==> fromSeq + |events| <= |log| && events == log[fromSeq..fromSeq + |events|]
  }

  lemma EmptyRead<T(!new)>(fromSeq: nat)
    ensures forall log: seq<T> :: ReadSoFar(log, [], fromSeq)
  {}

  /** An honest answer continues it, or ends it at the end of the log. */
  lemma Continued<T(!new)>(logs: nat -> seq<T>, read: (nat, nat) -> Chunk<T>, events: seq<T>, fromSeq: nat,
      k: nat, size: nat)
    requires Growing(logs) && HonestRead(logs, read, size) && ReadSoFar(logs(k), events, fromSeq)
    ensures var chunk := read(k, fromSeq + |events|);
      && chunk.Chunk? && |chunk.events| <= size && ReadSoFar(logs(k + 1), events + chunk.events, fromSeq)
      && (chunk.events != [] ==> fromSeq + |events| + |chunk.events| <= |logs(k)|)
      && (chunk.events == [] ==> events == From(logs(k), fromSeq))
  {
    var offset := fromSeq + |events|;
    var chunk := read(k, offset);
    assert HonestChunk(logs(k), chunk, offset, size);
    assert logs(k) <= logs(k + 1);
    if chunk.events != [] { assert events == logs(k)[fromSeq..offset]; }
  }

  /** The first import marker, if there is one. */
  function FirstMarker<T(!new)>(log: seq<T>, marker: T -> bool): (m: Option<T>)
    ensures m.Some? ==>
      exists i :: 0 <= i < |log| && log[i] == m.value && marker(m.value) && forall j :: 0 <= j < i ==> !marker(log[j])
    ensures m.None? ==> forall j :: 0 <= j < |log| ==> !marker(log[j])
  {
    if log == [] then None
    else if marker(log[0]) then Some(log[0])
    else
      var rest := FirstMarker(log[1..], marker);
      assert rest.Some? ==> forall i :: 0 <= i < |log| - 1 && log[1..][i] == rest.value ==> log[i + 1] == rest.value;
      rest
  }

  lemma {:induction false} MarkerAppend<T(!new)>(a: seq<T>, b: seq<T>, marker: T -> bool)
    ensures FirstMarker(a + b, marker) == if FirstMarker(a, marker).Some? then FirstMarker(a, marker)
      else FirstMarker(b, marker)
  {
    if a == [] {
      assert a + b == b;
    } else {
      assert (a + b)[1..] == a[1..] + b;
      MarkerAppend(a[1..], b, marker);
    }
  }

  /** The scan of one chunk. */
  method FindMarker<T(!new)>(events: seq<T>, marker: T -> bool) returns (m: Option<T>)
    ensures m == FirstMarker(events, marker)
  {
    for i := 0 to |events|
      invariant FirstMarker(events, marker) == FirstMarker(events[i..], marker)
    {
      assert events[i..][1..] == events[i + 1..];
      if marker(events[i]) {
        return Some(events[i]);
      }
    }
    return None;
  }

  /** An honest answer continues what was seen, or that is the whole log. */
  lemma Scanned<T(!new)>(logs: nat -> seq<T>, read: (nat, nat) -> Chunk<T>, seen: seq<T>, k: nat, size: nat)
    requires Growing(logs) && HonestRead(logs, read, size) && seen <= logs(k)
    ensures var chunk := read(k, |seen|);
      && chunk.Chunk? && |chunk.events| <= size && |seen| + |chunk.events| <= |logs(k)|
      && (if chunk.events == [] then seen == logs(k) else seen + chunk.events <= logs(k + 1))
  {
    var chunk := read(k, |seen|);
    assert HonestChunk(logs(k), chunk, |seen|, size);
    assert logs(k) <= logs(k + 1);
    assert seen + chunk.events == logs(k)[..|seen| + |chunk.events|];
  }

  /** The loop of `inspectCurrent`: how many events there are, and the first marker among them. */
  method InspectEvents<T(!new)>(ghost logs: nat -> seq<T>, read: (nat, nat) -> Chunk<T>, marker: T -> bool, size: nat)
    returns (r: Result<(nat, Option<T>), ReadError>, ghost last: nat)
    requires 1 <= size
    ensures r.Ok? ==> LastRead(read, 0, last)
    ensures r.Err? ==> BadRead(read, 0, size, last, r.error)
    ensures r == Err(InvalidResult) ==> !BadRead(read, 0, size, last, HistoryTooLarge)
    ensures Growing(logs) && HonestRead(logs, read, size) && r.Ok? ==>
      r.value == (|logs(last)|, FirstMarker(logs(last), marker))
    ensures Growing(logs) && HonestRead(logs, read, size) && (forall k :: |logs(k)| <= MAX_SAFE) ==> r.Ok?
  {
    hide FirstMarker, HonestRead, Growing;
    var count: nat := 0;
    var first: Option<T> := None;
    ghost var seen: seq<T> := [];
    EmptyMarker(marker);
    last := 0;
    var served: nat := 0;
    while true
      invariant last == served && count == |seen| <= MAX_SAFE && first == FirstMarker(seen, marker)
      invariant count == OffsetAt(read, 0, served)
      invariant forall k: nat :: k < served ==> read(k, OffsetAt(read, 0, k)) != Chunk([])
      invariant Growing(logs) && HonestRead(logs, read, size) ==> seen <= logs(served)
      decreases MAX_SAFE - count
    {
      var chunk := read(served, count);
      if Growing(logs) && HonestRead(logs, read, size) { Scanned(logs, read, seen, served, size); }
      if chunk.Malformed? {
        return Err(InvalidResult), last;
      }
      if chunk.events == [] {
        break;
      }
      MarkerAppend(seen, chunk.events, marker);
      if first.None? {
        first := FindMarker(chunk.events, marker);
      }
      if count + |chunk.events| > MAX_SAFE {
        return Err(HistoryTooLarge), last;
      }
      if |chunk.events| > size {
        return Err(InvalidResult), last;
      }
      seen := seen + chunk.events;
      count := count + |chunk.events|;
      served := served + 1;
      last := served;
    }
    return Ok((count, first)), last;
  }

  lemma EmptyMarker<T(!new)>(marker: T -> bool)
    ensures FirstMarker([], marker) == None
  {}
}
