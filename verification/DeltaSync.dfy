/** Bounded reads of a session's durable log: the delta reader, the event fitter and the history reader of
    packages/mobile-stream-compat-rc1/src/index.js. The official controller is a snapshot and a page function; the
    readers trust neither, and say what they return when both are honest about one append-only log. */
module DeltaSync {
  import opened Prelude

  /** A durable event; a shell has no body. */
  datatype Event = Event(seqNo: int, body: Option<string>)

  datatype Opening = Opening(cursor: int, records: seq<Event>, hasMore: bool)
  datatype Page = Page(records: seq<Event>, hasMore: bool) | InvalidPage

  datatype Reason =
    | CursorRegressed | TruncatedSnapshot | TruncatedPage | ScanLimit | StalledCursor | UnusableCursor
    | UnsupportedRecord | DuplicateConflict | InvalidHistoryPage

  datatype Delta = Delta(throughSeq: int, lastSeq: int, caughtUp: bool, scanLimitReached: bool, events: seq<Event>,
    baseline: Option<Reason>)

  // ---- Logs ------------------------------------------------------------------------------------

  predicate Ascending(s: seq<Event>) {
    forall i, j :: 0 <= i < j < |s| ==> s[i].seqNo < s[j].seqNo
  }

  predicate IsLog(log: seq<Event>) {
    Ascending(log) && forall i :: 0 <= i < |log| ==> SafeInt(log[i].seqNo, 0)
  }

  function Last(log: seq<Event>): int {
    if log == [] then -1 else log[|log| - 1].seqNo
  }

  /** The events after a seq. */
  function After(log: seq<Event>, seqNo: int): seq<Event> {
    if log == [] || log[|log| - 1].seqNo <= seqNo then []
    else After(log[..|log| - 1], seqNo) + [log[|log| - 1]]
  }

  /** The events below a seq. */
  function Below(log: seq<Event>, seqNo: int): seq<Event> {
    if log == [] then []
    else if log[|log| - 1].seqNo < seqNo then log
    else Below(log[..|log| - 1], seqNo)
  }

  lemma {:induction false} AfterShape(log: seq<Event>, seqNo: int)
    requires Ascending(log)
    ensures Ascending(After(log, seqNo)) && forall e :: e in After(log, seqNo) <==> e in log && e.seqNo > seqNo
  {
    if log != [] {
      var n := |log| - 1;
      AfterShape(log[..n], seqNo);
      assert log == log[..n] + [log[n]];
      assert forall e :: e in log[..n] ==> e.seqNo < log[n].seqNo;
    }
  }

  lemma {:induction false} BelowShape(log: seq<Event>, seqNo: int)
    requires Ascending(log)
    ensures Below(log, seqNo) <= log
    ensures forall e :: e in Below(log, seqNo) <==> e in log && e.seqNo < seqNo
  {
    if log != [] {
      var n := |log| - 1;
      BelowShape(log[..n], seqNo);
      assert log == log[..n] + [log[n]];
      assert forall e :: e in log[..n] ==> e.seqNo < log[n].seqNo;
    }
  }

  ghost predicate SameEvents(a: seq<Event>, b: seq<Event>) {
    forall e :: e in a <==> e in b
  }

  lemma LastAgrees(a: seq<Event>, b: seq<Event>)
    requires Ascending(a) && Ascending(b) && SameEvents(a, b) && a != [] && b != []
    ensures a[|a| - 1] == b[|b| - 1]
  {
    var x, y := a[|a| - 1], b[|b| - 1];
    assert x in b && y in a;
    assert x.seqNo <= y.seqNo && y.seqNo <= x.seqNo;
  }

  lemma {:induction false} AscendingUnique(a: seq<Event>, b: seq<Event>)
    requires Ascending(a) && Ascending(b) && SameEvents(a, b)
    ensures a == b
  {
    if a != [] && b != [] {
      var n, m := |a| - 1, |b| - 1;
      LastAgrees(a, b);
      assert a == a[..n] + [a[n]] && b == b[..m] + [b[m]];
      forall e ensures e in a[..n] <==> e in b[..m] {
        assert e in a[..n] <==> e in a && e != a[n];
        assert e in b[..m] <==> e in b && e != b[m];
      }
      AscendingUnique(a[..n], b[..m]);
    } else {
      NonEmptyTogether(a, b);
      NonEmptyTogether(b, a);
    }
  }

  lemma NonEmptyTogether(a: seq<Event>, b: seq<Event>)
    requires SameEvents(a, b)
    ensures a != [] ==> b != []
  {
    if a != [] {
      assert a[0] in b;
    }
  }

  lemma PrefixBySeq(s: seq<Event>, n: nat, e: Event)
    requires Ascending(s) && 0 < n <= |s|
    ensures e in s[..n] <==> e in s && e.seqNo <= s[n - 1].seqNo
  {
    if e in s && e.seqNo <= s[n - 1].seqNo {
      var i :| 0 <= i < |s| && s[i] == e;
      assert i < n;
      assert s[..n][i] == e;
    }
  }

  // ---- Honesty ---------------------------------------------------------------------------------

  /** The records are exactly the log's events from `lo` up to `hi`, in any order and with any repetition. */
  ghost predicate Covers(records: seq<Event>, log: seq<Event>, lo: int, hi: int) {
    forall e :: e in records <==> e in log && lo <= e.seqNo < hi
  }

  ghost predicate HasBelow(log: seq<Event>, seqNo: int) {
    exists e :: e in log && e.seqNo < seqNo
  }

  /** The newest events below a bound, and whether there are older ones. */
  ghost predicate HonestRecords(log: seq<Event>, records: seq<Event>, hasMore: bool, bound: int) {
    exists lo :: lo <= bound && Covers(records, log, lo, bound) && (hasMore <==> HasBelow(log, lo))
  }

  ghost predicate HonestOpening(log: seq<Event>, o: Opening) {
    o.cursor == Last(log) && HonestRecords(log, o.records, o.hasMore, MAX_SAFE + 1)
  }

  ghost predicate HonestPage(log: seq<Event>, beforeSeq: int, p: Page) {
    p.Page? ==> HonestRecords(log, p.records, p.hasMore, beforeSeq)
  }

  /** The controller answers about one log throughout the call. */
  ghost predicate Honest(log: seq<Event>, o: Opening, page: int -> Page) {
    IsLog(log) && HonestOpening(log, o) && forall b :: HonestPage(log, b, page(b))
  }

  /** It also never returns an empty or malformed answer while it holds older events. */
  ghost predicate Live(log: seq<Event>, o: Opening, page: int -> Page) {
    && Honest(log, o, page)
    && (log != [] ==> o.records != [])
    && forall b :: page(b).Page? && (page(b).hasMore ==> page(b).records != [])
  }

  // ---- Decoding and sorting --------------------------------------------------------------------

  /** `decodeHistoryRecords`: the first bad record decides the reason. */
  function Decode(records: seq<Event>, throughSeq: int, beforeSeq: Option<int>): Result<seq<Event>, Reason> {
    if records == [] then Ok([])
    else
      var first := records[0].seqNo;
      if !SafeInt(first, 0) || first > throughSeq then Err(UnsupportedRecord)
      else if beforeSeq.Some? && first >= beforeSeq.value then Err(UnusableCursor)
      else match Decode(records[1..], throughSeq, beforeSeq)
        case Err(reason) => Err(reason)
        case Ok(rest) => Ok([records[0]] + rest)
  }

  lemma {:induction false} DecodeShape(records: seq<Event>, throughSeq: int, beforeSeq: Option<int>)
    ensures match Decode(records, throughSeq, beforeSeq)
      case Ok(entries) => entries == records && forall e :: e in entries ==>
        SafeInt(e.seqNo, 0) && e.seqNo <= throughSeq && (beforeSeq.Some? ==> e.seqNo < beforeSeq.value)
      case Err(_) => exists e ::
        e in records && (!SafeInt(e.seqNo, 0) || e.seqNo > throughSeq
          || (beforeSeq.Some? && e.seqNo >= beforeSeq.value))
  {
    if records != [] {
      DecodeShape(records[1..], throughSeq, beforeSeq);
      assert records == [records[0]] + records[1..];
    }
  }

  /** A record can be used: its seq is one, not beyond the log's end, and below the page's bound. */
  predicate Usable(e: Event, throughSeq: int, beforeSeq: Option<int>) {
    0 <= e.seqNo <= MAX_SAFE && e.seqNo <= throughSeq && (beforeSeq.Some? ==> e.seqNo < beforeSeq.value)
  }

  predicate AllUsable(records: seq<Event>, throughSeq: int, beforeSeq: Option<int>) {
    forall i :: 0 <= i < |records| ==> Usable(records[i], throughSeq, beforeSeq)
  }

  /** Record `k` is the first that cannot be used, for this reason. */
  predicate FirstUnusable(records: seq<Event>, throughSeq: int, beforeSeq: Option<int>, k: nat, reason: Reason) {
    && k < |records| && (forall i :: 0 <= i < k ==> Usable(records[i], throughSeq, beforeSeq))
    && !Usable(records[k], throughSeq, beforeSeq)
    && reason == if 0 <= records[k].seqNo <= MAX_SAFE && records[k].seqNo <= throughSeq then UnusableCursor
                 else UnsupportedRecord
  }

  ghost predicate Unusable(records: seq<Event>, throughSeq: int, beforeSeq: Option<int>, reason: Reason) {
    exists k: nat :: FirstUnusable(records, throughSeq, beforeSeq, k, reason)
  }

  lemma UnusableIsNot(records: seq<Event>, throughSeq: int, beforeSeq: Option<int>)
    ensures forall reason :: Unusable(records, throughSeq, beforeSeq, reason) ==>
      !AllUsable(records, throughSeq, beforeSeq)
  {}

  /** The records are taken as they are if all can be used; otherwise the first that cannot be decides the reason. */
  lemma {:induction false} DecodeReason(records: seq<Event>, throughSeq: int, beforeSeq: Option<int>)
    ensures match Decode(records, throughSeq, beforeSeq)
      case Ok(entries) => entries == records && AllUsable(records, throughSeq, beforeSeq)
      case Err(reason) => Unusable(records, throughSeq, beforeSeq, reason)
  {
    if records != [] {
      var rest := records[1..];
      DecodeReason(rest, throughSeq, beforeSeq);
      assert records == [records[0]] + rest;
      if !Usable(records[0], throughSeq, beforeSeq) {
        assert FirstUnusable(records, throughSeq, beforeSeq, 0, Decode(records, throughSeq, beforeSeq).error);
      } else if Decode(rest, throughSeq, beforeSeq).Err? {
        var reason := Decode(rest, throughSeq, beforeSeq).error;
        var k: nat :| FirstUnusable(rest, throughSeq, beforeSeq, k, reason);
        forall i | 0 <= i < k + 1 ensures Usable(records[i], throughSeq, beforeSeq) {
          if i > 0 { assert records[i] == rest[i - 1]; }
        }
        assert FirstUnusable(records, throughSeq, beforeSeq, k + 1, reason);
      }
    }
  }

  /** The smallest seq of a non-empty list. */
  function MinSeq(entries: seq<Event>): (m: int)
    requires entries != []
    ensures (exists e :: e in entries && e.seqNo == m) && forall e :: e in entries ==> m <= e.seqNo
  {
    if |entries| == 1 then entries[0].seqNo
    else
      assert entries == [entries[0]] + entries[1..];
      var rest := MinSeq(entries[1..]);
      if entries[0].seqNo < rest then entries[0].seqNo else rest
  }

  function MaxSeq(entries: seq<Event>): (m: int)
    requires entries != []
    ensures (exists e :: e in entries && e.seqNo == m) && forall e :: e in entries ==> e.seqNo <= m
  {
    if |entries| == 1 then entries[0].seqNo
    else
      assert entries == [entries[0]] + entries[1..];
      var rest := MaxSeq(entries[1..]);
      if entries[0].seqNo > rest then entries[0].seqNo else rest
  }

  function Insert(sorted: seq<Event>, e: Event): seq<Event> {
    if sorted == [] then [e]
    else if e.seqNo < sorted[|sorted| - 1].seqNo then Insert(sorted[..|sorted| - 1], e) + [sorted[|sorted| - 1]]
    else sorted + [e]
  }

  /** The stable sort by seq. */
  function SortBySeq(s: seq<Event>): seq<Event> {
    if s == [] then [] else Insert(SortBySeq(s[..|s| - 1]), s[|s| - 1])
  }

  predicate SeqsDistinct(s: seq<Event>) {
    forall i, j :: 0 <= i < j < |s| ==> s[i].seqNo != s[j].seqNo
  }

  lemma AscendingAppend(front: seq<Event>, e: Event)
    requires Ascending(front) && forall x :: x in front ==> x.seqNo < e.seqNo
    ensures Ascending(front + [e])
  {
    forall i, j | 0 <= i < j < |front| + 1 ensures (front + [e])[i].seqNo < (front + [e])[j].seqNo {
      if j == |front| { assert front[i] in front; }
    }
  }

  lemma {:induction false} InsertShape(sorted: seq<Event>, e: Event)
    requires Ascending(sorted) && forall x :: x in sorted ==> x.seqNo != e.seqNo
    ensures Ascending(Insert(sorted, e)) && forall x :: x in Insert(sorted, e) <==> x == e || x in sorted
  {
    if sorted != [] {
      var front, last := sorted[..|sorted| - 1], sorted[|sorted| - 1];
      assert sorted == front + [last];
      assert forall x :: x in front ==> x.seqNo < last.seqNo;
      if e.seqNo < last.seqNo {
        InsertShape(front, e);
        AscendingAppend(Insert(front, e), last);
      } else {
        assert last in sorted;
        AscendingAppend(sorted, e);
      }
    }
  }

  lemma {:induction false} SortShape(s: seq<Event>)
    requires SeqsDistinct(s)
    ensures Ascending(SortBySeq(s)) && forall x :: x in SortBySeq(s) <==> x in s
  {
    if s != [] {
      var n := |s| - 1;
      assert s == s[..n] + [s[n]];
      SortShape(s[..n]);
      assert forall x :: x in s[..n] ==> x.seqNo != s[n].seqNo;
      InsertShape(SortBySeq(s[..n]), s[n]);
    }
  }

  predicate InRange(e: Event, afterSeq: int, throughSeq: int) {
    afterSeq < e.seqNo <= throughSeq
  }

  ghost predicate Conflict(entries: seq<Event>, afterSeq: int, throughSeq: int) {
    exists a, b :: a in entries && b in entries && a != b && a.seqNo == b.seqNo && InRange(a, afterSeq, throughSeq)
  }

  /** `dedupeAndSort`: one entry per seq in range, or a conflict. */
  method DedupeAndSort(entries: seq<Event>, afterSeq: int, throughSeq: int) returns (r: Result<seq<Event>, Reason>)
    ensures if Conflict(entries, afterSeq, throughSeq) then r == Err(DuplicateConflict)
            else r.Ok? && Ascending(r.value)
                 && forall e :: e in r.value <==> e in entries && InRange(e, afterSeq, throughSeq)
  {
    var bySeq: map<int, Event> := map[];
    var values: seq<Event> := [];
    for i := 0 to |entries|
      invariant forall e :: e in values <==> e in entries[..i] && InRange(e, afterSeq, throughSeq)
      invariant SeqsDistinct(values)
      invariant forall k :: k in bySeq <==> exists e :: e in values && e.seqNo == k
      invariant forall e :: e in values ==> bySeq[e.seqNo] == e
    {
      var entry := entries[i];
      assert entries[..i + 1] == entries[..i] + [entry];
      if InRange(entry, afterSeq, throughSeq) {
        if entry.seqNo in bySeq {
          var previous := bySeq[entry.seqNo];
          if previous != entry {
            assert previous in entries && entry in entries;
            return Err(DuplicateConflict);
          }
        } else {
          bySeq := bySeq[entry.seqNo := entry];
          values := values + [entry];
        }
      }
    }
    assert entries[..|entries|] == entries;
    assert !Conflict(entries, afterSeq, throughSeq) by {
      forall a, b | a in entries && b in entries && a.seqNo == b.seqNo && InRange(a, afterSeq, throughSeq)
        ensures a == b {
        assert bySeq[a.seqNo] == a && bySeq[b.seqNo] == b;
      }
    }
    SortShape(values);
    return Ok(SortBySeq(values));
  }

  // ---- The delta reader ------------------------------------------------------------------------

  /** How many pages a scan from `b` reads before it reaches `afterSeq` or the log's origin. */
  ghost function ScanLength(page: int -> Page, b: int, afterSeq: int): nat
    decreases b
  {
    var p := page(b);
    if p.Page? && p.hasMore && p.records != [] && afterSeq < MinSeq(p.records) < b && 0 <= MinSeq(p.records) then
      1 + ScanLength(page, MinSeq(p.records), afterSeq)
    else 1
  }

  /** The scan a snapshot calls for; none if its own records reach far enough. */
  ghost function PagesNeeded(o: Opening, page: int -> Page, afterSeq: int): nat {
    if o.records == [] || !o.hasMore || afterSeq >= o.cursor || MinSeq(o.records) <= afterSeq then 0
    else ScanLength(page, MinSeq(o.records), afterSeq)
  }

  datatype Scan = Scan(records: seq<Event>, beforeSeq: int, hasMore: bool)

  /** What a scan has gathered: everything from `beforeSeq` on, and whether anything is older. */
  ghost predicate Gathered(log: seq<Event>, s: Scan) {
    && (forall e :: e in s.records <==> e in log && e.seqNo >= s.beforeSeq)
    && (s.hasMore <==> HasBelow(log, s.beforeSeq))
  }

  lemma GatheredOpening(log: seq<Event>, o: Opening)
    requires IsLog(log) && HonestOpening(log, o) && o.records != []
    ensures Gathered(log, Scan(o.records, MinSeq(o.records), o.hasMore)) && MaxSeq(o.records) == o.cursor
  {
    var lo :| lo <= MAX_SAFE + 1 && Covers(o.records, log, lo, MAX_SAFE + 1) && (o.hasMore <==> HasBelow(log, lo));
    var b := MinSeq(o.records);
    assert lo <= b;
    forall e | e in log && e.seqNo >= lo ensures e.seqNo >= b {
      assert e in o.records;
    }
    if log != [] {
      var last := log[|log| - 1];
      assert last in log;
      assert forall e :: e in log ==> e.seqNo <= last.seqNo;
      assert last in o.records;
    }
  }

  lemma GatheredPage(log: seq<Event>, s: Scan, p: Page)
    requires IsLog(log) && Gathered(log, s) && p.Page? && HonestPage(log, s.beforeSeq, p)
    ensures p.records != [] ==>
      MinSeq(p.records) < s.beforeSeq && Gathered(log, Scan(s.records + p.records, MinSeq(p.records), p.hasMore))
    ensures p.records == [] && !p.hasMore ==> Gathered(log, s.(hasMore := false))
  {
    var lo :| lo <= s.beforeSeq && Covers(p.records, log, lo, s.beforeSeq) && (p.hasMore <==> HasBelow(log, lo));
    if p.records != [] {
      var b := MinSeq(p.records);
      var gathered := s.records + p.records;
      forall e ensures e in gathered <==> e in log && e.seqNo >= b {
        assert e in gathered <==> e in s.records || e in p.records;
      }
      if HasBelow(log, b) {
        var e :| e in log && e.seqNo < b;
        assert e !in p.records;
      }
    }
  }

  /** `baselineRecovery`. */
  function Recovery(afterSeq: int, lastSeq: int, reason: Reason): Delta {
    Delta(afterSeq, lastSeq, false, reason.ScanLimit?, [], Some(reason))
  }

  // ---- The course of a scan --------------------------------------------------------------------

  predicate IsLeast(m: int, records: seq<Event>) {
    (exists i :: 0 <= i < |records| && records[i].seqNo == m) && forall i :: 0 <= i < |records| ==>
      m <= records[i].seqNo
  }

  /** The page below bound `b` leads on to the bound `next`: all of its records can be used, `next` is their least seq,
      it is still beyond `afterSeq`, and there is more. */
  predicate LeadsOn(page: int -> Page, cursor: int, afterSeq: int, b: int, next: int) {
    var p := page(b);
    p.Page? && p.hasMore && AllUsable(p.records, cursor, Some(b)) && IsLeast(next, p.records) && next > afterSeq
  }

  /** The bounds a scan asks below, one page after the other. */
  predicate Course(page: int -> Page, cursor: int, afterSeq: int, bounds: seq<int>) {
    bounds != [] && forall i :: 0 <= i < |bounds| - 1 ==> LeadsOn(page, cursor, afterSeq, bounds[i], bounds[i + 1])
  }

  /** The records of the pages below these bounds. */
  function PageRecords(page: int -> Page, bounds: seq<int>): seq<Event> {
    if bounds == [] then [] else PageRecords(page, bounds[..|bounds| - 1]) + RecordsOf(page(bounds[|bounds| - 1]))
  }

  function RecordsOf(p: Page): seq<Event> {
    if p.Page? then p.records else []
  }

  /** The page below the last bound ends the scan: nothing in it is older than asked for, or nothing older is left. */
  ghost predicate Arrives(page: int -> Page, cursor: int, afterSeq: int, b: int) {
    var p := page(b);
    && p.Page? && AllUsable(p.records, cursor, Some(b))
    && ((exists next :: IsLeast(next, p.records) && next <= afterSeq) || !p.hasMore)
    && (p.records == [] ==> !p.hasMore)
  }

  /** The scan gives up at bound `b`, after `read` pages, for this reason. */
  ghost predicate GivesUp(page: int -> Page, cursor: int, b: int, read: nat, maxScanPages: nat, reason: Reason) {
    var p := page(b);
    if read >= maxScanPages then reason == ScanLimit
    else if p.InvalidPage? then reason == InvalidHistoryPage
    else if !AllUsable(p.records, cursor, Some(b)) then Unusable(p.records, cursor, Some(b), reason)
    else p.records == [] && p.hasMore && reason == TruncatedPage
  }

  /** How a scan from the first of these bounds ends at the last of them. */
  ghost predicate Ends(page: int -> Page, cursor: int, afterSeq: int, maxScanPages: nat, bounds: seq<int>,
      before: seq<Event>, r: Result<seq<Event>, Reason>)
  {
    && Course(page, cursor, afterSeq, bounds) && |bounds| - 1 <= maxScanPages
    && match r
       case Err(reason) => GivesUp(page, cursor, bounds[|bounds| - 1], |bounds| - 1, maxScanPages, reason)
       case Ok(records) =>
         && |bounds| - 1 < maxScanPages && Arrives(page, cursor, afterSeq, bounds[|bounds| - 1])
         && records == before + PageRecords(page, bounds)
  }

  lemma LeastIsMin(entries: seq<Event>)
    requires entries != []
    ensures IsLeast(MinSeq(entries), entries)
  {
    var m := MinSeq(entries);
    var e :| e in entries && e.seqNo == m;
    assert forall i :: 0 <= i < |entries| ==> entries[i] in entries;
  }

  /** The page loop. On success the scan has reached `afterSeq` or the origin. */
  method ScanPages(ghost log: seq<Event>, opening: Opening, page: int -> Page, afterSeq: int, maxScanPages: nat,
      start: Scan)
    returns (r: Result<Scan, Reason>, ghost bounds: seq<int>)
    requires start.beforeSeq > afterSeq && start.hasMore && 0 <= start.beforeSeq
    ensures bounds != [] && bounds[0] == start.beforeSeq
    ensures Ends(page, opening.cursor, afterSeq, maxScanPages, bounds, start.records,
      if r.Ok? then Ok(r.value.records) else Err(r.error))
    ensures r.Ok? ==> r.value.beforeSeq <= afterSeq || !r.value.hasMore
    ensures Honest(log, opening, page) && Gathered(log, start) && r.Ok? ==> Gathered(log, r.value)
    ensures Live(log, opening, page) && Gathered(log, start) ==>
      (r.Err? <==> ScanLength(page, start.beforeSeq, afterSeq) > maxScanPages) && (r.Err? ==> r.error.ScanLimit?)
  {
    hide Unusable, GivesUp, Arrives, LeadsOn, Live, Honest, Gathered, Course, PageRecords, Decode, ScanLength;
    var s := start;
    var reached := false;
    var pageIndex := 0;
    ghost var read: seq<int> := [];
    bounds := [s.beforeSeq];
    CourseStarts(page, opening.cursor, afterSeq, s.beforeSeq);
    while !reached && s.hasMore
      invariant 0 <= s.beforeSeq && pageIndex <= maxScanPages
      invariant reached ==> s.beforeSeq <= afterSeq || !s.hasMore
      invariant !reached ==> s.beforeSeq > afterSeq
      invariant Course(page, opening.cursor, afterSeq, bounds) && bounds != [] && bounds[0] == start.beforeSeq
      invariant pageIndex == |read| && bounds == if reached then read else read + [s.beforeSeq]
      invariant if reached then Arrives(page, opening.cursor, afterSeq, bounds[|bounds| - 1]) else s.hasMore
      invariant s.records == start.records + PageRecords(page, read)
      invariant Honest(log, opening, page) && Gathered(log, start) ==> Gathered(log, s)
      invariant Live(log, opening, page) && Gathered(log, start) ==>
        pageIndex + (if !reached && s.hasMore then ScanLength(page, s.beforeSeq, afterSeq) else 0)
          == ScanLength(page, start.beforeSeq, afterSeq)
      decreases maxScanPages - pageIndex
    {
      if pageIndex >= maxScanPages {
        LimitGivesUp(page, opening.cursor, s.beforeSeq, afterSeq, pageIndex, maxScanPages);
        return Err(ScanLimit), bounds;
      }
      var p := page(s.beforeSeq);
      PageLaw(log, opening, page, s, afterSeq, pageIndex, maxScanPages);
      if p.InvalidPage? {
        return Err(InvalidHistoryPage), bounds;
      }
      var decoded := Decode(p.records, opening.cursor, Some(s.beforeSeq));
      if decoded.Err? {
        return Err(decoded.error), bounds;
      }
      if p.records == [] && p.hasMore {
        return Err(TruncatedPage), bounds;
      }
      PagesGrow(page, read, s.beforeSeq, start.records);
      read := read + [s.beforeSeq];
      if p.records != [] {
        var next := MinSeq(p.records);
        if next >= s.beforeSeq {
          return Err(StalledCursor), bounds;
        }
        s := Scan(s.records + p.records, next, p.hasMore);
        reached := next <= afterSeq;
      } else {
        s := s.(hasMore := false);
      }
      pageIndex := pageIndex + 1;
      if !s.hasMore {
        reached := true;
      }
      if !reached {
        CourseGrows(page, opening.cursor, afterSeq, bounds, s.beforeSeq);
        bounds := bounds + [s.beforeSeq];
      }
    }
    return Ok(s), bounds;
  }

  lemma CourseStarts(page: int -> Page, cursor: int, afterSeq: int, b: int)
    ensures Course(page, cursor, afterSeq, [b]) && PageRecords(page, []) == []
  {}

  lemma CourseGrows(page: int -> Page, cursor: int, afterSeq: int, bounds: seq<int>, next: int)
    requires Course(page, cursor, afterSeq, bounds) && bounds != []
      && LeadsOn(page, cursor, afterSeq, bounds[|bounds| - 1], next)
    ensures Course(page, cursor, afterSeq, bounds + [next])
  {
    hide LeadsOn;
  }

  lemma PagesGrow(page: int -> Page, read: seq<int>, b: int, before: seq<Event>)
    ensures before + PageRecords(page, read + [b]) == before + PageRecords(page, read) + RecordsOf(page(b))
  {
    assert (read + [b])[..|read|] == read;
  }

  lemma LimitGivesUp(page: int -> Page, cursor: int, b: int, afterSeq: int, read: nat, maxScanPages: nat)
    requires read >= maxScanPages
    ensures GivesUp(page, cursor, b, read, maxScanPages, ScanLimit) && ScanLength(page, b, afterSeq) >= 1
  {}

  /** What the page below a bound does to a scan. */
  lemma PageLaw(log: seq<Event>, o: Opening, page: int -> Page, s: Scan, afterSeq: int, read: nat, maxScanPages: nat)
    requires read < maxScanPages && s.hasMore && s.beforeSeq > afterSeq
    ensures var p, b := page(s.beforeSeq), s.beforeSeq;
      if p.InvalidPage? then
        GivesUp(page, o.cursor, b, read, maxScanPages, InvalidHistoryPage) && !Live(log, o, page)
      else match Decode(p.records, o.cursor, Some(b))
        case Err(reason) => GivesUp(page, o.cursor, b, read, maxScanPages, reason) && !Honest(log, o, page)
        case Ok(_) =>
          if p.records == [] && p.hasMore then
            GivesUp(page, o.cursor, b, read, maxScanPages, TruncatedPage) && !Live(log, o, page)
          else if p.records == [] then
            Arrives(page, o.cursor, afterSeq, b) && ScanLength(page, b, afterSeq) == 1
            && (Honest(log, o, page) && Gathered(log, s) ==> Gathered(log, s.(hasMore := false)))
          else
            var next := MinSeq(p.records);
            && next < b && 0 <= next
            && (if p.hasMore && next > afterSeq then
                  LeadsOn(page, o.cursor, afterSeq, b, next)
                  && ScanLength(page, b, afterSeq) == 1 + ScanLength(page, next, afterSeq)
                else Arrives(page, o.cursor, afterSeq, b) && ScanLength(page, b, afterSeq) == 1)
            && (Honest(log, o, page) && Gathered(log, s) ==>
                  Gathered(log, Scan(s.records + p.records, next, p.hasMore)))
    ensures Live(log, o, page) ==> Honest(log, o, page)
  {
    var p, b := page(s.beforeSeq), s.beforeSeq;
    if p.Page? {
      DecodeReason(p.records, o.cursor, Some(b));
      if Decode(p.records, o.cursor, Some(b)).Ok? {
        UsableLaw(p.records, o.cursor, b);
        if Honest(log, o, page) && Gathered(log, s) {
          assert HonestPage(log, b, p);
          GatheredPage(log, s, p);
        }
        hide Gathered, Honest, AllUsable;
      } else if Honest(log, o, page) {
        assert HonestPage(log, b, p);
        HonestPageDecodes(log, o, b, p);
      }
    }
  }

  lemma UsableLaw(records: seq<Event>, cursor: int, b: int)
    requires AllUsable(records, cursor, Some(b))
    ensures records != [] ==> 0 <= MinSeq(records) < b && IsLeast(MinSeq(records), records)
  {
    if records != [] {
      LeastIsMin(records);
    }
  }

  lemma HonestPageDecodes(log: seq<Event>, o: Opening, b: int, p: Page)
    ensures IsLog(log) && HonestOpening(log, o) && p.Page? && HonestPage(log, b, p) ==>
      Decode(p.records, o.cursor, Some(b)).Ok?
  {
    if IsLog(log) && HonestOpening(log, o) && p.Page? && HonestPage(log, b, p) {
      DecodeShape(p.records, o.cursor, Some(b));
      assert forall e :: e in log ==> SafeInt(e.seqNo, 0) && e.seqNo <= Last(log);
    }
  }

  /** What a delta without recovery promises about the log. */
  ghost predicate DeltaOf(log: seq<Event>, afterSeq: int, limit: nat, d: Delta) {
    var due := After(log, afterSeq);
    var events := if |due| <= limit then due else due[..limit];
    && d.baseline.None? && afterSeq <= Last(log) && d.events == events
    && d.lastSeq == Last(log)
    && d.throughSeq == (if events == [] then afterSeq else events[|events| - 1].seqNo)
    && (d.caughtUp <==> d.throughSeq >= d.lastSeq)
  }

  lemma HonestOpeningDecodes(log: seq<Event>, o: Opening)
    ensures IsLog(log) && HonestOpening(log, o) ==> Decode(o.records, o.cursor, None).Ok?
  {
    if IsLog(log) && HonestOpening(log, o) {
      DecodeShape(o.records, o.cursor, None);
      assert forall e :: e in log ==> SafeInt(e.seqNo, 0) && e.seqNo <= Last(log);
    }
  }

  lemma HonestEmptyOpening(log: seq<Event>, o: Opening)
    ensures IsLog(log) && HonestOpening(log, o) && log == [] ==> !o.hasMore && o.cursor == -1
  {}

  /** Every due event is among the records. */
  ghost predicate HoldsDue(log: seq<Event>, records: seq<Event>, afterSeq: int) {
    (forall e :: e in records ==> e in log) && forall e :: e in log && e.seqNo > afterSeq ==> e in records
  }

  lemma GatheredReaches(log: seq<Event>, s: Scan, afterSeq: int, cursor: int)
    requires IsLog(log) && Gathered(log, s) && cursor == Last(log)
    requires afterSeq >= cursor || s.beforeSeq <= afterSeq || !s.hasMore
    ensures HoldsDue(log, s.records, afterSeq)
  {
    forall e | e in log && e.seqNo > afterSeq ensures e in s.records {
      assert e.seqNo <= Last(log);
    }
  }

  lemma CoveredDelta(log: seq<Event>, records: seq<Event>, afterSeq: int)
    requires IsLog(log)
    ensures HoldsDue(log, records, afterSeq) ==> !Conflict(records, afterSeq, Last(log))
    ensures HoldsDue(log, records, afterSeq) ==>
      forall e :: e in log && e.seqNo > afterSeq <==> e in records && InRange(e, afterSeq, Last(log))
  {
    assert forall e :: e in log ==> e.seqNo <= Last(log);
  }

  /** What is wrong with a snapshot. */
  ghost predicate Faulty(o: Opening, afterSeq: int, reason: Reason) {
    if afterSeq > o.cursor then reason == CursorRegressed
    else if !AllUsable(o.records, o.cursor, None) then Unusable(o.records, o.cursor, None, reason)
    else
      && reason == TruncatedSnapshot
      && ((o.records == [] && o.hasMore)
          || (afterSeq < o.cursor && forall i :: 0 <= i < |o.records| ==> o.records[i].seqNo != o.cursor))
  }

  /** The snapshot's own records reach far enough. */
  ghost predicate Suffices(o: Opening, afterSeq: int) {
    afterSeq >= o.cursor || !o.hasMore || exists m :: IsLeast(m, o.records) && m <= afterSeq
  }

  /** The records a delta is cut from, or the reason there are none: a faulty snapshot, or the way the scan of older
      pages ends. */
  ghost predicate Outcome(o: Opening, page: int -> Page, afterSeq: int, maxScanPages: nat,
      r: Result<seq<Event>, Reason>)
  {
    if exists reason :: Faulty(o, afterSeq, reason) then r.Err? && Faulty(o, afterSeq, r.error)
    else if Suffices(o, afterSeq) then r == Ok(o.records)
    else
      exists bounds ::
        bounds != [] && IsLeast(bounds[0], o.records)
        && Ends(page, o.cursor, afterSeq, maxScanPages, bounds, o.records, r)
  }

  /** The records a delta is cut from, or the reason there are none. */
  method GatherRecords(ghost log: seq<Event>, opening: Opening, page: int -> Page, afterSeq: int, maxScanPages: nat)
    returns (r: Result<seq<Event>, Reason>)
    requires afterSeq >= -1
    ensures Outcome(opening, page, afterSeq, maxScanPages, r)
    ensures Honest(log, opening, page) && r.Ok? ==> HoldsDue(log, r.value, afterSeq) && afterSeq <= Last(log)
    ensures Live(log, opening, page) ==>
      (r.Err? <==> afterSeq > Last(log) || PagesNeeded(opening, page, afterSeq) > maxScanPages)
  {
    hide Faulty, Outcome, Unusable, Ends;
    OpeningFaults(opening, afterSeq);
    if afterSeq > opening.cursor {
      FaultDecides(opening, page, afterSeq, maxScanPages, CursorRegressed);
      return Err(CursorRegressed);
    }
    var decoded := Decode(opening.records, opening.cursor, None);
    DecodeShape(opening.records, opening.cursor, None);
    DecodeReason(opening.records, opening.cursor, None);
    HonestOpeningDecodes(log, opening);
    if decoded.Err? {
      FaultDecides(opening, page, afterSeq, maxScanPages, decoded.error);
      return Err(decoded.error);
    }
    if opening.records == [] {
      HonestEmptyOpening(log, opening);
      if opening.hasMore || (opening.cursor >= 0 && afterSeq < opening.cursor) {
        FaultDecides(opening, page, afterSeq, maxScanPages, TruncatedSnapshot);
        return Err(TruncatedSnapshot);
      }
      EnoughDecides(opening, page, afterSeq, maxScanPages);
      return Ok([]);
    }
    var scan := Scan(opening.records, MinSeq(opening.records), opening.hasMore);
    LeastIsMin(opening.records);
    if IsLog(log) && HonestOpening(log, opening) {
      GatheredOpening(log, opening);
    }
    if afterSeq < opening.cursor && MaxSeq(opening.records) != opening.cursor {
      FaultDecides(opening, page, afterSeq, maxScanPages, TruncatedSnapshot);
      return Err(TruncatedSnapshot);
    }
    LeastIsOne(opening.records, scan.beforeSeq);
    if afterSeq < opening.cursor && scan.beforeSeq > afterSeq && scan.hasMore {
      var scanned, bounds := ScanPages(log, opening, page, afterSeq, maxScanPages, scan);
      ScanDecides(opening, page, afterSeq, maxScanPages, bounds,
        if scanned.Ok? then Ok(scanned.value.records) else Err(scanned.error));
      if scanned.Err? {
        return Err(scanned.error);
      }
      scan := scanned.value;
    } else {
      EnoughDecides(opening, page, afterSeq, maxScanPages);
    }
    if Honest(log, opening, page) {
      GatheredReaches(log, scan, afterSeq, opening.cursor);
    }
    return Ok(scan.records);
  }

  lemma LeastIsOne(records: seq<Event>, m: int)
    requires IsLeast(m, records)
    ensures forall n :: IsLeast(n, records) ==> n == m
  {}

  lemma MaxIsThere(records: seq<Event>, cursor: int)
    requires records != [] && AllUsable(records, cursor, None)
    ensures MaxSeq(records) == cursor <==> exists i :: 0 <= i < |records| && records[i].seqNo == cursor
  {
    var m := MaxSeq(records);
    var e :| e in records && e.seqNo == m;
    assert forall i :: 0 <= i < |records| ==> records[i] in records;
  }

  /** Which snapshots are faulty, as the reader finds out. */
  lemma OpeningFaults(o: Opening, afterSeq: int)
    requires afterSeq >= -1
    ensures afterSeq > o.cursor ==> Faulty(o, afterSeq, CursorRegressed)
    ensures afterSeq <= o.cursor ==> forall reason ::
      Unusable(o.records, o.cursor, None, reason) ==> Faulty(o, afterSeq, reason)
    ensures afterSeq <= o.cursor && AllUsable(o.records, o.cursor, None) ==> forall reason ::
      Faulty(o, afterSeq, reason) <==>
        (&& reason == TruncatedSnapshot
         && if o.records == [] then o.hasMore || afterSeq < o.cursor
            else afterSeq < o.cursor && MaxSeq(o.records) != o.cursor)
  {
    if o.records != [] && AllUsable(o.records, o.cursor, None) { MaxIsThere(o.records, o.cursor); }
  }

  lemma FaultDecides(o: Opening, page: int -> Page, afterSeq: int, maxScanPages: nat, reason: Reason)
    requires Faulty(o, afterSeq, reason)
    ensures Outcome(o, page, afterSeq, maxScanPages, Err(reason))
  {
    hide Faulty;
  }

  lemma EnoughDecides(o: Opening, page: int -> Page, afterSeq: int, maxScanPages: nat)
    requires Suffices(o, afterSeq) && forall reason :: !Faulty(o, afterSeq, reason)
    ensures Outcome(o, page, afterSeq, maxScanPages, Ok(o.records))
  {
    hide Faulty, Suffices;
  }

  lemma ScanDecides(o: Opening, page: int -> Page, afterSeq: int, maxScanPages: nat, bounds: seq<int>,
      r: Result<seq<Event>, Reason>)
    requires !Suffices(o, afterSeq) && forall reason :: !Faulty(o, afterSeq, reason)
    requires Ends(page, o.cursor, afterSeq, maxScanPages, bounds, o.records, r) && bounds != []
      && IsLeast(bounds[0], o.records)
    ensures Outcome(o, page, afterSeq, maxScanPages, r)
  {
    hide Faulty, Suffices, Ends;
  }

  lemma SortedDue(log: seq<Event>, records: seq<Event>, afterSeq: int, events: seq<Event>)
    requires IsLog(log) && HoldsDue(log, records, afterSeq) && Ascending(events)
    requires forall e :: e in events <==> e in records && InRange(e, afterSeq, Last(log))
    ensures events == After(log, afterSeq)
  {
    AfterShape(log, afterSeq);
    CoveredDelta(log, records, afterSeq);
    forall e ensures e in events <==> e in After(log, afterSeq) {
      assert e in events <==> e in records && InRange(e, afterSeq, Last(log));
      assert e in After(log, afterSeq) <==> e in log && e.seqNo > afterSeq;
    }
    AscendingUnique(events, After(log, afterSeq));
  }

  /** The events a list of records holds in the range, each once, in order. */
  ghost predicate Ordered(events: seq<Event>, records: seq<Event>, afterSeq: int, throughSeq: int) {
    Ascending(events) && forall e :: e in events <==> e in records && InRange(e, afterSeq, throughSeq)
  }

  /** The first of these up to the limit are delivered. */
  predicate Delivers(events: seq<Event>, limit: nat, delivered: seq<Event>) {
    delivered <= events && (|delivered| == limit || (|delivered| < limit && delivered == events))
  }

  /** What is answered on the records that were gathered, or on their failure. */
  ghost predicate Answers(cursor: int, afterSeq: int, limit: nat, r: Result<seq<Event>, Reason>, d: Delta) {
    && d.lastSeq == cursor && (d.scanLimitReached <==> d.baseline == Some(ScanLimit))
    && match r
       case Err(reason) => d.baseline == Some(reason)
       case Ok(records) =>
         if Conflict(records, afterSeq, cursor) then d.baseline == Some(DuplicateConflict)
         else
           && d.baseline.None? && (d.caughtUp <==> d.throughSeq >= cursor)
           && (exists events :: Ordered(events, records, afterSeq, cursor) && Delivers(events, limit, d.events))
           && d.throughSeq == (if d.events == [] then afterSeq else d.events[|d.events| - 1].seqNo)
  }

  /** `readSessionDeltaCore`, after its request checks. */
  method ReadSessionDelta(ghost log: seq<Event>, opening: Opening, page: int -> Page, afterSeq: int, limit: nat,
      maxScanPages: nat)
    returns (d: Delta, ghost gathered: Result<seq<Event>, Reason>)
    requires afterSeq >= -1
    ensures Outcome(opening, page, afterSeq, maxScanPages, gathered)
    ensures Answers(opening.cursor, afterSeq, limit, gathered, d)
    ensures d.baseline.Some? ==> d.events == [] && d.throughSeq == afterSeq && !d.caughtUp
    ensures Honest(log, opening, page) && d.baseline.None? ==> DeltaOf(log, afterSeq, limit, d)
    ensures Live(log, opening, page) ==>
      (d.baseline.Some? <==> afterSeq > Last(log) || PagesNeeded(opening, page, afterSeq) > maxScanPages)
  {
    hide Outcome, Answers, DeltaOf;
    var records := GatherRecords(log, opening, page, afterSeq, maxScanPages);
    gathered := records;
    if records.Err? {
      RecoveryAnswers(opening.cursor, afterSeq, limit, records, records.error);
      return Recovery(afterSeq, opening.cursor, records.error), gathered;
    }
    var events := DedupeAndSort(records.value, afterSeq, opening.cursor);
    if Honest(log, opening, page) {
      CoveredDelta(log, records.value, afterSeq);
    }
    if events.Err? {
      RecoveryAnswers(opening.cursor, afterSeq, limit, records, events.error);
      return Recovery(afterSeq, opening.cursor, events.error), gathered;
    }
    var delivered := if |events.value| <= limit then events.value else events.value[..limit];
    var throughSeq := if delivered == [] then afterSeq else delivered[|delivered| - 1].seqNo;
    d := Delta(throughSeq, opening.cursor, throughSeq >= opening.cursor, false, delivered, None);
    EventsAnswer(afterSeq, limit, records.value, events.value, d);
    if Honest(log, opening, page) {
      SortedDue(log, records.value, afterSeq, events.value);
      DueAnswers(log, afterSeq, limit, d);
    }
  }

  lemma RecoveryAnswers(cursor: int, afterSeq: int, limit: nat, r: Result<seq<Event>, Reason>, reason: Reason)
    requires if r.Err? then reason == r.error else Conflict(r.value, afterSeq, cursor) && reason == DuplicateConflict
    ensures Answers(cursor, afterSeq, limit, r, Recovery(afterSeq, cursor, reason))
  {
    hide Conflict;
  }

  lemma EventsAnswer(afterSeq: int, limit: nat, records: seq<Event>, events: seq<Event>, d: Delta)
    requires !Conflict(records, afterSeq, d.lastSeq) && Ordered(events, records, afterSeq, d.lastSeq)
    requires d.events == (if |events| <= limit then events else events[..limit]) && d.baseline.None?
    requires d.throughSeq == (if d.events == [] then afterSeq else d.events[|d.events| - 1].seqNo)
      && (d.caughtUp <==> d.throughSeq >= d.lastSeq) && !d.scanLimitReached
    ensures Answers(d.lastSeq, afterSeq, limit, Ok(records), d)
  {
    hide Conflict, Ordered;
    assert Delivers(events, limit, d.events);
  }

  lemma DueAnswers(log: seq<Event>, afterSeq: int, limit: nat, d: Delta)
    requires afterSeq <= Last(log) == d.lastSeq && d.baseline.None?
    requires var due := After(log, afterSeq); d.events == if |due| <= limit then due else due[..limit]
    requires d.throughSeq == (if d.events == [] then afterSeq else d.events[|d.events| - 1].seqNo)
      && (d.caughtUp <==> d.throughSeq >= d.lastSeq)
    ensures DeltaOf(log, afterSeq, limit, d)
  {
    hide After;
  }

  // ---- Fitting a reply -------------------------------------------------------------------------

  /** `size` is the JSON length of an event and `convert` the field-by-field mobile conversion. */
  datatype Options = Options(maxEvents: nat, maxBytes: nat, maxScanPages: nat, size: Event -> nat,
    convert: Event -> Event)

  /** Limits are positive, as the options' defaults and validation make them, and conversion keeps an event's seq. */
  ghost predicate Sound(o: Options) {
    o.maxEvents >= 1 && forall e :: o.convert(e).seqNo == e.seqNo
  }

  function Shell(e: Event): Event {
    e.(body := None)
  }

  function Seqs(s: seq<Event>): seq<int> {
    seq(|s|, i requires 0 <= i < |s| => s[i].seqNo)
  }

  function Converted(s: seq<Event>, o: Options): seq<Event> {
    seq(|s|, i requires 0 <= i < |s| => o.convert(s[i]))
  }

  function Reverse<T>(s: seq<T>): seq<T> {
    seq(|s|, i requires 0 <= i < |s| => s[|s| - 1 - i])
  }

  /** The bytes a list costs; the fitter starts from the two brackets. */
  function Total(s: seq<Event>, size: Event -> nat): nat {
    if s == [] then 2 else Total(s[..|s| - 1], size) + size(s[|s| - 1])
  }

  /** A list may be sent whole: the first event alone is held to its own size, two or more to the total. */
  predicate Fits(s: seq<Event>, o: Options) {
    && |s| <= o.maxEvents
    && (s != [] ==> o.size(s[0]) <= o.maxBytes)
    && (|s| >= 2 ==> Total(s, o.size) <= o.maxBytes)
  }

  /** `kept` is the longest prefix that fits, or the shell of a first event too large to send. */
  predicate Fitted(candidates: seq<Event>, o: Options, kept: seq<Event>, truncated: bool) {
    if candidates != [] && o.maxEvents >= 1 && o.size(candidates[0]) > o.maxBytes then
      kept == [Shell(candidates[0])] && truncated
    else
      && kept <= candidates && Fits(kept, o)
      && (truncated <==> |kept| < |candidates|)
      && (truncated ==> !Fits(candidates[..|kept| + 1], o))
  }

  lemma TotalAppend(s: seq<Event>, e: Event, size: Event -> nat)
    ensures Total(s + [e], size) == Total(s, size) + size(e)
  {
    assert (s + [e])[..|s|] == s;
  }

  /** The loop of `fitV3Events`. */
  method FitCandidates(candidates: seq<Event>, o: Options) returns (result: seq<Event>, truncated: bool)
    ensures Fitted(candidates, o, result, truncated)
  {
    result := [];
    var bytes := 2;
    for i := 0 to |candidates|
      invariant result == candidates[..i] && bytes == Total(result, o.size) && Fits(result, o)
    {
      var event := candidates[i];
      var size := o.size(event);
      TotalAppend(result, event, o.size);
      assert candidates[..i + 1] == result + [event];
      if |result| >= o.maxEvents {
        return result, true;
      }
      if |result| > 0 && bytes + size > o.maxBytes {
        return result, true;
      }
      if |result| == 0 && size > o.maxBytes {
        return [Shell(event)], true;
      }
      result := result + [event];
      bytes := bytes + size;
    }
    return result, false;
  }

  /** `fitV3Events`: the history reader fits from the newest event backwards. */
  method FitEvents(events: seq<Event>, o: Options, tail: bool) returns (kept: seq<Event>, truncated: bool)
    ensures if tail then Fitted(Reverse(events), o, Reverse(kept), truncated) else Fitted(events, o, kept, truncated)
  {
    kept, truncated := FitCandidates(if tail then Reverse(events) else events, o);
    if tail {
      assert Reverse(Reverse(kept)) == kept;
      kept := Reverse(kept);
    }
  }

  lemma {:induction false} TotalGrows(s: seq<Event>, size: Event -> nat, k: nat)
    requires k <= |s|
    ensures Total(s[..k], size) <= Total(s, size)
  {
    if k < |s| {
      TotalGrows(s[..|s| - 1], size, k);
      assert s[..|s| - 1][..k] == s[..k];
    } else {
      assert s[..k] == s;
    }
  }

  /** No longer prefix than the kept one fits. */
  lemma KeptIsLongest(candidates: seq<Event>, o: Options, kept: seq<Event>, truncated: bool, k: nat)
    requires Fitted(candidates, o, kept, truncated) && k <= |candidates| && Fits(candidates[..k], o)
    ensures k <= |kept|
  {
    if truncated {
      forall longer: nat | |kept| < longer <= |candidates| ensures !Fits(candidates[..longer], o) {
        TotalGrows(candidates[..longer], o.size, |kept| + 1);
        assert candidates[..longer][..|kept| + 1] == candidates[..|kept| + 1];
      }
    }
  }

  /** Sent events stand for log events one by one, with or without their bodies. */
  predicate Mirrors(sent: seq<Event>, events: seq<Event>, o: Options) {
    |sent| == |events| && forall i :: 0 <= i < |sent| ==>
      sent[i] == o.convert(events[i]) || sent[i] == Shell(o.convert(events[i]))
  }

  lemma MirrorsAppend(a: seq<Event>, x: seq<Event>, b: seq<Event>, y: seq<Event>, o: Options)
    requires Mirrors(a, x, o) && Mirrors(b, y, o)
    ensures Mirrors(a + b, x + y, o)
  {}

  lemma MirrorsSeqs(sent: seq<Event>, events: seq<Event>, o: Options)
    requires Sound(o) && Mirrors(sent, events, o)
    ensures Seqs(sent) == Seqs(events)
  {}

  // ---- The v3 delta ----------------------------------------------------------------------------

  datatype V3Delta = V3Delta(throughSeq: int, lastSeq: int, caughtUp: bool, hasMore: bool, events: seq<Event>,
    baseline: Option<Reason>)

  /** The first of these is too large to send with its body. */
  predicate Oversized(events: seq<Event>, o: Options) {
    events != [] && o.size(o.convert(events[0])) > o.maxBytes
  }

  /** What a v3 delta without recovery promises: the most of the due events that fit, one shell if the first does
      not. */
  ghost predicate V3DeltaOf(log: seq<Event>, afterSeq: int, limit: nat, o: Options, v: V3Delta) {
    var due := After(log, afterSeq);
    var n := |v.events|;
    && v.baseline.None? && v.lastSeq == Last(log) && afterSeq <= Last(log)
    && n <= |due| && (due != [] ==> n > 0)
    && v.events == (if Oversized(due, o) then [Shell(o.convert(due[0]))] else Converted(due[..n], o))
    && (!Oversized(due, o) && n < |due| && n < limit ==> !Fits(Converted(due[..n + 1], o), o))
    && v.throughSeq == (if n == 0 then afterSeq else due[n - 1].seqNo)
    && (v.caughtUp <==> n == |due| && !Oversized(due, o))
    && (v.hasMore <==> !v.caughtUp)
  }

  /** `readMobileV3Delta`: the delta, converted and fitted from the front. */
  method ReadV3Delta(ghost log: seq<Event>, opening: Opening, page: int -> Page, afterSeq: int, limit: nat, o: Options)
      returns (v: V3Delta, ghost gathered: Result<seq<Event>, Reason>)
    requires afterSeq >= -1 && Sound(o) && 1 <= limit <= o.maxEvents
    ensures v.baseline.Some? ==>
      v.events == [] && v.throughSeq == afterSeq && !v.caughtUp && (v.hasMore <==> afterSeq < opening.cursor)
    ensures v.lastSeq == opening.cursor && Outcome(opening, page, afterSeq, o.maxScanPages, gathered)
    ensures v.baseline == if gathered.Err? then Some(gathered.error)
                          else if Conflict(gathered.value, afterSeq, opening.cursor) then Some(DuplicateConflict)
                          else None
    ensures Honest(log, opening, page) && v.baseline.None? ==> V3DeltaOf(log, afterSeq, limit, o, v)
    ensures Live(log, opening, page) ==>
      (v.baseline.Some? <==> afterSeq > Last(log) || PagesNeeded(opening, page, afterSeq) > o.maxScanPages)
  {
    var delta: Delta;
    delta, gathered := ReadSessionDelta(log, opening, page, afterSeq, limit, o.maxScanPages);
    var fitted, truncated := FitEvents(Converted(delta.events, o), o, false);
    var throughSeq := if fitted == [] then afterSeq else fitted[|fitted| - 1].seqNo;
    v := V3Delta(throughSeq, delta.lastSeq, !truncated && delta.caughtUp,
      truncated || delta.throughSeq < delta.lastSeq, fitted, delta.baseline);
    if Honest(log, opening, page) && delta.baseline.None? {
      FittedDelta(log, afterSeq, limit, o, delta, fitted, truncated);
    }
  }

  lemma DueEndsTheLog(log: seq<Event>, afterSeq: int)
    requires IsLog(log)
    ensures After(log, afterSeq) == [] <==> afterSeq >= Last(log) || log == []
    ensures After(log, afterSeq) != [] ==> Last(After(log, afterSeq)) == Last(log)
  {}

  lemma CaughtUpMeansAll(log: seq<Event>, afterSeq: int, limit: nat, d: Delta)
    requires IsLog(log) && limit >= 1 && DeltaOf(log, afterSeq, limit, d) && afterSeq >= -1
    ensures d.caughtUp <==> |After(log, afterSeq)| <= limit
    ensures d.throughSeq < d.lastSeq <==> |After(log, afterSeq)| > limit
  {
    AfterShape(log, afterSeq);
    DueEndsTheLog(log, afterSeq);
  }

  lemma FittedDue(due: seq<Event>, limit: nat, o: Options, events: seq<Event>, fitted: seq<Event>, truncated: bool)
    requires Sound(o) && 1 <= limit <= o.maxEvents && events == if |due| <= limit then due else due[..limit]
    requires Fitted(Converted(events, o), o, fitted, truncated)
    ensures |fitted| <= |events| <= |due| && (due != [] ==> fitted != [])
    ensures fitted == if Oversized(due, o) then [Shell(o.convert(due[0]))] else Converted(due[..|fitted|], o)
    ensures !Oversized(due, o) && |fitted| < |due| && |fitted| < limit ==> !Fits(Converted(due[..|fitted| + 1], o), o)
    ensures truncated <==> |fitted| < |events| || Oversized(due, o)
  {
    if due != [] && !Oversized(due, o) {
      var n := |fitted|;
      assert fitted == Converted(due[..n], o);
      if n < |events| {
        assert Converted(events, o)[..n + 1] == Converted(due[..n + 1], o);
      }
    }
  }

  lemma FittedDelta(log: seq<Event>, afterSeq: int, limit: nat, o: Options, d: Delta, fitted: seq<Event>,
      truncated: bool)
    requires IsLog(log) && Sound(o) && 1 <= limit <= o.maxEvents && DeltaOf(log, afterSeq, limit, d) && afterSeq >= -1
    requires Fitted(Converted(d.events, o), o, fitted, truncated)
    ensures V3DeltaOf(log, afterSeq, limit, o,
      V3Delta(if fitted == [] then afterSeq else fitted[|fitted| - 1].seqNo, d.lastSeq,
                                               !truncated && d.caughtUp, truncated
                                                 || d.throughSeq < d.lastSeq, fitted, None))
  {
    hide Fits, Fitted, IsLog, After;
    FittedDue(After(log, afterSeq), limit, o, d.events, fitted, truncated);
    CaughtUpMeansAll(log, afterSeq, limit, d);
  }
}
