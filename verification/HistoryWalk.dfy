/** Paging a session's history backwards: one page of packages/mobile-stream-compat-rc1/src/index.js
    `readMobileV3HistoryCore`, and the walk a client makes by following `nextBeforeSeq`. */
module HistoryWalk {
  import opened Prelude
  import opened DeltaSync

  datatype History = History(events: seq<Event>, hasMore: bool, nextBeforeSeq: Option<int>)

  /** The largest bound: below it lies the whole log. */
  const TOP := MAX_SAFE + 1

  function Bound(beforeSeq: Option<int>): int {
    if beforeSeq.Some? then beforeSeq.value else TOP
  }

  /** The controller lists no event twice in one answer. */
  ghost predicate Unrepeated(o: Opening, page: int -> Page) {
    SeqsDistinct(o.records) && forall b :: page(b).Page? ==> SeqsDistinct(page(b).records)
  }

  /** What one answered page promises: the newest events below the bound that fit, one shell if the newest does not,
      and where to go on from. */
  ghost predicate HistoryOf(log: seq<Event>, beforeSeq: Option<int>, o: Options, h: History) {
    var older := Below(log, Bound(beforeSeq));
    var k := |older| - |h.events|;
    && k >= 0 && (older != [] ==> h.events != [])
    && (if LastOversized(older, o) then h.events == [Shell(o.convert(older[k]))] && h.hasMore
        else h.events == Converted(older[k..], o) && (h.hasMore <==> k > 0))
    && h.nextBeforeSeq == (if h.hasMore && older != [] then Some(older[k].seqNo) else None)
  }

  predicate LastOversized(s: seq<Event>, o: Options) {
    s != [] && o.size(o.convert(s[|s| - 1])) > o.maxBytes
  }

  lemma ConvertedMembers(s: seq<Event>, t: seq<Event>, o: Options)
    requires SameEvents(s, t)
    ensures SameEvents(Converted(s, o), Converted(t, o))
  {
    forall e ensures e in Converted(s, o) <==> e in Converted(t, o) {
      if e in Converted(s, o) {
        var i :| 0 <= i < |s| && o.convert(s[i]) == e;
        assert s[i] in t;
        var j :| 0 <= j < |t| && t[j] == s[i];
        assert Converted(t, o)[j] == e;
      }
      if e in Converted(t, o) {
        var i :| 0 <= i < |t| && o.convert(t[i]) == e;
        assert t[i] in s;
        var j :| 0 <= j < |s| && s[j] == t[i];
        assert Converted(s, o)[j] == e;
      }
    }
  }

  lemma {:induction false} AfterIsSuffix(s: seq<Event>, seqNo: int)
    ensures |After(s, seqNo)| <= |s| && After(s, seqNo) == s[|s| - |After(s, seqNo)|..]
  {
    if s != [] && s[|s| - 1].seqNo > seqNo {
      var n := |s| - 1;
      AfterIsSuffix(s[..n], seqNo);
      var k := n - |After(s[..n], seqNo)|;
      assert s[k..] == s[..n][k..] + [s[n]];
    }
  }

  lemma OlderLeftOut(log: seq<Event>, lo: int, bound: int)
    requires IsLog(log) && lo <= bound
    ensures HasBelow(log, lo) <==> |After(Below(log, bound), lo - 1)| < |Below(log, bound)|
  {
    var older := Below(log, bound);
    var newest := After(older, lo - 1);
    BelowShape(log, bound);
    AfterShape(older, lo - 1);
    AfterIsSuffix(older, lo - 1);
    if HasBelow(log, lo) {
      var e :| e in log && e.seqNo < lo;
      assert e in older && e !in newest;
    }
    if |newest| < |older| {
      var k := |older| - |newest|;
      assert forall e :: e in older[k..] ==> older[0].seqNo < e.seqNo;
      assert older[0] in older && older[0] !in newest;
    }
  }

  lemma SortedRecords(log: seq<Event>, records: seq<Event>, lo: int, bound: int, o: Options)
    requires IsLog(log) && Sound(o) && SeqsDistinct(records) && lo <= bound && Covers(records, log, lo, bound)
    ensures SameEvents(records, After(Below(log, bound), lo - 1))
    ensures SortBySeq(Converted(records, o)) == Converted(After(Below(log, bound), lo - 1), o)
  {
    var newest := After(Below(log, bound), lo - 1);
    BelowShape(log, bound);
    AfterShape(Below(log, bound), lo - 1);
    assert SameEvents(records, newest);
    ConvertedMembers(records, newest, o);
    SortShape(Converted(records, o));
    AscendingUnique(SortBySeq(Converted(records, o)), Converted(newest, o));
  }

  /** Sorting a page that lists no event twice gives the newest events below the bound. */
  lemma SortedPage(log: seq<Event>, records: seq<Event>, hasMore: bool, bound: int, o: Options) returns (k: nat)
    requires IsLog(log) && Sound(o) && SeqsDistinct(records) && HonestRecords(log, records, hasMore, bound)
    ensures k <= |Below(log, bound)| && SortBySeq(Converted(records, o)) == Converted(Below(log, bound)[k..], o)
    ensures hasMore <==> k > 0
    ensures records == [] <==> k == |Below(log, bound)|
  {
    hide SortBySeq, IsLog, Below, After, Converted;
    var lo :| lo <= bound && Covers(records, log, lo, bound) && (hasMore <==> HasBelow(log, lo));
    var older := Below(log, bound);
    var newest := After(older, lo - 1);
    AfterIsSuffix(older, lo - 1);
    k := |older| - |newest|;
    SortedRecords(log, records, lo, bound, o);
    OlderLeftOut(log, lo, bound);
    NonEmptyTogether(records, newest);
    NonEmptyTogether(newest, records);
  }

  /** Fitting from the newest end. */
  lemma FittedTail(older: seq<Event>, k: nat, o: Options, fitted: seq<Event>, truncated: bool)
    requires Sound(o) && k < |older|
    requires Fitted(Reverse(Converted(older[k..], o)), o, Reverse(fitted), truncated)
    ensures 0 < |fitted| <= |older| - k
    ensures LastOversized(older, o) ==> fitted == [Shell(o.convert(older[|older| - 1]))] && truncated
    ensures !LastOversized(older, o) ==>
      fitted == Converted(older[|older| - |fitted|..], o) && (truncated <==> |older| - |fitted| > k)
    ensures fitted[0].seqNo == older[|older| - |fitted|].seqNo
  {
    var candidates := Reverse(Converted(older[k..], o));
    assert |Reverse(fitted)| == |fitted|;
    assert candidates[0] == o.convert(older[|older| - 1]);
    assert fitted == Reverse(Reverse(fitted));
    if !LastOversized(older, o) {
      assert Fits(candidates[..1], o);
      assert fitted == Converted(older[|older| - |fitted|..], o);
      assert fitted[0] == o.convert(older[|older| - |fitted|]);
    }
  }

  /** `readMobileV3HistoryCore`, after its request checks and the opening of the snapshot. */
  method ReadHistory(ghost log: seq<Event>, opening: Opening, page: int -> Page, beforeSeq: Option<int>, o: Options)
    returns (r: Result<History, Reason>)
    requires Sound(o) && (beforeSeq.Some? ==> 0 <= beforeSeq.value)
    ensures beforeSeq.Some? && page(beforeSeq.value).InvalidPage? ==> r == Err(InvalidHistoryPage)
    ensures !(beforeSeq.Some? && page(beforeSeq.value).InvalidPage?) ==>
      var records := if beforeSeq.Some? then page(beforeSeq.value).records else opening.records;
      && (r.Ok? <==> AllUsable(records, opening.cursor, beforeSeq))
      && (r.Err? ==> Unusable(records, opening.cursor, beforeSeq, r.error))
    ensures Live(log, opening, page) && Unrepeated(opening, page) ==> r.Ok? && HistoryOf(log, beforeSeq, o, r.value)
  {
    var records, hasMore := opening.records, opening.hasMore;
    if beforeSeq.Some? {
      var p := page(beforeSeq.value);
      if p.InvalidPage? {
        return Err(InvalidHistoryPage);
      }
      assert Live(log, opening, page) ==> HonestPage(log, beforeSeq.value, p);
      records, hasMore := p.records, p.hasMore;
      HonestPageDecodes(log, opening, beforeSeq.value, p);
    } else {
      HonestOpeningDecodes(log, opening);
    }
    var entries := Decode(records, opening.cursor, beforeSeq);
    DecodeShape(records, opening.cursor, beforeSeq);
    DecodeReason(records, opening.cursor, beforeSeq);
    UnusableIsNot(records, opening.cursor, beforeSeq);
    if entries.Err? {
      return Err(entries.error);
    }
    var fitted, truncated := FitEvents(SortBySeq(Converted(entries.value, o)), o, true);
    var actualMore := hasMore || truncated;
    var next := if !actualMore then None
                else if fitted != [] then Some(fitted[0].seqNo)
                else if records != [] then Some(records[0].seqNo) else None;
    r := Ok(History(fitted, actualMore, next));
    if Live(log, opening, page) && Unrepeated(opening, page) {
      AnsweredPage(log, records, hasMore, beforeSeq, o, fitted, truncated);
    }
  }

  lemma AnsweredPage(log: seq<Event>, records: seq<Event>, hasMore: bool, beforeSeq: Option<int>, o: Options,
      fitted: seq<Event>, truncated: bool)
    requires IsLog(log) && Sound(o) && SeqsDistinct(records) && HonestRecords(log, records, hasMore, Bound(beforeSeq))
    requires records == [] ==> !hasMore
    requires Fitted(Reverse(SortBySeq(Converted(records, o))), o, Reverse(fitted), truncated)
    ensures HistoryOf(log, beforeSeq, o, History(fitted, hasMore || truncated,
              if !(hasMore || truncated) then None
              else if fitted != [] then Some(fitted[0].seqNo)
              else if records != [] then Some(records[0].seqNo) else None))
  {
    hide SortBySeq, IsLog, Below, Fitted, Fits, HonestRecords;
    var k := SortedPage(log, records, hasMore, Bound(beforeSeq), o);
    var older := Below(log, Bound(beforeSeq));
    if k < |older| {
      FittedTail(older, k, o, fitted, truncated);
    } else {
      NothingOlder(records, o, fitted, truncated);
      assert older == [];
    }
  }

  lemma NothingOlder(records: seq<Event>, o: Options, fitted: seq<Event>, truncated: bool)
    requires records == [] && Fitted(Reverse(SortBySeq(Converted(records, o))), o, Reverse(fitted), truncated)
    ensures fitted == [] && !truncated
  {
    assert Converted(records, o) == [];
    assert Reverse<Event>([]) == [];
    assert |Reverse(fitted)| == |fitted|;
  }

  // ---- The walk --------------------------------------------------------------------------------

  /** One answered page of a walk and the log it was answered from. */
  datatype Step = Step(log: seq<Event>, page: History)

  function NextBound(steps: seq<Step>): Option<int> {
    if steps == [] then None else steps[|steps| - 1].page.nextBeforeSeq
  }

  /** The pages put together, oldest first. */
  function Visited(steps: seq<Step>): seq<Event> {
    if steps == [] then [] else steps[|steps| - 1].page.events + Visited(steps[..|steps| - 1])
  }

  /** The first call names no bound, each later one the last `nextBeforeSeq`; the log may grow between calls. */
  ghost predicate Walk(steps: seq<Step>, o: Options) {
    steps == [] || (
      var n := |steps| - 1;
      && Walk(steps[..n], o)
      && IsLog(steps[n].log)
      && (n > 0 ==> steps[n - 1].log <= steps[n].log && steps[n - 1].page.nextBeforeSeq.Some?)
      && HistoryOf(steps[n].log, NextBound(steps[..n]), o, steps[n].page))
  }

  lemma {:induction false} BelowTop(log: seq<Event>)
    requires IsLog(log)
    ensures Below(log, TOP) == log
  {
    assert log != [] ==> log[|log| - 1].seqNo < TOP;
  }

  lemma {:induction false} BelowAt(log: seq<Event>, k: nat)
    requires IsLog(log) && k < |log|
    ensures Below(log, log[k].seqNo) == log[..k]
  {
    var n := |log| - 1;
    if k < n {
      BelowAt(log[..n], k);
      assert log[..n][..k] == log[..k];
    } else if k > 0 {
      assert log[..k][k - 1].seqNo < log[k].seqNo;
    }
  }

  /** What a page adds to a walk that has visited all but the first `k` events of the first page's log. */
  lemma PageExtends(first: seq<Event>, k: nat, r: Step, bound: Option<int>, o: Options) returns (next: nat)
    requires IsLog(first) && IsLog(r.log) && first <= r.log && HistoryOf(r.log, bound, o, r.page)
    requires k <= |first| && Below(r.log, Bound(bound)) == first[..k]
    ensures next <= k && (k > 0 ==> next < k) && Mirrors(r.page.events, first[next..k], o)
    ensures match r.page.nextBeforeSeq
      case Some(b) => next < |first| && b == first[next].seqNo
      case None => next == 0
  {
    next := k - |r.page.events|;
    assert first[..k][next..] == first[next..k];
  }

  lemma PageContinues(first: seq<Event>, visited: seq<Event>, r: Step, bound: int, o: Options) returns (next: nat)
    requires IsLog(first) && IsLog(r.log) && first <= r.log && HistoryOf(r.log, Some(bound), o, r.page)
    requires 0 < |visited| <= |first| && Mirrors(visited, first[|first| - |visited|..], o)
      && bound == first[|first| - |visited|].seqNo
    ensures next == |first| - |r.page.events + visited| && Mirrors(r.page.events + visited, first[next..], o)
    ensures match r.page.nextBeforeSeq
      case Some(b) => next < |first| && b == first[next].seqNo
      case None => next == 0
  {
    hide HistoryOf, IsLog;
    var k := |first| - |visited|;
    BelowAt(r.log, k);
    assert r.log[..k] == first[..k];
    next := PageExtends(first, k, r, Some(bound), o);
    MirrorsAppend(r.page.events, first[next..k], visited, first[k..], o);
    assert first[next..k] + first[k..] == first[next..];
  }

  lemma WalkLogsGrow(steps: seq<Step>, o: Options)
    requires Walk(steps, o) && steps != []
    ensures IsLog(steps[0].log) && steps[0].log <= steps[|steps| - 1].log
  {
    var n := |steps| - 1;
    if n > 0 {
      WalkLogsGrow(steps[..n], o);
      assert steps[..n][0] == steps[0] && steps[..n][n - 1] == steps[n - 1];
    }
  }

  /** After any number of pages the client holds the newest events of the first page's log, each once and in order, and
      the next bound is the first of them; when no bound is returned it holds the whole log. */
  lemma {:induction false} WalkIsExact(steps: seq<Step>, o: Options)
    requires Sound(o) && Walk(steps, o) && steps != []
    ensures var first := steps[0].log; var k := |first| - |Visited(steps)|;
      && k >= 0 && Mirrors(Visited(steps), first[k..], o)
      && match NextBound(steps)
         case Some(b) => k < |first| && b == first[k].seqNo
         case None => k == 0
  {
    hide HistoryOf, IsLog, Mirrors;
    var n := |steps| - 1;
    var first := steps[0].log;
    WalkLogsGrow(steps, o);
    if n == 0 {
      BelowTop(first);
      assert first[..|first|] == first && steps[..0] == [];
      var k := PageExtends(first, |first|, steps[0], None, o);
      assert Visited(steps) == steps[0].page.events + [] == steps[0].page.events;
      assert first[k..|first|] == first[k..];
    } else {
      var earlier := steps[..n];
      assert earlier[0] == steps[0] && earlier[n - 1] == steps[n - 1];
      WalkIsExact(earlier, o);
      var next := PageContinues(first, Visited(earlier), steps[n], NextBound(earlier).value, o);
    }
  }

  /** A finished walk has visited every event of the log exactly once, in order. */
  lemma FinishedWalkCovers(steps: seq<Step>, o: Options)
    requires Sound(o) && Walk(steps, o) && steps != [] && NextBound(steps).None?
    ensures Mirrors(Visited(steps), steps[0].log, o) && Seqs(Visited(steps)) == Seqs(steps[0].log)
  {
    WalkIsExact(steps, o);
    assert steps[0].log[0..] == steps[0].log;
    MirrorsSeqs(Visited(steps), steps[0].log, o);
  }

  /** Every page but the last visits at least one event, so a walk is at most one page longer than its log. */
  lemma {:induction false} WalkEnds(steps: seq<Step>, o: Options)
    requires Sound(o) && Walk(steps, o) && steps != []
    ensures |steps| <= |Visited(steps)| + (if NextBound(steps).Some? then 0 else 1)
    ensures |steps| <= |steps[0].log| + 1
  {
    var n := |steps| - 1;
    WalkIsExact(steps, o);
    if n > 0 {
      assert steps[..n][n - 1] == steps[n - 1];
      WalkEnds(steps[..n], o);
    }
    assert steps[n].page.nextBeforeSeq.Some? ==> steps[n].page.events != [];
  }
}
