/** A delta's records, and the reason when there are none, are decided by the snapshot and the pages alone. */
module DeltaSyncLaws {
  import opened Prelude
  import opened DeltaSync

  lemma OneReason(records: seq<Event>, throughSeq: int, beforeSeq: Option<int>, a: Reason, b: Reason)
    requires Unusable(records, throughSeq, beforeSeq, a) && Unusable(records, throughSeq, beforeSeq, b)
    ensures a == b
  {
    var i: nat :| FirstUnusable(records, throughSeq, beforeSeq, i, a);
    var j: nat :| FirstUnusable(records, throughSeq, beforeSeq, j, b);
    assert i == j;
  }

  lemma OneFault(o: Opening, afterSeq: int, a: Reason, b: Reason)
    requires Faulty(o, afterSeq, a) && Faulty(o, afterSeq, b)
    ensures a == b
  {
    hide Unusable;
    if afterSeq <= o.cursor && !AllUsable(o.records, o.cursor, None) { OneReason(o.records, o.cursor, None, a, b); }
  }

  lemma NextIsOne(page: int -> Page, cursor: int, afterSeq: int, b: int, x: int, y: int)
    requires LeadsOn(page, cursor, afterSeq, b, x) && LeadsOn(page, cursor, afterSeq, b, y)
    ensures x == y
  {}

  /** Two courses from the same bound agree as far as both go. */
  lemma {:induction false} CoursesAgree(page: int -> Page, cursor: int, afterSeq: int, x: seq<int>, y: seq<int>, i: nat)
    requires Course(page, cursor, afterSeq, x) && Course(page, cursor, afterSeq, y) && x[0] == y[0]
    requires i < |x| && i < |y|
    ensures x[i] == y[i]
  {
    if i > 0 {
      CoursesAgree(page, cursor, afterSeq, x, y, i - 1);
      NextIsOne(page, cursor, afterSeq, x[i - 1], x[i], y[i]);
    }
    hide LeadsOn;
  }

  /** Where a scan ends it does not lead on. */
  lemma EndIsEnd(page: int -> Page, cursor: int, afterSeq: int, maxScanPages: nat, x: seq<int>, before: seq<Event>,
      r: Result<seq<Event>, Reason>, next: int)
    requires Ends(page, cursor, afterSeq, maxScanPages, x, before, r) && |x| - 1 < maxScanPages
    ensures x != [] && !LeadsOn(page, cursor, afterSeq, x[|x| - 1], next)
  {
    var b := x[|x| - 1];
    if r.Err? && page(b).Page? && !AllUsable(page(b).records, cursor, Some(b)) {
      UnusableIsNot(page(b).records, cursor, Some(b));
    }
  }

  lemma NotLonger(page: int -> Page, cursor: int, afterSeq: int, maxScanPages: nat, x: seq<int>, y: seq<int>,
      before: seq<Event>, r: Result<seq<Event>, Reason>, q: Result<seq<Event>, Reason>)
    requires Ends(page, cursor, afterSeq, maxScanPages, x, before, r) && x != []
    requires Ends(page, cursor, afterSeq, maxScanPages, y, before, q) && y != [] && x[0] == y[0]
    ensures |y| <= |x|
  {
    hide GivesUp, Arrives, LeadsOn;
    if |y| > |x| {
      CoursesAgree(page, cursor, afterSeq, x, y, |x| - 1);
      assert LeadsOn(page, cursor, afterSeq, y[|x| - 1], y[|x|]);
      EndIsEnd(page, cursor, afterSeq, maxScanPages, x, before, r, y[|x|]);
    }
  }

  lemma SameEnd(page: int -> Page, cursor: int, afterSeq: int, maxScanPages: nat, x: seq<int>, before: seq<Event>,
      r: Result<seq<Event>, Reason>, q: Result<seq<Event>, Reason>)
    requires Ends(page, cursor, afterSeq, maxScanPages, x, before, r)
    requires Ends(page, cursor, afterSeq, maxScanPages, x, before, q)
    ensures r == q
  {
    var b := x[|x| - 1];
    var p := page(b);
    if r.Err? && q.Err? && p.Page? && !AllUsable(p.records, cursor, Some(b)) && |x| - 1 < maxScanPages {
      hide Unusable;
      OneReason(p.records, cursor, Some(b), r.error, q.error);
    }
    hide Unusable, AllUsable;
  }

  /** ONE OUTCOME. No two outcomes are possible: which reason is given, or which records are gathered, is settled by the
      snapshot, the pages, the seq and the page bound. */
  lemma OneOutcome(o: Opening, page: int -> Page, afterSeq: int, maxScanPages: nat, r: Result<seq<Event>, Reason>,
      q: Result<seq<Event>, Reason>)
    requires Outcome(o, page, afterSeq, maxScanPages, r) && Outcome(o, page, afterSeq, maxScanPages, q)
    ensures r == q
  {
    hide Faulty, Suffices, Ends, IsLeast;
    if exists reason :: Faulty(o, afterSeq, reason) {
      OneFault(o, afterSeq, r.error, q.error);
    } else if !Suffices(o, afterSeq) {
      var x :| x != [] && IsLeast(x[0], o.records) && Ends(page, o.cursor, afterSeq, maxScanPages, x, o.records, r);
      var y :| y != [] && IsLeast(y[0], o.records) && Ends(page, o.cursor, afterSeq, maxScanPages, y, o.records, q);
      SameBounds(page, o, afterSeq, maxScanPages, x, y, r, q);
      SameEnd(page, o.cursor, afterSeq, maxScanPages, x, o.records, r, q);
    }
  }

  lemma SameBounds(page: int -> Page, o: Opening, afterSeq: int, maxScanPages: nat, x: seq<int>, y: seq<int>,
      r: Result<seq<Event>, Reason>, q: Result<seq<Event>, Reason>)
    requires x != [] && IsLeast(x[0], o.records) && Ends(page, o.cursor, afterSeq, maxScanPages, x, o.records, r)
    requires y != [] && IsLeast(y[0], o.records) && Ends(page, o.cursor, afterSeq, maxScanPages, y, o.records, q)
    ensures x == y
  {
    LeastIsOne(o.records, x[0]);
    hide IsLeast, GivesUp, Arrives, LeadsOn;
    NotLonger(page, o.cursor, afterSeq, maxScanPages, x, y, o.records, r, q);
    NotLonger(page, o.cursor, afterSeq, maxScanPages, y, x, o.records, q, r);
    forall i | 0 <= i < |x| ensures x[i] == y[i] { CoursesAgree(page, o.cursor, afterSeq, x, y, i); }
  }

  // ---- Fitting ---------------------------------------------------------------------------------

  function Sizes(s: seq<Event>, size: Event -> nat): nat {
    if s == [] then 0 else size(s[0]) + Sizes(s[1..], size)
  }

  lemma {:induction false} TotalIsSizes(s: seq<Event>, size: Event -> nat)
    ensures Total(s, size) == 2 + Sizes(s, size)
  {
    if s != [] {
      var n := |s| - 1;
      TotalIsSizes(s[..n], size);
      SizesAppend(s[..n], s[n], size);
      assert s == s[..n] + [s[n]];
    }
  }

  lemma {:induction false} SizesAppend(s: seq<Event>, e: Event, size: Event -> nat)
    ensures Sizes(s + [e], size) == Sizes(s, size) + size(e)
  {
    if s != [] {
      SizesAppend(s[1..], e, size);
      assert (s + [e])[1..] == s[1..] + [e];
    } else {
      assert s + [e] == [e] && [e][1..] == [];
    }
  }

  /** FITS. A reply may hold as many events as the limit allows, one event of at most the byte limit, or several whose
      sizes and two brackets are within it; a shell keeps the seq and nothing else. */
  lemma FitsWhen(s: seq<Event>, o: Options, e: Event)
    ensures Fits(s, o) <==>
            && |s| <= o.maxEvents
            && (|s| == 1 ==> o.size(s[0]) <= o.maxBytes)
            && (|s| >= 2 ==> o.size(s[0]) <= o.maxBytes && 2 + Sizes(s, o.size) <= o.maxBytes)
    ensures Shell(e) == Event(e.seqNo, None)
  {
    TotalIsSizes(s, o.size);
  }
}
