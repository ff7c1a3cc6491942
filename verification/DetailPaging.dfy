/** Long event fields are sent in pages of whole code points, packages/mobile-stream-compat-rc1/src/index.js
    `readMobileV3Details`, and kept in a byte-bounded cache, `putDetail`. */
module DetailPaging {
  import opened Prelude
  import opened Unicode

  /** The offset lies between two code points. */
  ghost predicate Boundary(text: seq<CodePoint>, offset: nat) {
    exists i :: 0 <= i <= |text| && Bytes(text[..i]) == offset
  }

  datatype Page = Page(offset: nat, nextOffset: nat, totalBytes: nat, done: bool, text: seq<CodePoint>)
  datatype PageError = NotABoundary

  function Min(a: nat, b: nat): nat {
    if a < b then a else b
  }

  /** What a page is: the code points from the offset on, as many as fit the limit but at least one. */
  ghost predicate PageOf(text: seq<CodePoint>, offset: nat, limit: nat, p: Page) {
    && p.totalBytes == Bytes(text) && p.offset == Min(offset, p.totalBytes)
    && exists i, j :: 0 <= i <= j <= |text| && CutAt(text, limit, p, i, j)
  }

  ghost predicate CutAt(text: seq<CodePoint>, limit: nat, p: Page, i: int, j: int)
    requires 0 <= i <= j <= |text|
  {
    && p.text == text[i..j] && p.offset == Bytes(text[..i]) && p.nextOffset == Bytes(text[..j])
    && (i < |text| ==> i < j) && (p.done <==> j == |text|)
    && (j > i + 1 ==> Bytes(p.text) <= limit) && (j < |text| ==> Bytes(text[i..j + 1]) > limit)
  }

  lemma BytesNext(text: seq<CodePoint>, i: nat, j: nat)
    requires i <= j < |text|
    ensures Bytes(text[i..j + 1]) == Bytes(text[i..j]) + Width(text[j])
    ensures Bytes(text[..j + 1]) == Bytes(text[..j]) + Width(text[j])
  {
    assert text[i..j + 1] == text[i..j] + [text[j]] && text[..j + 1] == text[..j] + [text[j]];
    assert [text[j]][1..] == [];
    EncodeAppend(text[i..j], [text[j]]);
    EncodeAppend(text[..j], [text[j]]);
  }

  lemma {:induction false} PrefixGrows(text: seq<CodePoint>, i: nat, j: nat)
    requires i <= j <= |text|
    ensures Bytes(text[..i]) + (j - i) <= Bytes(text[..j])
  {
    assert text[..j] == text[..i] + text[i..j];
    EncodeAppend(text[..i], text[i..j]);
    EncodeLength(text[i..j]);
  }

  /** Where the offset falls: the number of code points before it, or nothing if it splits one. */
  method FindBoundary(text: seq<CodePoint>, offset: nat) returns (start: Option<nat>)
    requires offset <= Bytes(text)
    ensures match start
      case Some(i) => i <= |text| && Bytes(text[..i]) == offset
      case None => !Boundary(text, offset)
  {
    var i := 0;
    var at := 0;
    while i < |text| && at < offset
      invariant i <= |text| && at == Bytes(text[..i]) <= offset
    {
      var width := Width(text[i]);
      BytesNext(text, i, i);
      if at + width > offset {
        forall k | 0 <= k <= |text| ensures Bytes(text[..k]) != offset {
          if k <= i { PrefixGrows(text, k, i); } else { PrefixGrows(text, i + 1, k); }
        }
        return None;
      }
      at := at + width;
      i := i + 1;
    }
    assert text[..|text|] == text;
    return Some(i);
  }

  /** `readMobileV3Details`, after its request checks, for the detail it resolved. */
  method ReadDetailPage(text: seq<CodePoint>, totalBytes: nat, offset: nat, limit: nat)
      returns (r: Result<Page, PageError>)
    requires totalBytes == Bytes(text) && limit >= 1
    ensures r.Err? <==> !Boundary(text, Min(offset, totalBytes))
    ensures r.Ok? ==> PageOf(text, offset, limit, r.value)
  {
    hide Bytes;
    EmptyBytes();
    var start := FindBoundary(text, Min(offset, totalBytes));
    if start.None? {
      return Err(NotABoundary);
    }
    var first := start.value;
    var end := first;
    var bytes := 0;
    var nextOffset := Min(offset, totalBytes);
    assert text[first..first] == [];
    while end < |text|
      invariant first <= end <= |text| && bytes == Bytes(text[first..end]) && nextOffset == Bytes(text[..end])
      invariant end > first ==> bytes > 0
      invariant end > first + 1 ==> bytes <= limit
    {
      var width := Width(text[end]);
      BytesNext(text, first, end);
      if bytes > 0 && bytes + width > limit {
        break;
      }
      bytes := bytes + width;
      nextOffset := nextOffset + width;
      end := end + 1;
    }
    assert nextOffset >= totalBytes <==> end == |text| by {
      PrefixGrows(text, end, |text|);
      assert text[..|text|] == text;
    }
    var page := Page(Min(offset, totalBytes), nextOffset, totalBytes, nextOffset >= totalBytes, text[first..end]);
    assert CutAt(text, limit, page, first, end);
    return Ok(page);
  }

  lemma SliceBytes(text: seq<CodePoint>, i: nat, j: nat)
    requires i <= j <= |text|
    ensures Bytes(text[..i]) <= Bytes(text[..j]) <= |Encode(text)|
    ensures Encode(text[i..j]) == Encode(text)[Bytes(text[..i])..Bytes(text[..j])]
  {
    var head, middle, rest := text[..i], text[i..j], text[j..];
    assert text[..j] == head + middle && text == (head + middle) + rest;
    EncodeAppend(head, middle);
    EncodeAppend(head + middle, rest);
    EncodeLength(head);
    EncodeLength(head + middle);
    hide Encode, Bytes;
    assert Encode(text) == Encode(head) + Encode(middle) + Encode(rest);
  }

  /** A page holds exactly the encoded bytes between its two offsets. */
  lemma PageHoldsItsBytes(text: seq<CodePoint>, offset: nat, limit: nat, p: Page)
    requires PageOf(text, offset, limit, p)
    ensures p.offset <= p.nextOffset <= |Encode(text)|
    ensures Encode(p.text) == Encode(text)[p.offset..p.nextOffset]
  {
    hide Encode, Bytes;
    var i, j :| 0 <= i <= j <= |text| && CutAt(text, limit, p, i, j);
    SliceBytes(text, i, j);
  }

  // ---- The walk --------------------------------------------------------------------------------

  /** Each page was asked for at the previous page's `nextOffset`, and only while the last was not done; limits may
      differ. */
  ghost predicate Walk(text: seq<CodePoint>, pages: seq<Page>) {
    pages == [] || (
      var n := |pages| - 1;
      && Walk(text, pages[..n]) && (n > 0 ==> !pages[n - 1].done)
      && exists limit: nat :: PageOf(text, NextOffset(pages[..n]), limit, pages[n]))
  }

  function NextOffset(pages: seq<Page>): nat {
    if pages == [] then 0 else pages[|pages| - 1].nextOffset
  }

  function Texts(pages: seq<Page>): seq<CodePoint> {
    if pages == [] then [] else Texts(pages[..|pages| - 1]) + pages[|pages| - 1].text
  }

  lemma SamePrefix(text: seq<CodePoint>, i: nat, j: nat)
    requires i <= |text| && j <= |text| && Bytes(text[..i]) == Bytes(text[..j])
    ensures i == j
  {
    if i < j { PrefixGrows(text, i, j); } else { PrefixGrows(text, j, i); }
  }

  /** A page asked for where the text read so far ends. */
  lemma PageContinues(text: seq<CodePoint>, read: seq<CodePoint>, limit: nat, p: Page)
    requires read <= text && PageOf(text, Bytes(read), limit, p)
    ensures read + p.text <= text && p.nextOffset == Bytes(read + p.text)
    ensures p.done <==> read + p.text == text
    ensures read != text ==> p.text != []
  {
    hide Bytes;
    var i, j :| 0 <= i <= j <= |text| && CutAt(text, limit, p, i, j);
    PrefixGrows(text, |read|, |text|);
    assert text[..|read|] == read && text[..|text|] == text;
    SamePrefix(text, i, |read|);
    assert read + text[i..j] == text[..j];
  }

  /** A walk from the start gives the text read so far; it never asks for an offset inside a code point, moves on with
      every page, and is done exactly at the end of the text. */
  lemma {:induction false} WalkIsPrefix(text: seq<CodePoint>, pages: seq<Page>)
    requires Walk(text, pages)
    ensures Texts(pages) <= text && NextOffset(pages) == Bytes(Texts(pages)) && Boundary(text, NextOffset(pages))
    ensures pages != [] ==> (pages[|pages| - 1].done <==> Texts(pages) == text)
    ensures |pages| <= |Texts(pages)| + (if pages != [] && pages[|pages| - 1].done then 1 else 0)
  {
    hide PageOf, Bytes;
    if pages == [] {
      assert text[..0] == [];
      EmptyBytes();
    } else {
      var n := |pages| - 1;
      WalkIsPrefix(text, pages[..n]);
      var limit: nat :| PageOf(text, NextOffset(pages[..n]), limit, pages[n]);
      PageContinues(text, Texts(pages[..n]), limit, pages[n]);
      assert n > 0 ==> pages[..n][n - 1] == pages[n - 1];
      assert text[..|Texts(pages)|] == Texts(pages);
    }
  }

  lemma EmptyBytes()
    ensures Bytes([]) == 0
  {}

  /** The whole walk: a finished walk concatenates to the text, and none is longer than the text has code points, or
      one. */
  lemma FinishedWalkIsTheText(text: seq<CodePoint>, pages: seq<Page>)
    requires Walk(text, pages) && pages != []
    ensures pages[|pages| - 1].done <==> Texts(pages) == text
    ensures |pages| <= |text| + 1
  {
    WalkIsPrefix(text, pages);
  }

  // ---- The cache -------------------------------------------------------------------------------

  datatype Key = Key(session: string, seqNo: nat, field: string)

  /** A text larger than the whole cache is remembered by its length alone. */
  datatype Entry = Entry(text: Option<seq<CodePoint>>, totalBytes: nat)
  datatype Cache = Cache(details: map<Key, Entry>, order: seq<Key>, bytes: int)
  datatype Limits = Limits(maxBytes: nat, maxEntries: nat)

  const EMPTY := Cache(map[], [], 0)

  function Cost(e: Entry): nat {
    if e.text.Some? then e.totalBytes else 0
  }

  function Costs(details: map<Key, Entry>, order: seq<Key>): nat {
    if order == [] then 0 else (if order[0] in details then Cost(details[order[0]]) else 0) + Costs(details, order[1..])
  }

  ghost predicate Exact(c: Cache) {
    && Distinct(c.order) && (forall k :: k in c.order <==> k in c.details) && c.bytes == Costs(c.details, c.order)
    && forall k :: k in c.details && c.details[k].text.Some? ==>
       c.details[k].totalBytes == Bytes(c.details[k].text.value)
  }

  predicate Within(l: Limits, c: Cache) {
    |c.order| <= l.maxEntries && c.bytes <= l.maxBytes
  }

  /** Drop the oldest detail. */
  function Dropped(c: Cache): Cache
    requires c.order != []
  {
    var oldest := c.order[0];
    Cache(c.details - {oldest}, c.order[1..],
      if oldest in c.details then c.bytes - Cost(c.details[oldest]) else c.bytes)
  }

  function Evicted(l: Limits, c: Cache): Cache
    decreases |c.order|
  {
    if Within(l, c) || c.order == [] then c else Evicted(l, Dropped(c))
  }

  function Stored(l: Limits, c: Cache, k: Key, text: seq<CodePoint>): Cache {
    var total := Bytes(text);
    var entry := Entry(if total <= l.maxBytes then Some(text) else None, total);
    Cache(c.details[k := entry], if k in c.details then c.order else c.order + [k],
          c.bytes - (if k in c.details then Cost(c.details[k]) else 0) + Cost(entry))
  }

  lemma {:induction false} CostsAppend(details: map<Key, Entry>, order: seq<Key>, k: Key)
    requires k in details
    ensures Costs(details, order + [k]) == Costs(details, order) + Cost(details[k])
  {
    if order == [] {
      assert order + [k] == [k] && [k][1..] == [];
    } else {
      assert (order + [k])[1..] == order[1..] + [k];
      CostsAppend(details, order[1..], k);
    }
  }

  lemma {:induction false} CostsOther(details: map<Key, Entry>, order: seq<Key>, k: Key, e: Entry)
    requires k !in order
    ensures Costs(details[k := e], order) == Costs(details, order) == Costs(details - {k}, order)
  {
    if order != [] { CostsOther(details, order[1..], k, e); }
  }

  lemma {:induction false} CostsReplace(details: map<Key, Entry>, order: seq<Key>, k: Key, e: Entry)
    requires k in order && k in details && Distinct(order)
    ensures Costs(details[k := e], order) == Costs(details, order) - Cost(details[k]) + Cost(e)
  {
    if order[0] == k {
      CostsOther(details, order[1..], k, e);
    } else {
      CostsReplace(details, order[1..], k, e);
    }
  }

  lemma StoredExact(l: Limits, c: Cache, k: Key, text: seq<CodePoint>)
    requires Exact(c)
    ensures Exact(Stored(l, c, k, text))
  {
    var s := Stored(l, c, k, text);
    if k in c.details {
      CostsReplace(c.details, c.order, k, s.details[k]);
    } else {
      CostsOther(c.details, c.order, k, s.details[k]);
      CostsAppend(s.details, c.order, k);
    }
  }

  lemma DroppedExact(c: Cache)
    requires Exact(c) && c.order != []
    ensures Exact(Dropped(c))
  {
    assert c.order == [c.order[0]] + c.order[1..];
    CostsOther(c.details, c.order[1..], c.order[0], c.details[c.order[0]]);
  }

  lemma {:induction false} CostsSuffix(details: map<Key, Entry>, order: seq<Key>, i: nat)
    requires i <= |order|
    ensures Costs(details, order[i..]) <= Costs(details, order)
  {
    if i > 0 {
      CostsSuffix(details, order[1..], i - 1);
      assert order[1..][i - 1..] == order[i..];
    } else {
      assert order[0..] == order;
    }
  }

  lemma {:induction false} EvictedShrinks(l: Limits, c: Cache)
    ensures forall k :: k in Evicted(l, c).details ==> k in c.details && Evicted(l, c).details[k] == c.details[k]
    decreases |c.order|
  {
    if !Within(l, c) && c.order != [] {
      EvictedShrinks(l, Dropped(c));
    }
  }

  /** Eviction keeps exactly the newest details that fit together. */
  lemma {:induction false} NewestSurvive(l: Limits, c: Cache, i: nat)
    requires Exact(c) && i < |c.order|
    ensures c.order[i] in Evicted(l, c).details
      <==> |c.order| - i <= l.maxEntries && Costs(c.details, c.order[i..]) <= l.maxBytes
    decreases |c.order|
  {
    if Within(l, c) || i == 0 {
      OldestSurvives(l, c, i);
    } else {
      var d := Dropped(c);
      DroppedExact(c);
      assert d.order[i - 1] == c.order[i] && d.order[i - 1..] == c.order[i..] && |d.order| == |c.order| - 1;
      SuffixCosts(c, i);
      assert Evicted(l, c) == Evicted(l, d);
      hide Exact, Costs, Dropped, Evicted;
      NewestSurvive(l, d, i - 1);
    }
  }

  /** Nothing is evicted, or the oldest detail is. */
  lemma OldestSurvives(l: Limits, c: Cache, i: nat)
    requires Exact(c) && i < |c.order| && (Within(l, c) || i == 0)
    ensures c.order[i] in Evicted(l, c).details
      <==> |c.order| - i <= l.maxEntries && Costs(c.details, c.order[i..]) <= l.maxBytes
  {
    assert c.order[i] in c.order;
    if Within(l, c) {
      assert Evicted(l, c) == c;
      hide Evicted;
      CostsSuffix(c.details, c.order, i);
    } else {
      assert c.order[0..] == c.order;
      assert Evicted(l, c) == Evicted(l, Dropped(c));
      EvictedShrinks(l, Dropped(c));
      hide Evicted, Costs;
    }
  }

  /** Dropping the oldest detail does not change what the newer ones cost. */
  lemma SuffixCosts(c: Cache, i: nat)
    requires Exact(c) && 0 < i < |c.order|
    ensures Costs(Dropped(c).details, c.order[i..]) == Costs(c.details, c.order[i..])
  {
    forall k | k in c.order[i..] ensures k != c.order[0] {
      var j :| i <= j < |c.order| && c.order[j] == k;
    }
    CostsOther(c.details, c.order[i..], c.order[0], c.details[c.order[0]]);
  }

  /** A detail put under a new key can be read back, unless no entry is allowed at all; under a known key it keeps its
      old place, so it stays only if everything put since fits beside it. */
  lemma PutDetailStays(l: Limits, c: Cache, k: Key, text: seq<CodePoint>, i: nat)
    requires Exact(c) && i < |Stored(l, c, k, text).order| && Stored(l, c, k, text).order[i] == k
    ensures var after := Evicted(l, Stored(l, c, k, text)); var s := Stored(l, c, k, text);
      && (k in after.details ==>
         after.details[k] == Entry(if Bytes(text) <= l.maxBytes then Some(text) else None, Bytes(text)))
      && (k !in c.details ==> (k in after.details <==> l.maxEntries >= 1))
      && (k in after.details <==> |s.order| - i <= l.maxEntries && Costs(s.details, s.order[i..]) <= l.maxBytes)
  {
    var s := Stored(l, c, k, text);
    StoredExact(l, c, k, text);
    NewestSurvive(l, s, i);
    EvictedShrinks(l, s);
    if k !in c.details {
      assert i == |s.order| - 1;
      assert s.order[i..] == [k] && [k][1..] == [];
    }
  }

  /** A known detail put again with a longer text can throw itself out. */
  lemma RefreshCanEvictItself()
    ensures exists l, c, k, text :: Exact(c) && Within(l, c) && k in c.details && Bytes(text) <= l.maxBytes
                                    && k !in Evicted(l, Stored(l, c, k, text)).details
  {
    var a, b := Key("s", 0, "a"), Key("s", 1, "b");
    var l := Limits(2, 8);
    var one := Entry(Some([65]), 1);
    assert [65][1..] == [];
    var c := Cache(map[a := one, b := one], [a, b], 2);
    assert Exact(c) by {
      assert c.order[1..] == [b] && [b][1..] == [];
      assert Bytes([65]) == 1;
      assert Costs(c.details, [b]) == 1;
    }
    var text := [65, 65];
    assert text[1..] == [65] && Bytes(text) == 2;
    StoredExact(l, c, a, text);
    NewestSurvive(l, Stored(l, c, a, text), 0);
    var s := Stored(l, c, a, text);
    assert s.order[0..] == [a, b] && [a, b][1..] == [b] && [b][1..] == [];
    assert Costs(s.details, [a, b]) == 3;
    assert a !in Evicted(l, s).details;
  }

  class DetailCache {
    const limits: Limits
    var details: map<Key, Entry>
    var detailOrder: seq<Key>
    var detailBytes: int

    function Abstract(): Cache
      reads this
    {
      Cache(details, detailOrder, detailBytes)
    }

    ghost predicate Valid()
      reads this
    {
      Exact(Abstract()) && Within(limits, Abstract())
    }

    constructor (limits: Limits)
      ensures Valid() && Abstract() == EMPTY && this.limits == limits
    {
      this.limits := limits;
      details, detailOrder, detailBytes := map[], [], 0;
    }

    /** The eviction loop of `putDetail` ends because the byte count is exact: an empty cache counts nothing. */
    method EvictOldest()
      requires Exact(Abstract())
      modifies this`details, this`detailOrder, this`detailBytes
      ensures Valid() && Abstract() == Evicted(limits, old(Abstract()))
    {
      while |detailOrder| > limits.maxEntries || detailBytes > limits.maxBytes
        invariant Exact(Abstract()) && Evicted(limits, Abstract()) == Evicted(limits, old(Abstract()))
        decreases |detailOrder|
      {
        DroppedExact(Abstract());
        var oldest := detailOrder[0];
        detailOrder := detailOrder[1..];
        if oldest in details {
          detailBytes := detailBytes - Cost(details[oldest]);
        }
        details := details - {oldest};
      }
    }

    /** `putDetail`. */
    method PutDetail(k: Key, text: seq<CodePoint>)
      requires Valid()
      modifies this`details, this`detailOrder, this`detailBytes
      ensures Valid() && Abstract() == Evicted(limits, Stored(limits, old(Abstract()), k, text))
    {
      var totalBytes := Bytes(text);
      if k in details {
        detailBytes := detailBytes - Cost(details[k]);
      } else {
        detailOrder := detailOrder + [k];
      }
      details := details[k := Entry(if totalBytes <= limits.maxBytes then Some(text) else None, totalBytes)];
      if totalBytes <= limits.maxBytes {
        detailBytes := detailBytes + totalBytes;
      }
      StoredExact(limits, old(Abstract()), k, text);
      assert Abstract() == Stored(limits, old(Abstract()), k, text);
      hide Stored, Exact, Evicted;
      EvictOldest();
    }
  }
}
