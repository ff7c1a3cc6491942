/** A page of legacy history on its way to canonical form and back, packages/runtime-interface/src/index.js: packed rows
    are expanded, and one index, threaded through the page, gives each message the chunks it names. */
module WirePages {
  import opened Prelude
  import opened WireConversion
  import opened WireHistory

  // ---- The chunks a message is made of ---------------------------------------------------------

  predicate IsChunkEvent(e: Rec) {
    "seq" in e && NonNegative(e["seq"]) && "data" in e && e["data"].Obj? && "chunk" in e["data"].o
      && e["data"].o["chunk"].Obj?
  }

  function StreamMember(e: Rec): Json
    requires IsChunkEvent(e)
  {
    Obj(With(map["type" := Str("chunk"), "chunk" := e["data"].o["chunk"]], "time", Get(e, "time")))
  }

  /** Every named seq is held. */
  predicate Held(members: map<int, Json>, named: seq<Json>) {
    forall i :: 0 <= i < |named| ==> NonNegative(named[i]) && named[i].n in members
  }

  function Named(named: seq<Json>): set<int> {
    set i | 0 <= i < |named| && named[i].Num? :: named[i].n
  }

  class LegacyStreamIndex {
    var members: map<int, Json>

    constructor ()
      ensures members == map[]
    {
      members := map[];
    }

    method Remember(e: Rec)
      requires "seq" in e && NonNegative(e["seq"])
      modifies this
      ensures members == if IsChunkEvent(e) then old(members)[e["seq"].n := StreamMember(e)] else old(members)
    {
      if IsChunkEvent(e) {
        members := members[e["seq"].n := StreamMember(e)];
      }
    }

    /** All the named chunks, in the order named, and they are given away; or none, and nothing changes. */
    method TakeStream(sourceEventSeqs: Json) returns (stream: seq<Json>)
      modifies this
      ensures !(sourceEventSeqs.Arr? && Held(old(members), sourceEventSeqs.a)) ==>
        stream == [] && members == old(members)
      ensures sourceEventSeqs.Arr? && Held(old(members), sourceEventSeqs.a) ==>
        && |stream| == |sourceEventSeqs.a| && members == old(members) - Named(sourceEventSeqs.a)
        && forall i :: 0 <= i < |stream| ==> stream[i] == old(members)[sourceEventSeqs.a[i].n]
    {
      stream := [];
      if !sourceEventSeqs.Arr? {
        return;
      }
      var named := sourceEventSeqs.a;
      for i := 0 to |named|
        invariant members == old(members) && |stream| == i && Held(members, named[..i])
        invariant forall j :: 0 <= j < i ==> stream[j] == members[named[j].n]
      {
        if !NonNegative(named[i]) || named[i].n !in members {
          return [];
        }
        stream := stream + [members[named[i].n]];
      }
      assert named[..|named|] == named;
      for i := 0 to |named|
        invariant members == old(members) - Named(named[..i])
      {
        assert Named(named[..i + 1]) == Named(named[..i]) + {named[i].n} by { NamedNext(named, i); }
        members := members - {named[i].n};
      }
    }
  }

  lemma NamedNext(named: seq<Json>, i: nat)
    requires i < |named| && named[i].Num?
    ensures Named(named[..i + 1]) == Named(named[..i]) + {named[i].n}
  {
    assert named[..i + 1] == named[..i] + [named[i]];
    forall n ensures n in Named(named[..i + 1]) <==> n in Named(named[..i]) + {named[i].n} {
      if n in Named(named[..i]) {
        var j :| 0 <= j < i && named[..i][j].Num? && named[..i][j].n == n;
        assert named[..i + 1][j].n == n;
      }
      if n == named[i].n { assert named[..i + 1][i].n == n; }
    }
  }

  // ---- Converting a page -----------------------------------------------------------------------

  datatype Record = Packed(row: Rec) | Single(event: Rec)

  /** The checks that come before anything else is done with an event. */
  predicate Checked(e: Rec) {
    && "seq" in e && NonNegative(e["seq"]) && ("time" in e ==> IsInt(e["time"])) && "type" in e && e["type"].Str?
  }

  predicate Chunk(e: Rec) {
    Has(e, "type", Str("assistant/chunk")) && IsChunkEvent(e)
  }

  /** The event is a message whose stream is rebuilt from the chunks it names. */
  predicate Embeds(e: Rec) {
    Has(e, "type", Str("assistant/message")) && NeedsStream(e) && "data" in e && e["data"].Obj?
  }

  function NamedBy(e: Rec): seq<Json>
    requires Embeds(e)
  {
    e["sourceEventSeqs"].a
  }

  /** The index after an event. */
  function Indexed(members: map<int, Json>, e: Rec): map<int, Json> {
    if !Checked(e) then members
    else if Chunk(e) then members[SeqOf(e) := StreamMember(e)]
    else if Embeds(e) && Held(members, NamedBy(e)) then members - Named(NamedBy(e))
    else members
  }

  /** The stream a message gets from the index. */
  function StreamFrom(members: map<int, Json>, e: Rec): seq<Json> {
    if Embeds(e) && Held(members, NamedBy(e))
    then seq(|NamedBy(e)|, i requires 0 <= i < |NamedBy(e)| => members[NamedBy(e)[i].n]) else []
  }

  function SeqOf(e: Rec): int
    requires IsChunkEvent(e)
  {
    e["seq"].n
  }

  /** The index before the `i`-th event of a page. */
  function IndexAt(start: map<int, Json>, events: seq<Rec>, i: nat): map<int, Json>
    requires i <= |events|
  {
    if i == 0 then start else Indexed(IndexAt(start, events, i - 1), events[i - 1])
  }

  function ConvertedAt(start: map<int, Json>, events: seq<Rec>, hostId: Option<string>, i: nat): Result<Rec, Failure>
    requires i < |events|
  {
    CanonicalLegacyEvent(events[i], hostId, StreamFrom(IndexAt(start, events, i), events[i]))
  }

  predicate Expands(r: Record) {
    r.Packed? ==> WellFormedRow(r.row) && KnownRow(r.row) && TimesSafe(r.row)
  }

  function Members(r: Record): seq<Rec>
    requires Expands(r)
  {
    match r
    case Packed(row) => seq(|Values(row)|, i requires 0 <= i < |Values(row)| => Member(row, i))
    case Single(event) => [event]
  }

  /** The events of a page, its rows expanded. */
  function Expanded(records: seq<Record>): seq<Rec>
    requires forall i :: 0 <= i < |records| ==> Expands(records[i])
  {
    if records == [] then [] else Expanded(records[..|records| - 1]) + Members(records[|records| - 1])
  }

  /** The page converts: every row expands, and every event converts with the stream it gets. */
  predicate Converts(start: map<int, Json>, records: seq<Record>, hostId: Option<string>) {
    && (forall i :: 0 <= i < |records| ==> Expands(records[i]))
    && forall i :: 0 <= i < |Expanded(records)| ==> ConvertedAt(start, Expanded(records), hostId, i).Ok?
  }

  lemma IndexPrefix(start: map<int, Json>, a: seq<Rec>, b: seq<Rec>, i: nat)
    requires i <= |a| && a <= b
    ensures IndexAt(start, a, i) == IndexAt(start, b, i)
  {
    if i > 0 { IndexPrefix(start, a, b, i - 1); }
  }

  lemma {:induction false} ExpandedPrefix(records: seq<Record>, n: nat)
    requires n <= |records| && forall i :: 0 <= i < |records| ==> Expands(records[i])
    ensures Expanded(records[..n]) <= Expanded(records)
  {
    if n < |records| {
      ExpandedPrefix(records[..|records| - 1], n);
      assert records[..|records| - 1][..n] == records[..n];
    } else {
      assert records[..n] == records;
    }
  }

  class HistoryContext {
    const hostId: Option<string>
    const streams: LegacyStreamIndex

    constructor (hostId: Option<string>)
      ensures streams.members == map[] && fresh(streams) && this.hostId == hostId
    {
      this.hostId := hostId;
      streams := new LegacyStreamIndex();
    }

    /** `canonicalLegacyEvent`. */
    method CanonicalEvent(e: Rec) returns (r: Result<Rec, Failure>)
      modifies streams
      ensures r == CanonicalLegacyEvent(e, hostId, StreamFrom(old(streams.members), e))
      ensures streams.members == Indexed(old(streams.members), e)
    {
      if !Checked(e) {
        return CanonicalLegacyEvent(e, hostId, []);
      }
      var stream: seq<Json> := [];
      if e["type"].s == "assistant/chunk" {
        streams.Remember(e);
      } else if Embeds(e) {
        stream := streams.TakeStream(e["sourceEventSeqs"]);
        assert stream == StreamFrom(old(streams.members), e);
      }
      r := CanonicalLegacyEvent(e, hostId, stream);
    }

    /** The inner loop of `canonicalHistoryRecords`; `done` are the events converted before. */
    method CanonicalEvents(ghost start: map<int, Json>, ghost done: seq<Rec>, more: seq<Rec>)
        returns (r: Result<seq<Rec>, Failure>)
      requires streams.members == IndexAt(start, done, |done|)
      modifies streams
      ensures r.Ok? <==> forall i :: |done| <= i < |done + more| ==> ConvertedAt(start, done + more, hostId, i).Ok?
      ensures r.Ok? ==> |r.value| == |more| && streams.members == IndexAt(start, done + more, |done + more|)
      ensures r.Ok? ==> forall i :: 0 <= i < |more| ==>
        ConvertedAt(start, done + more, hostId, |done| + i) == Ok(r.value[i])
    {
      hide CanonicalLegacyEvent, Indexed, StreamFrom;
      ghost var all := done + more;
      IndexPrefix(start, done, all, |done|);
      var output: seq<Rec> := [];
      for k := 0 to |more|
        invariant |output| == k && streams.members == IndexAt(start, all, |done| + k)
        invariant forall i :: 0 <= i < k ==> ConvertedAt(start, all, hostId, |done| + i) == Ok(output[i])
      {
        assert all[|done| + k] == more[k];
        var converted := CanonicalEvent(more[k]);
        assert converted == ConvertedAt(start, all, hostId, |done| + k);
        if converted.Err? {
          return Err(converted.error);
        }
        output := output + [converted.value];
      }
      assert forall i :: |done| <= i < |all| ==> ConvertedAt(start, all, hostId, i) == Ok(output[i - |done|]);
      return Ok(output);
    }

    /** `canonicalHistoryRecords`. */
    method CanonicalHistoryRecords(records: seq<Record>) returns (r: Result<seq<Rec>, Failure>)
      modifies streams
      ensures r.Ok? <==> Converts(old(streams.members), records, hostId)
      ensures r.Ok? ==>
        && |r.value| == |Expanded(records)|
           && streams.members == IndexAt(old(streams.members), Expanded(records), |r.value|)
        && forall i :: 0 <= i < |r.value| ==>
           ConvertedAt(old(streams.members), Expanded(records), hostId, i) == Ok(r.value[i])
    {
      hide ConvertedAt, Expands, Members;
      ghost var start := streams.members;
      ghost var done: seq<Rec> := [];
      var output: seq<Rec> := [];
      for k := 0 to |records|
        invariant forall i :: 0 <= i < k ==> Expands(records[i])
        invariant done == Expanded(records[..k]) && |output| == |done|
          && streams.members == IndexAt(start, done, |done|)
        invariant forall i :: 0 <= i < |done| ==> ConvertedAt(start, done, hostId, i) == Ok(output[i])
      {
        assert records[..k + 1][..k] == records[..k];
        var events := ExpandRecord(records[k]);
        if events.Err? {
          return Err(events.error);
        }
        assert Expanded(records[..k + 1]) == done + events.value;
        ghost var all := done + events.value;
        var more := CanonicalEvents(start, done, events.value);
        forall i | 0 <= i < |done| ensures ConvertedAt(start, all, hostId, i) == ConvertedAt(start, done, hostId, i) {
          SameConversion(start, done, all, hostId, i);
        }
        if more.Err? {
          ghost var i :| |done| <= i < |all| && ConvertedAt(start, all, hostId, i).Err?;
          FailsEverywhere(start, records, hostId, k + 1, i);
          return Err(more.error);
        }
        output, done := output + more.value, all;
      }
      assert records[..|records|] == records;
      return Ok(output);
    }

    method ExpandRecord(r: Record) returns (events: Result<seq<Rec>, Failure>)
      ensures events.Ok? <==> Expands(r)
      ensures events.Ok? ==> events.value == Members(r)
    {
      match r
      case Packed(row) => events := ExpandLegacyChunkRun(row);
      case Single(event) => events := Ok([event]);
    }
  }

  lemma SameConversion(start: map<int, Json>, a: seq<Rec>, b: seq<Rec>, hostId: Option<string>, i: nat)
    requires i < |a| && a <= b
    ensures ConvertedAt(start, a, hostId, i) == ConvertedAt(start, b, hostId, i)
  {
    IndexPrefix(start, a, b, i);
  }

  lemma FailsEverywhere(start: map<int, Json>, records: seq<Record>, hostId: Option<string>, n: nat, i: nat)
    requires n <= |records| && forall k :: 0 <= k < n ==> Expands(records[k])
    requires i < |Expanded(records[..n])| && ConvertedAt(start, Expanded(records[..n]), hostId, i).Err?
    ensures !Converts(start, records, hostId)
  {
    hide ConvertedAt, Expands;
    if forall k :: 0 <= k < |records| ==> Expands(records[k]) {
      ExpandedPrefix(records, n);
      SameConversion(start, Expanded(records[..n]), Expanded(records), hostId, i);
    }
  }

  // ---- Which chunks a message embeds -----------------------------------------------------------

  /** Before event `i`, the chunk under seq `v` is event `j`: no later chunk has that seq, and no message has taken
      it. */
  ghost predicate Offers(events: seq<Rec>, i: nat, j: nat, v: int)
    requires i <= |events|
    decreases i, 0
  {
    && j < i && Chunk(events[j]) && SeqOf(events[j]) == v
    && forall m :: j < m < i ==> !(Chunk(events[m]) && SeqOf(events[m]) == v) && !TakesSeq(events, m, v)
  }

  ghost predicate OnOffer(events: seq<Rec>, i: nat, v: int)
    requires i <= |events|
    decreases i, 1
  {
    exists j: nat :: Offers(events, i, j, v)
  }

  /** Event `i` is a message all of whose named chunks are there. */
  ghost predicate Takes(events: seq<Rec>, i: nat)
    requires i < |events|
    decreases i, 2
  {
    && Embeds(events[i])
    && forall n :: 0 <= n < |NamedBy(events[i])| ==>
         NonNegative(NamedBy(events[i])[n]) && OnOffer(events, i, NamedBy(events[i])[n].n)
  }

  ghost predicate TakesSeq(events: seq<Rec>, i: nat, v: int)
    requires i < |events|
    decreases i, 3
  {
    Takes(events, i) && v in Named(NamedBy(events[i]))
  }

  lemma OffersNext(events: seq<Rec>, i: nat, j: nat, v: int)
    requires i < |events|
    ensures Offers(events, i + 1, j, v) <==>
            (|| (j == i && Chunk(events[i]) && SeqOf(events[i]) == v)
             || (Offers(events, i, j, v) && !(Chunk(events[i]) && SeqOf(events[i]) == v) && !TakesSeq(events, i, v)))
  {}

  lemma OnOfferNext(events: seq<Rec>, i: nat, v: int)
    requires i < |events|
    ensures OnOffer(events, i + 1, v) <==>
            (Chunk(events[i]) && SeqOf(events[i]) == v) || (OnOffer(events, i, v) && !TakesSeq(events, i, v))
  {
    OffersNext(events, i, i, v);
    if j: nat :| Offers(events, i, j, v) { OffersNext(events, i, j, v); }
    if OnOffer(events, i + 1, v) {
      var j: nat :| Offers(events, i + 1, j, v);
      OffersNext(events, i, j, v);
    }
    hide Takes, Chunk;
  }

  /** The index holds exactly the chunks on offer. */
  ghost predicate IndexIs(members: map<int, Json>, events: seq<Rec>, i: nat)
    requires i <= |events|
  {
    && (forall v :: v in members <==> OnOffer(events, i, v))
    && (forall v, j: nat :: Offers(events, i, j, v) ==> v in members && members[v] == StreamMember(events[j]))
  }

  lemma HeldIffTakes(members: map<int, Json>, events: seq<Rec>, i: nat)
    requires i < |events| && IndexIs(members, events, i)
    ensures Takes(events, i) <==> Embeds(events[i]) && Held(members, NamedBy(events[i]))
  {
    hide Embeds;
  }

  lemma IndexNext(members: map<int, Json>, events: seq<Rec>, i: nat)
    requires i < |events| && Checked(events[i]) && IndexIs(members, events, i)
    ensures IndexIs(Indexed(members, events[i]), events, i + 1)
  {
    var e, next := events[i], Indexed(members, events[i]);
    HeldIffTakes(members, events, i);
    ChunksAreNoMessages(e);
    hide Offers, OnOffer, Takes, Held, Embeds, Chunk, StreamMember, IsChunkEvent, Checked, Named;
    forall v ensures v in next <==> OnOffer(events, i + 1, v) { OnOfferNext(events, i, v); }
    forall v, j: nat | Offers(events, i + 1, j, v) ensures v in next && next[v] == StreamMember(events[j]) {
      OffersNext(events, i, j, v);
    }
  }

  lemma ChunksAreNoMessages(e: Rec)
    ensures !(Chunk(e) && Embeds(e))
  {
    assert "assistant/chunk"[10] != "assistant/message"[10];
  }

  lemma {:induction false} IndexHolds(events: seq<Rec>, i: nat)
    requires i <= |events| && forall k :: 0 <= k < i ==> Checked(events[k])
    ensures IndexIs(IndexAt(map[], events, i), events, i)
  {
    if i > 0 {
      hide Indexed, IndexIs, Checked;
      IndexHolds(events, i - 1);
      IndexNext(IndexAt(map[], events, i - 1), events, i - 1);
    } else {
      assert forall j: nat, v :: !Offers(events, 0, j, v);
    }
  }

  /** Over a whole page of interleaved chunks and messages: a message that names chunks which are all there, each given
      before it and not taken by a message in between, embeds exactly those, in the order it names them; any other
      message embeds nothing. No chunk is embedded by two messages. */
  lemma MessageEmbeds(events: seq<Rec>, i: nat)
    requires i < |events| && Embeds(events[i]) && forall k :: 0 <= k < i ==> Checked(events[k])
    ensures var stream := StreamFrom(IndexAt(map[], events, i), events[i]);
      if !Takes(events, i) then stream == []
      else
        && |stream| == |NamedBy(events[i])|
        && forall n :: 0 <= n < |stream| ==>
             exists j: nat :: Offers(events, i, j, NamedBy(events[i])[n].n) && stream[n] == StreamMember(events[j])
    ensures Takes(events, i) ==> forall later: nat, j: nat, v ::
      i < later <= |events| && Offers(events, i, j, v) && v in Named(NamedBy(events[i])) ==>
        !Offers(events, later, j, v)
  {
    var members := IndexAt(map[], events, i);
    IndexHolds(events, i);
    HeldIffTakes(members, events, i);
    if Takes(events, i) {
      var stream := StreamFrom(members, events[i]);
      forall n | 0 <= n < |stream|
        ensures exists j: nat :: Offers(events, i, j, NamedBy(events[i])[n].n) && stream[n] == StreamMember(events[j])
      {
        assert OnOffer(events, i, NamedBy(events[i])[n].n);
        var j: nat :| Offers(events, i, j, NamedBy(events[i])[n].n);
      }
    }
  }

  // ---- Round trip ------------------------------------------------------------------------------

  /** What a legacy browser is shown of the `i`-th event. */
  function ShownAt(start: map<int, Json>, events: seq<Rec>, hostId: Option<string>, i: nat): Result<Rec, Failure>
    requires i < |events| && ConvertedAt(start, events, hostId, i).Ok?
  {
    CanonicalShape(events[i], hostId, StreamFrom(IndexAt(start, events, i), events[i]));
    BrowserEvent(ConvertedAt(start, events, hostId, i).value, true)
  }

  /** A converted page reaches a legacy browser with its header and every event unchanged exactly when the header has no
      field of the newer formats and every event that was not packed speaks the legacy vocabulary: expanded rows always
      do. */
  lemma PageRoundTrip(start: map<int, Json>, header: Rec, records: seq<Record>, hostId: Option<string>)
    requires CanonicalHeader(header).Ok? && Converts(start, records, hostId)
    ensures var events := Expanded(records);
      (&& BrowserHeader(CanonicalHeader(header).value, true) == header
       && forall i :: 0 <= i < |events| ==> ShownAt(start, events, hostId, i) == Ok(events[i]))
      <==> (&& "seed" !in header && "isSeeded" !in header
            && forall k :: 0 <= k < |records| && records[k].Single? ==> SpeaksLegacy(records[k].event))
  {
    var events := Expanded(records);
    HeaderRoundTrip(header);
    hide BrowserHeader, CanonicalHeader;
    hide ShownAt, ConvertedAt, Expands, SpeaksLegacy;
    forall i | 0 <= i < |events| ensures ShownAt(start, events, hostId, i) == Ok(events[i])
      <==> SpeaksLegacy(events[i]) {
      ShownUnchanged(start, events, hostId, i);
    }
    ExpandedSpeaks(records);
  }

  lemma ShownUnchanged(start: map<int, Json>, events: seq<Rec>, hostId: Option<string>, i: nat)
    requires i < |events| && ConvertedAt(start, events, hostId, i).Ok?
    ensures ShownAt(start, events, hostId, i) == Ok(events[i]) <==> SpeaksLegacy(events[i])
  {
    LegacyRoundTrip(events[i], hostId, StreamFrom(IndexAt(start, events, i), events[i]));
    hide BrowserEvent, CanonicalLegacyEvent, LegacyVocabulary, StreamFrom, IndexAt;
  }

  predicate SpeaksLegacy(e: Rec) {
    "type" in e && e["type"].Str? && LegacyVocabulary(e)
  }

  predicate AllSpeakLegacy(events: seq<Rec>) {
    forall i :: 0 <= i < |events| ==> SpeaksLegacy(events[i])
  }

  lemma SpeaksAppend(a: seq<Rec>, b: seq<Rec>)
    ensures AllSpeakLegacy(a + b) <==> AllSpeakLegacy(a) && AllSpeakLegacy(b)
  {
    hide SpeaksLegacy;
    assert forall i :: 0 <= i < |b| ==> (a + b)[|a| + i] == b[i];
    assert forall i :: 0 <= i < |a| ==> (a + b)[i] == a[i];
  }

  lemma MembersSpeak(r: Record)
    requires Expands(r)
    ensures AllSpeakLegacy(Members(r)) <==> (r.Single? ==> SpeaksLegacy(r.event))
  {
    match r
    case Single(event) =>
      assert Members(r)[0] == event;
    case Packed(row) =>
      forall i | 0 <= i < |Members(r)| ensures SpeaksLegacy(Members(r)[i]) {
        var m := Member(row, i);
        assert m.Keys == {"type", "seq", "time", "data"} && Has(m, "type", Str("assistant/chunk"));
        hide Member, WellFormedRow, LegacyVocabulary;
        ChunkVocabulary(m);
      }
  }

  lemma {:induction false} ExpandedSpeaks(records: seq<Record>)
    requires forall i :: 0 <= i < |records| ==> Expands(records[i])
    ensures AllSpeakLegacy(Expanded(records))
            <==> (forall k :: 0 <= k < |records| && records[k].Single? ==> SpeaksLegacy(records[k].event))
  {
    if records != [] {
      var n := |records| - 1;
      ExpandedSpeaks(records[..n]);
      MembersSpeak(records[n]);
      hide SpeaksLegacy, Members, Expands;
      SpeaksAppend(Expanded(records[..n]), Members(records[n]));
      assert forall k :: 0 <= k < n ==> records[..n][k] == records[k];
    }
  }
}
