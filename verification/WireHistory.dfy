/** Around the event conversions of packages/runtime-interface/src/index.js: current events, headers and packed chunk
    rows. */
module WireHistory {
  import opened Prelude
  import opened WireConversion

  // ---- Current events --------------------------------------------------------------------------

  predicate CurrentReplace(op: Json) {
    Replaces(op) ==>
      op.o.Keys == {"op", "startSeq", "endSeq"} && NonNegative(op.o["startSeq"]) && NonNegative(op.o["endSeq"])
  }

  predicate CurrentVocabulary(e: Rec) {
    && e.Keys !! CANONICAL_ONLY && ("surfaceOp" in e ==> CurrentReplace(e["surfaceOp"]))
    && !(Has(e, "type", Str("assistant/message")) && "sourceEventSeqs" in e)
  }

  lemma ReplaceKept(op: Json)
    requires NormalizeReplace(op).Ok?
    ensures NormalizeReplace(NormalizeReplace(op).value) == NormalizeReplace(op)
    ensures NormalizeReplace(op).value == op <==> CurrentReplace(op)
  {
    if Replaces(op) && CurrentReplace(op) {
      assert op.o == map["op" := Str("replace"), "startSeq" := op.o["startSeq"], "endSeq" := op.o["endSeq"]];
    }
    if Replaces(op) && NormalizeReplace(op).value == op {
      assert NormalizeReplace(op).value.o.Keys == {"op", "startSeq", "endSeq"};
    }
  }

  /** What a current browser sees of a current event. */
  function CurrentSeen(e: Rec): Rec
    requires "surfaceOp" in e ==> NormalizeReplace(e["surfaceOp"]).Ok?
  {
    var visible := e - CANONICAL_ONLY;
    var trimmed := if Has(visible, "type", Str("assistant/message")) then visible - {"sourceEventSeqs"} else visible;
    if "surfaceOp" in e then trimmed["surfaceOp" := NormalizeReplace(e["surfaceOp"]).value] else trimmed
  }

  lemma CurrentBack(e: Rec, hostId: Option<string>)
    requires "seq" in e && "type" in e && e["type"].Str? && UpstreamToCanonicalEvent(e, hostId).Ok?
    ensures var c := UpstreamToCanonicalEvent(e, hostId).value;
      "seq" in c && "type" in c && c["type"].Str? && BrowserEvent(c, false) == Ok(CurrentSeen(e))
  {
    var c := UpstreamToCanonicalEvent(e, hostId).value;
    ConvertedVisible(e, hostId);
    if "surfaceOp" in e {
      ReplaceKept(e["surfaceOp"]);
      var op := NormalizeReplace(e["surfaceOp"]).value;
      var visible := e - CANONICAL_ONLY;
      assert visible["surfaceOp" := op] - {"sourceEventSeqs"} == (visible - {"sourceEventSeqs"})["surfaceOp" := op];
      assert visible["surfaceOp" := op]["surfaceOp" := op] == visible["surfaceOp" := op];
      assert (visible - {"sourceEventSeqs"})["surfaceOp" := op]["surfaceOp" := op]
        == (visible - {"sourceEventSeqs"})["surfaceOp" := op];
    }
    hide UpstreamToCanonicalEvent, NormalizeReplace;
  }

  /** A current event comes back unchanged exactly when it speaks the current vocabulary. */
  lemma CurrentRoundTrip(e: Rec, hostId: Option<string>)
    requires "seq" in e && "type" in e && e["type"].Str? && UpstreamToCanonicalEvent(e, hostId).Ok?
    ensures var c := UpstreamToCanonicalEvent(e, hostId).value;
      "seq" in c && "type" in c && c["type"].Str? && (BrowserEvent(c, false) == Ok(e) <==> CurrentVocabulary(e))
  {
    CurrentBack(e, hostId);
    if "surfaceOp" in e { ReplaceKept(e["surfaceOp"]); }
    CurrentSeenIsSame(e);
    hide UpstreamToCanonicalEvent, BrowserEvent, CurrentSeen;
  }

  lemma CurrentSeenIsSame(e: Rec)
    requires "surfaceOp" in e ==> NormalizeReplace(e["surfaceOp"]).Ok?
    ensures CurrentSeen(e) == e <==> CurrentVocabulary(e)
  {
    if "surfaceOp" in e { ReplaceKept(e["surfaceOp"]); }
    if CurrentVocabulary(e) {
      assert e - CANONICAL_ONLY == e;
      assert "sourceEventSeqs" !in e ==> e - {"sourceEventSeqs"} == e;
      assert "surfaceOp" in e ==> e["surfaceOp" := e["surfaceOp"]] == e;
    }
    assert CurrentSeen(e).Keys !! CANONICAL_ONLY;
    if CurrentSeen(e) == e && "surfaceOp" in e {
      assert CurrentSeen(e)["surfaceOp"] == NormalizeReplace(e["surfaceOp"]).value;
    }
  }

  // ---- Headers ---------------------------------------------------------------------------------

  /** `canonicalHeader`. */
  function CanonicalHeader(h: Rec): Result<Rec, Failure> {
    if "seedLength" in h && !NonNegative(h["seedLength"]) then Err(InvalidSequence)
    else
      var seeded := "seedLength" in h || Has(h, "isSeeded", Bool(true));
      var seed := With(map["isSeeded" := Bool(seeded)], "inheritedEventCount", Get(h, "seedLength"));
      Ok((h - {"seedLength", "isSeeded"})["seed" := Obj(seed)])
  }

  /** `browserHeader`. */
  function BrowserHeader(h: Rec, legacy: bool): Rec {
    var rest := h - {"seed", "seedLength", "isSeeded"};
    var seed := if "seed" in h && h["seed"].Obj? then h["seed"].o else map[];
    var seeded := Has(seed, "isSeeded", Bool(true));
    if !legacy then rest["isSeeded" := Bool(seeded)]
    else if seeded && "inheritedEventCount" in seed && seed["inheritedEventCount"].Num?
      && SafeInt(seed["inheritedEventCount"].n, -MAX_SAFE)
    then rest["seedLength" := seed["inheritedEventCount"]] else rest
  }

  /** A legacy header comes back unchanged exactly when it has no field of the newer formats; a current one exactly when
      it says whether it is seeded, and has no field of the others. */
  lemma HeaderRoundTrip(h: Rec)
    requires CanonicalHeader(h).Ok?
    ensures BrowserHeader(CanonicalHeader(h).value, true) == h <==> "seed" !in h && "isSeeded" !in h
    ensures BrowserHeader(CanonicalHeader(h).value, false) == h <==>
            "seed" !in h && "seedLength" !in h && "isSeeded" in h && h["isSeeded"].Bool?
  {
    var c := CanonicalHeader(h).value;
    assert c["seed"].Obj?;
    var legacy, current := BrowserHeader(c, true), BrowserHeader(c, false);
    assert "seed" !in legacy && "isSeeded" !in legacy && "seed" !in current && "seedLength" !in current;
    if "seed" !in h {
      assert "isSeeded" !in h ==> legacy == h;
      assert "seedLength" !in h && "isSeeded" in h && h["isSeeded"].Bool? ==> current == h;
    }
  }

  // ---- Packed chunk rows -----------------------------------------------------------------------

  predicate IsInt(j: Json) {
    j.Num? && SafeInt(j.n, -MAX_SAFE)
  }

  predicate IsIndex(r: Rec, k: string) {
    k in r && NonNegative(r[k])
  }

  const ROW := "chunkrow/"

  function RowType(e: Rec): string
    requires "type" in e && e["type"].Str? && StartsWith(e["type"].s, ROW)
  {
    e["type"].s[|ROW|..]
  }

  function ValuesField(rowType: string): string {
    if rowType == "tool-call-chunks" then "args" else "texts"
  }

  /** The checks made before any member is read. */
  predicate WellFormedRow(e: Rec) {
    && "type" in e && e["type"].Str? && StartsWith(e["type"].s, ROW)
    && "data" in e && e["data"].Obj? && IsIndex(e, "seq") && "time" in e && IsInt(e["time"])
    && var data := e["data"].o;
    && IsIndex(data, "turn") && IsIndex(data, "step") && IsIndex(data, "index") && "dt" in data && data["dt"].Arr?
    && var field := ValuesField(RowType(e));
    && field in data && data[field].Arr? && data[field].a != [] && |data["dt"].a| == |data[field].a| - 1
    && forall i :: 0 <= i < |data[field].a| ==> data[field].a[i].Str?
  }

  predicate KnownRow(e: Rec)
    requires WellFormedRow(e)
  {
    RowType(e) == "text-chunks" || RowType(e) == "reasoning-chunks"
    || (RowType(e) == "tool-call-chunks" && "id" in e["data"].o && e["data"].o["id"].Str?)
  }

  function Values(e: Rec): seq<Json>
    requires WellFormedRow(e)
  {
    e["data"].o[ValuesField(RowType(e))].a
  }

  /** The time of member `i`: the row's time plus the gaps before it. */
  function TimeAt(e: Rec, i: nat): int
    requires WellFormedRow(e) && i < |Values(e)|
  {
    if i == 0 then e["time"].n
    else TimeAt(e, i - 1) + if e["data"].o["dt"].a[i - 1].Num? then e["data"].o["dt"].a[i - 1].n else 0
  }

  /** Every gap is an integer, and so is every time it leads to. */
  predicate TimesSafe(e: Rec)
    requires WellFormedRow(e)
  {
    forall i :: 1 <= i < |Values(e)| ==> TimeSafe(e, i)
  }

  predicate TimeSafe(e: Rec, i: nat)
    requires WellFormedRow(e) && 1 <= i < |Values(e)|
  {
    IsInt(e["data"].o["dt"].a[i - 1]) && SafeInt(TimeAt(e, i), -MAX_SAFE)
  }

  function ChunkOf(e: Rec, i: nat): Json
    requires WellFormedRow(e) && KnownRow(e) && i < |Values(e)|
  {
    var data := e["data"].o;
    if RowType(e) == "text-chunks" then
      Obj(map["type" := Str("text-delta"), "index" := data["index"], "text" := Values(e)[i]])
    else if RowType(e) == "reasoning-chunks" then
      Obj(map["type" := Str("reasoning-delta"), "index" := data["index"], "text" := Values(e)[i]])
    else Obj(With(map["type" := Str("tool-call-delta"), "index" := data["index"], "id" := data["id"],
      "argumentsDelta" := Values(e)[i]], "name", Get(data, "name")))
  }

  /** Member `i` of a row: consecutive seqs, running time, one chunk each. */
  function Member(e: Rec, i: nat): Rec
    requires WellFormedRow(e) && KnownRow(e) && i < |Values(e)|
  {
    var data := e["data"].o;
    map["type" := Str("assistant/chunk"), "seq" := Num(e["seq"].n + i), "time" := Num(TimeAt(e, i)),
        "data" := Obj(map["turn" := data["turn"], "step" := data["step"], "chunk" := ChunkOf(e, i)])]
  }

  /** `expandLegacyChunkRun`. */
  method ExpandLegacyChunkRun(e: Rec) returns (r: Result<seq<Rec>, Failure>)
    ensures r.Ok? <==> WellFormedRow(e) && KnownRow(e) && TimesSafe(e)
    ensures r.Ok? ==> |r.value| == |Values(e)| && forall i :: 0 <= i < |r.value| ==> r.value[i] == Member(e, i)
  {
    if !WellFormedRow(e) {
      return Err(InvalidEvent);
    }
    var values := Values(e);
    var gaps := e["data"].o["dt"].a;
    var time := e["time"].n;
    var members: seq<Rec> := [];
    for i := 0 to |values|
      invariant |members| == i
      invariant i > 0 ==> KnownRow(e) && time == TimeAt(e, i - 1)
      invariant i == 0 ==> time == e["time"].n
      invariant forall j :: 1 <= j < i ==> TimeSafe(e, j)
      invariant i > 0 ==> forall j :: 0 <= j < i ==> members[j] == Member(e, j)
    {
      if i > 0 {
        assert TimeAt(e, i) == time + if gaps[i - 1].Num? then gaps[i - 1].n else 0;
        assert TimesSafe(e) ==> TimeSafe(e, i);
        if !IsInt(gaps[i - 1]) || !SafeInt(time + gaps[i - 1].n, -MAX_SAFE) {
          return Err(InvalidTime);
        }
        time := time + gaps[i - 1].n;
      }
      if !KnownRow(e) {
        return Err(InvalidEvent);
      }
      members := members + [Member(e, i)["time" := Num(time)]];
    }
    return Ok(members);
  }

  /** Every member is a legacy chunk event, so it survives the round trip to canonical form and back. */
  lemma MemberRoundTrips(e: Rec, i: nat, hostId: Option<string>, stream: seq<Json>)
    requires WellFormedRow(e) && KnownRow(e) && TimesSafe(e) && i < |Values(e)| && e["seq"].n + i <= MAX_SAFE
    ensures var c := CanonicalLegacyEvent(Member(e, i), hostId, stream);
      c.Ok? && "seq" in c.value && "type" in c.value && c.value["type"].Str?
        && BrowserEvent(c.value, true) == Ok(Member(e, i))
  {
    var m := Member(e, i);
    assert i > 0 ==> TimeSafe(e, i);
    assert m.Keys == {"type", "seq", "time", "data"};
    assert Has(m, "type", Str("assistant/chunk")) && NonNegative(m["seq"]) && m["time"].Num?;
    hide Member, ChunkOf, TimeAt, WellFormedRow;
    ChunkEventRoundTrips(m, hostId, stream);
  }

  lemma ChunkEventRoundTrips(m: Rec, hostId: Option<string>, stream: seq<Json>)
    requires m.Keys == {"type", "seq", "time", "data"} && Has(m, "type", Str("assistant/chunk"))
      && NonNegative(m["seq"]) && IsInt(m["time"])
    ensures var c := CanonicalLegacyEvent(m, hostId, stream);
      c.Ok? && "seq" in c.value && "type" in c.value && c.value["type"].Str? && BrowserEvent(c.value, true) == Ok(m)
  {
    ChunkVocabulary(m);
    ChunkConverts(m, hostId, stream);
    hide CanonicalLegacyEvent, BrowserEvent, LegacyVocabulary;
    LegacyRoundTrip(m, hostId, stream);
  }

  lemma ChunkVocabulary(m: Rec)
    requires m.Keys == {"type", "seq", "time", "data"} && Has(m, "type", Str("assistant/chunk"))
    ensures LegacyVocabulary(m)
  {
    OpaqueNotWrapped(m, "assistant/chunk");
    OpaqueKeepsName(m, "assistant/chunk");
    hide IsOpaque;
  }

  lemma ChunkConverts(m: Rec, hostId: Option<string>, stream: seq<Json>)
    requires Has(m, "type", Str("assistant/chunk")) && "seq" in m && NonNegative(m["seq"]) && "time" in m
      && IsInt(m["time"])
    ensures CanonicalLegacyEvent(m, hostId, stream).Ok?
  {
    OuterShape(m, hostId, "legacy/assistant-chunk");
    hide UpstreamToCanonicalEvent, Opaque;
  }
}
