/** The event conversions of packages/runtime-interface/src/index.js: a legacy event becomes canonical, and canonical
    events are written for a legacy or a current browser. */
module WireConversion {
  import opened Prelude

  /** A JSON value, or `Inherited`: what a plain object yields for the name of a member that all objects inherit. */
  datatype Json = Null | Bool(b: bool) | Num(n: int) | Str(s: string) | Arr(a: seq<Json>) | Obj(o: Rec)
                | Inherited(name: string)

  /** An object's own fields; a field whose value is undefined counts as absent. */
  type Rec = map<string, Json>

  datatype Failure = InvalidSequence | InvalidEvent | InvalidTime | NotAString

  const LEGACY_START := "tool/code-dispatch-start"
  const LEGACY_DISPATCH := "tool/code-dispatch"
  const CURRENT_START := "tool/ptc-dispatch-start"
  const CURRENT_DISPATCH := "tool/ptc-dispatch"

  predicate NonNegative(j: Json) {
    j.Num? && SafeInt(j.n, 0)
  }

  predicate Has(r: Rec, k: string, v: Json) {
    k in r && r[k] == v
  }

  /** `r.a ?? r.b`. */
  function Pick(r: Rec, a: string, b: string): Option<Json> {
    if a in r && r[a] != Null then Some(r[a]) else if b in r then Some(r[b]) else None
  }

  /** `{ ...r, [k]: v }`, or `r` when there is no value. */
  function With(r: Rec, k: string, v: Option<Json>): Rec {
    if v.Some? then r[k := v.value] else r
  }

  function Get(r: Rec, k: string): Option<Json> {
    if k in r then Some(r[k]) else None
  }

  predicate StartsWith(s: string, prefix: string) {
    prefix <= s
  }

  // ---- To canonical ----------------------------------------------------------------------------

  predicate Replaces(op: Json) {
    op.Obj? && Has(op.o, "op", Str("replace"))
  }

  function NormalizeReplace(op: Json): Result<Json, Failure> {
    if !Replaces(op) then Ok(op)
    else
      var start, end := Pick(op.o, "startSeq", "start"), Pick(op.o, "endSeq", "end");
      if start.None? || end.None? || !NonNegative(start.value) || !NonNegative(end.value) then Err(InvalidSequence)
      else Ok(Obj(map["op" := Str("replace"), "startSeq" := start.value, "endSeq" := end.value]))
  }

  /** `upstreamToCanonicalEvent`. */
  function UpstreamToCanonicalEvent(e: Rec, hostId: Option<string>): Result<Rec, Failure> {
    var source := Pick(e, "sourceSeq", "seq");
    if source.Some? && !NonNegative(source.value) then Err(InvalidSequence)
    else if "seq" in e && !NonNegative(e["seq"]) then Err(InvalidSequence)
    else
      var op := if "surfaceOp" in e then NormalizeReplace(e["surfaceOp"]) else Ok(Null);
      if op.Err? then Err(op.error)
      else
        var e1 := With(e, "sourceSeq", source);
        var e2 := if "surfaceOp" in e then e1["surfaceOp" := op.value] else e1;
        Ok(With(e2, "hostId", if hostId.Some? then Some(Str(hostId.value)) else None))
  }

  /** `legacyOpaqueEvent`. */
  function Opaque(e: Rec, kind: string): Rec
    requires "type" in e && "seq" in e
  {
    var inner := With(With(With(map["legacyType" := e["type"]], "data", Get(e, "data")), "sourceEventSeqs",
      Get(e, "sourceEventSeqs")), "surfaceOp", Get(e, "surfaceOp"));
    With(map["type" := Str(kind), "seq" := e["seq"], "data" := Obj(inner), "ignorable" := Bool(true)], "time",
      Get(e, "time"))
  }

  predicate DataHas(e: Rec, k: string, v: Json) {
    "data" in e && e["data"].Obj? && Has(e["data"].o, k, v)
  }

  /** `staleLegacyEvent`, with the chunks that are always kept opaque. */
  function OpaqueKind(e: Rec, kind: string): Option<string> {
    if kind == "assistant/chunk" then Some("legacy/assistant-chunk")
    else if kind == "request/header" && "data" in e && e["data"].Obj? && "header" in e["data"].o
      && e["data"].o["header"].Obj?
         && "system" in e["data"].o["header"].o then Some("legacy/request-header")
    else if kind == "subagent/descriptor" && !DataHas(e, "version", Num(3)) then Some("legacy/subagent-descriptor")
    else if StartsWith(kind, "team/") && !DataHas(e, "version", Num(2)) then Some("legacy/team-event")
    else None
  }

  /** The message's stream must be rebuilt from the chunks it names. */
  predicate NeedsStream(e: Rec) {
    "sourceEventSeqs" in e && e["sourceEventSeqs"].Arr?
      && !("data" in e && e["data"].Obj? && "stream" in e["data"].o && e["data"].o["stream"].Arr?)
  }

  function MessageFields(e: Rec, stream: seq<Json>): Rec {
    var rest := e - {"sourceEventSeqs"};
    var data := if NeedsStream(e) && "data" in e && e["data"].Obj? then Some(Obj(e["data"].o["stream" := Arr(stream)]))
      else Get(e, "data");
    var named := if "sourceEventSeqs" in e && e["sourceEventSeqs"].Arr? then Some(e["sourceEventSeqs"]) else None;
    With(With(With(rest, "data", data), "streamSourceSeqs", named), "streamDerived",
      if NeedsStream(e) then Some(Bool(true)) else None)
  }

  function ToCurrentName(kind: string): string {
    if kind == LEGACY_START then CURRENT_START else if kind == LEGACY_DISPATCH then CURRENT_DISPATCH else kind
  }

  function ToLegacyName(kind: string): string {
    if kind == CURRENT_START then LEGACY_START else if kind == CURRENT_DISPATCH then LEGACY_DISPATCH else kind
  }

  /** The members of Object.prototype. A rename table is a plain object, so it has an entry for each of these names. */
  const INHERITED := {"constructor", "toString", "valueOf", "hasOwnProperty", "isPrototypeOf", "propertyIsEnumerable",
                      "toLocaleString", "__proto__", "__defineGetter__", "__defineSetter__", "__lookupGetter__",
                      "__lookupSetter__"}

  /** `LEGACY_EVENT_RENAMES[kind] ?? kind`. */
  function ToCurrentType(kind: string): Json {
    if kind in INHERITED then Inherited(kind) else Str(ToCurrentName(kind))
  }

  /** `CURRENT_TO_LEGACY_EVENT_RENAMES[kind] ?? kind`. */
  function ToLegacyType(kind: string): Json {
    if kind in INHERITED then Inherited(kind) else Str(ToLegacyName(kind))
  }

  /** The type is a string, or what a rename made of one. */
  predicate Typed(e: Rec) {
    "type" in e && (e["type"].Str? || e["type"].Inherited?)
  }

  /** `canonicalLegacyEvent`; `stream` is what the index holds for the chunks a message names. */
  function CanonicalLegacyEvent(e: Rec, hostId: Option<string>, stream: seq<Json>): Result<Rec, Failure> {
    if "seq" !in e || !NonNegative(e["seq"]) then Err(InvalidSequence)
    else if "time" in e && !(e["time"].Num? && SafeInt(e["time"].n, -MAX_SAFE)) then Err(InvalidTime)
    else if "type" !in e || !e["type"].Str? then Err(InvalidEvent)
    else
      var kind := e["type"].s;
      if kind == "assistant/message" then UpstreamToCanonicalEvent(MessageFields(e, stream), hostId)
      else if OpaqueKind(e, kind).Some? then UpstreamToCanonicalEvent(Opaque(e, OpaqueKind(e, kind).value), hostId)
      else UpstreamToCanonicalEvent(e["type" := ToCurrentType(kind)], hostId)
  }

  // ---- To a browser ----------------------------------------------------------------------------

  const CANONICAL_ONLY := {"sourceSeq", "hostId", "streamSourceSeqs", "streamDerived"}

  /** The data looks like an opaque wrapping. */
  predicate Wraps(e: Rec) {
    "data" in e && e["data"].Obj? && "legacyType" in e["data"].o && e["data"].o["legacyType"].Str?
  }

  predicate IsOpaque(e: Rec) {
    Wraps(e) && "type" in e && e["type"].Str? && StartsWith(e["type"].s, "legacy/")
  }

  function Reopened(e: Rec): Rec
    requires IsOpaque(e) && "seq" in e
  {
    var inner := e["data"].o;
    With(With(With(With(map["type" := inner["legacyType"], "seq" := e["seq"]], "time", Get(e, "time")), "data",
      Get(inner, "data")),
         "sourceEventSeqs", Get(inner, "sourceEventSeqs")), "surfaceOp", Get(inner, "surfaceOp"))
  }

  predicate Truthy(j: Json) {
    match j
    case Null => false
    case Bool(b) => b
    case Num(n) => n != 0
    case Str(s) => s != ""
    case _ => true
  }

  /** A legacy message gets its source list back, and loses a stream that was derived from it. */
  function RestoredStream(source: Rec, result: Rec): Rec {
    if !("streamSourceSeqs" in source && source["streamSourceSeqs"].Arr?) then result
    else
      var named := result["sourceEventSeqs" := source["streamSourceSeqs"]];
      if "streamDerived" in source && Truthy(source["streamDerived"]) && "data" in named && named["data"].Obj?
      then named["data" := Obj(named["data"].o - {"stream"})] else named
  }

  function BrowserReplace(op: Json, legacy: bool): Result<Json, Failure> {
    if !Replaces(op) then Ok(op)
    else
      var normal := NormalizeReplace(op);
      if normal.Err? then normal
      else if legacy then Ok(Obj(map["op" := Str("replace"), "start" := normal.value.o["startSeq"],
        "end" := normal.value.o["endSeq"]]))
      else normal
  }

  /** `browserEvent`; asking a type that is no string how it starts throws. */
  function BrowserEvent(e: Rec, legacy: bool): Result<Rec, Failure>
    requires "seq" in e && Typed(e)
  {
    if legacy && Wraps(e) && !e["type"].Str? then Err(NotAString)
    else
      var source := if legacy && IsOpaque(e) then Reopened(e) else e;
      var result := source - CANONICAL_ONLY;
      var restored := if legacy then RestoredStream(source, result) else result;
      var named := if legacy && restored["type"].Str? then restored["type" := ToLegacyType(restored["type"].s)]
        else restored;
      var trimmed := if !legacy && named["type"] == Str("assistant/message") then named - {"sourceEventSeqs"}
        else named;
      if "surfaceOp" !in trimmed then Ok(trimmed)
      else
        var op := BrowserReplace(trimmed["surfaceOp"], legacy);
        if op.Err? then Err(op.error) else Ok(trimmed["surfaceOp" := op.value])
  }

  // ---- Which events survive --------------------------------------------------------------------

  /** A replacement is written with `start` and `end` and nothing else. */
  predicate LegacyReplace(e: Rec) {
    "surfaceOp" in e && Replaces(e["surfaceOp"]) ==>
      var o := e["surfaceOp"].o;
      o.Keys == {"op", "start", "end"} && NonNegative(o["start"]) && NonNegative(o["end"])
  }

  /** The event speaks the legacy vocabulary. */
  predicate LegacyVocabulary(e: Rec)
    requires "type" in e && e["type"].Str?
  {
    var kind := e["type"].s;
    && e.Keys !! CANONICAL_ONLY && LegacyReplace(e)
    && kind != CURRENT_START && kind != CURRENT_DISPATCH && kind !in INHERITED && !IsOpaque(e)
    && (kind == "assistant/message" && "sourceEventSeqs" in e ==>
          e["sourceEventSeqs"].Arr?
            && ("data" in e && e["data"].Obj? && "stream" in e["data"].o ==> e["data"].o["stream"].Arr?))
    && (kind != "assistant/message" && OpaqueKind(e, kind).Some? ==>
          e.Keys <= CARRIED)
  }

  // ---- Replacements ----------------------------------------------------------------------------

  predicate ExactReplace(op: Json) {
    Replaces(op) ==> op.o.Keys == {"op", "start", "end"} && NonNegative(op.o["start"]) && NonNegative(op.o["end"])
  }

  /** Written for a legacy browser, a replacement is itself exactly when it was in legacy form. */
  lemma ReplaceRewritten(op: Json)
    ensures BrowserReplace(op, true) == Ok(op) <==> ExactReplace(op)
  {
    if Replaces(op) && ExactReplace(op) {
      assert op.o == map["op" := Str("replace"), "start" := op.o["start"], "end" := op.o["end"]];
    }
    if Replaces(op) && BrowserReplace(op, true) == Ok(op) {
      var written := BrowserReplace(op, true).value;
      assert written.o.Keys == {"op", "start", "end"};
    }
  }

  lemma ReplaceNormalized(op: Json)
    requires NormalizeReplace(op).Ok?
    ensures BrowserReplace(NormalizeReplace(op).value, true) == BrowserReplace(op, true)
  {}

  // ---- The three paths -------------------------------------------------------------------------

  /** Nothing canonical leaks. */
  lemma NoCanonicalFields(e: Rec, legacy: bool)
    requires "seq" in e && Typed(e) && BrowserEvent(e, legacy).Ok?
    ensures BrowserEvent(e, legacy).value.Keys !! CANONICAL_ONLY
  {}

  /** The canonical form of fields that are not opaque, and what a browser sees of it. */
  lemma PlainBack(e: Rec, hostId: Option<string>, kind: string)
    requires Has(e, "type", Str(kind)) && "seq" in e && e.Keys !! CANONICAL_ONLY && !IsOpaque(e)
    requires UpstreamToCanonicalEvent(e, hostId).Ok?
    ensures var c := UpstreamToCanonicalEvent(e, hostId).value;
      && Has(c, "type", Str(kind)) && "seq" in c
      && BrowserEvent(c, true) == (
           if "surfaceOp" !in e then Ok(e["type" := ToLegacyType(kind)])
           else
             var op := BrowserReplace(e["surfaceOp"], true);
             if op.Err? then Err(op.error) else Ok(e["type" := ToLegacyType(kind)]["surfaceOp" := op.value]))
  {
    var c := UpstreamToCanonicalEvent(e, hostId).value;
    if "surfaceOp" in e { ReplaceNormalized(e["surfaceOp"]); }
    var visible := if "surfaceOp" in e then e["surfaceOp" := NormalizeReplace(e["surfaceOp"]).value] else e;
    assert c - CANONICAL_ONLY == visible;
    assert !IsOpaque(c);
    assert RestoredStream(c, visible) == visible;
    var named := visible["type" := ToLegacyType(kind)];
    assert visible["type"] == Str(kind);
    if "surfaceOp" in e {
      var op := BrowserReplace(named["surfaceOp"], true);
      assert op == BrowserReplace(e["surfaceOp"], true);
      if op.Ok? {
        assert named["surfaceOp" := op.value] == e["type" := ToLegacyType(kind)]["surfaceOp" := op.value];
      }
    }
  }

  /** The fields of an event that an opaque wrapping carries. */
  const CARRIED := {"type", "seq", "time", "data", "sourceEventSeqs", "surfaceOp"}

  function Carried(e: Rec): Rec
    requires "type" in e && "seq" in e
  {
    With(With(With(With(map["type" := e["type"], "seq" := e["seq"]], "time", Get(e, "time")), "data", Get(e, "data")),
         "sourceEventSeqs", Get(e, "sourceEventSeqs")), "surfaceOp", Get(e, "surfaceOp"))
  }

  /** With its replacement rewritten for a legacy browser. */
  function Rewritten(e: Rec): Result<Rec, Failure> {
    if "surfaceOp" !in e then Ok(e)
    else
      var op := BrowserReplace(e["surfaceOp"], true);
      if op.Err? then Err(op.error) else Ok(e["surfaceOp" := op.value])
  }

  lemma RewrittenIsSame(e: Rec)
    ensures Rewritten(e) == Ok(e) <==> LegacyReplace(e)
  {
    if "surfaceOp" in e {
      ReplaceRewritten(e["surfaceOp"]);
      assert Rewritten(e) == Ok(e) ==>
        e["surfaceOp" := BrowserReplace(e["surfaceOp"], true).value]["surfaceOp"] == e["surfaceOp"];
      assert e["surfaceOp" := e["surfaceOp"]] == e;
    }
  }

  lemma InnerShape(e: Rec)
    requires "type" in e && "seq" in e
    ensures var o := Opaque(e, "")["data"].o;
      && Get(o, "legacyType") == Some(e["type"]) && Get(o, "data") == Get(e, "data")
      && Get(o, "sourceEventSeqs") == Get(e, "sourceEventSeqs") && Get(o, "surfaceOp") == Get(e, "surfaceOp")
  {}

  lemma OuterShape(e: Rec, hostId: Option<string>, kind: string)
    requires "type" in e && "seq" in e && NonNegative(e["seq"])
    ensures UpstreamToCanonicalEvent(Opaque(e, kind), hostId).Ok?
    ensures var c := UpstreamToCanonicalEvent(Opaque(e, kind), hostId).value;
      Has(c, "type", Str(kind)) && Has(c, "seq", e["seq"]) && Get(c, "time") == Get(e, "time")
        && Has(c, "data", Opaque(e, "")["data"])
  {}

  lemma WrapShape(e: Rec, hostId: Option<string>, kind: string)
    requires "type" in e && e["type"].Str? && "seq" in e && NonNegative(e["seq"]) && StartsWith(kind, "legacy/")
    ensures UpstreamToCanonicalEvent(Opaque(e, kind), hostId).Ok?
    ensures var c := UpstreamToCanonicalEvent(Opaque(e, kind), hostId).value;
      IsOpaque(c) && "seq" in c && Reopened(c) == Carried(e)
  {
    OuterShape(e, hostId, kind);
    InnerShape(e);
    hide Opaque, UpstreamToCanonicalEvent, With, Get;
    var c := UpstreamToCanonicalEvent(Opaque(e, kind), hostId).value;
    assert Reopened(c) == Carried(e);
  }

  lemma NotInherited(kind: string)
    ensures '/' in kind ==> kind !in INHERITED
    ensures StartsWith(kind, "team/") ==> '/' in kind
    ensures '/' in "assistant/chunk" && '/' in "request/header" && '/' in "subagent/descriptor"
      && '/' in "assistant/message"
    ensures '/' in CURRENT_START && '/' in CURRENT_DISPATCH
  {
    if StartsWith(kind, "team/") { assert kind[4] == "team/"[4] == '/'; }
    assert "assistant/chunk"[9] == '/' && "assistant/message"[9] == '/' && "request/header"[7] == '/';
    assert "subagent/descriptor"[8] == '/' && CURRENT_START[4] == '/' && CURRENT_DISPATCH[4] == '/';
  }

  lemma OpaqueNames(e: Rec, kind: string)
    requires OpaqueKind(e, kind).Some?
    ensures '/' in kind && kind != CURRENT_START && kind != CURRENT_DISPATCH
  {
    NotInherited(kind);
    assert StartsWith(kind, "team/") ==> kind[1] == "team/"[1];
    assert CURRENT_START[1] == 'o' && CURRENT_DISPATCH[1] == 'o';
  }

  lemma OpaquePrefix(e: Rec, kind: string)
    requires OpaqueKind(e, kind).Some?
    ensures StartsWith(OpaqueKind(e, kind).value, "legacy/")
  {}

  /** No opaque kind is one of the renamed ones. */
  lemma OpaqueKeepsName(e: Rec, kind: string)
    requires OpaqueKind(e, kind).Some?
    ensures ToLegacyType(kind) == Str(kind) && StartsWith(OpaqueKind(e, kind).value, "legacy/")
  {
    OpaqueNames(e, kind);
    OpaquePrefix(e, kind);
    NotInherited(kind);
    hide OpaqueKind, StartsWith;
  }

  /** An inherited name is no kind that is kept opaque, and no message. */
  lemma InheritedIsPlain(e: Rec, kind: string)
    requires kind in INHERITED
    ensures OpaqueKind(e, kind).None? && kind != "assistant/message"
  {
    InheritedLetters(kind);
    assert "assistant/chunk"[0] == 'a' && "assistant/message"[0] == 'a' && "request/header"[0] == 'r';
    assert "subagent/descriptor"[0] == 's' && "team/"[1] == 'e';
    hide Has;
  }

  lemma InheritedLetters(kind: string)
    requires kind in INHERITED
    ensures |kind| >= 2 && kind[0] != 'a' && kind[0] != 'r' && kind[0] != 's' && kind[1] != 'e'
  {}

  lemma CarriedShape(e: Rec)
    requires "type" in e && e["type"].Str? && "seq" in e
    ensures var seen := Carried(e);
      seen - CANONICAL_ONLY == seen && "streamSourceSeqs" !in seen && Has(seen, "type", e["type"])
    ensures Carried(e)["type" := e["type"]] == Carried(e)
  {}

  /** A wrapped event comes back with the fields the wrapping carries. */
  lemma WrappedBack(e: Rec, hostId: Option<string>, kind: string)
    requires Has(e, "type", Str(kind)) && "seq" in e && NonNegative(e["seq"]) && kind != "assistant/message"
      && OpaqueKind(e, kind).Some?
    ensures var c := UpstreamToCanonicalEvent(Opaque(e, OpaqueKind(e, kind).value), hostId);
      c.Ok? && "seq" in c.value && "type" in c.value && c.value["type"].Str?
        && BrowserEvent(c.value, true) == Rewritten(Carried(e))
  {
    var wrapped := OpaqueKind(e, kind).value;
    OpaqueKeepsName(e, kind);
    WrapShape(e, hostId, wrapped);
    CarriedShape(e);
    hide Opaque, UpstreamToCanonicalEvent, Reopened, OpaqueKind, Carried, With, Get;
  }

  lemma CarriedIsAll(e: Rec)
    requires "type" in e && "seq" in e
    ensures Carried(e) == e <==> e.Keys <= CARRIED
  {
    assert e.Keys <= CARRIED ==> Carried(e).Keys == e.Keys;
    assert Carried(e).Keys <= CARRIED;
  }

  /** A message as a legacy browser sees it, but for its replacement. */
  function MessageSeen(e: Rec): Rec {
    if "sourceEventSeqs" in e && !e["sourceEventSeqs"].Arr? then e - {"sourceEventSeqs"}
    else if NeedsStream(e) && "data" in e && e["data"].Obj? then e["data" := Obj(e["data"].o - {"stream"})]
    else e
  }

  lemma MessageSeenIsSame(e: Rec)
    ensures MessageSeen(e) == e <==>
      ("sourceEventSeqs" in e ==>
        e["sourceEventSeqs"].Arr?
          && ("data" in e && e["data"].Obj? && "stream" in e["data"].o ==> e["data"].o["stream"].Arr?))
  {
    if NeedsStream(e) && "data" in e && e["data"].Obj? {
      var o := e["data"].o;
      assert "stream" !in o ==> o - {"stream"} == o;
      assert e["data" := Obj(o - {"stream"})]["data"] == Obj(o - {"stream"});
      assert "stream" !in o ==> e["data" := Obj(o)] == e;
    }
  }

  lemma MessageFieldsShape(e: Rec, stream: seq<Json>)
    requires Has(e, "type", Str("assistant/message")) && e.Keys !! CANONICAL_ONLY
    ensures var f := MessageFields(e, stream);
      && Has(f, "type", Str("assistant/message")) && Get(f, "seq") == Get(e, "seq")
         && Get(f, "surfaceOp") == Get(e, "surfaceOp")
      && "sourceSeq" !in f && "hostId" !in f
      && RestoredStream(f, f - CANONICAL_ONLY) == MessageSeen(e)
  {
    var f := MessageFields(e, stream);
    if "sourceEventSeqs" in e && e["sourceEventSeqs"].Arr? {
      var named := (f - CANONICAL_ONLY)["sourceEventSeqs" := e["sourceEventSeqs"]];
      if NeedsStream(e) && "data" in e && e["data"].Obj? {
        assert e["data"].o["stream" := Arr(stream)] - {"stream"} == e["data"].o - {"stream"};
        assert named["data" := Obj(e["data"].o - {"stream"})] == MessageSeen(e);
      } else {
        assert named == e;
      }
    } else {
      assert f - CANONICAL_ONLY == MessageSeen(e);
    }
  }

  /** The fields a conversion adds do not reach the browser. */
  lemma ConvertedVisible(f: Rec, hostId: Option<string>)
    requires UpstreamToCanonicalEvent(f, hostId).Ok?
    ensures var c := UpstreamToCanonicalEvent(f, hostId).value;
      && c - CANONICAL_ONLY == (if "surfaceOp" in f then
         (f - CANONICAL_ONLY)["surfaceOp" := NormalizeReplace(f["surfaceOp"]).value] else f - CANONICAL_ONLY)
      && Get(c, "streamSourceSeqs") == Get(f, "streamSourceSeqs") && Get(c, "streamDerived") == Get(f, "streamDerived")
      && Get(c, "type") == Get(f, "type") && Get(c, "data") == Get(f, "data") && Get(c, "seq") == Get(f, "seq")
  {}

  lemma RestoredRewritten(source: Rec, like: Rec, result: Rec, op: Json)
    requires Get(source, "streamSourceSeqs") == Get(like, "streamSourceSeqs")
      && Get(source, "streamDerived") == Get(like, "streamDerived")
    ensures RestoredStream(source, result["surfaceOp" := op]) == RestoredStream(like, result)["surfaceOp" := op]
    ensures RestoredStream(source, result) == RestoredStream(like, result)
    ensures Get(RestoredStream(source, result), "surfaceOp") == Get(result, "surfaceOp")
    ensures Get(RestoredStream(source, result), "type") == Get(result, "type")
  {
    if "streamSourceSeqs" in source && source["streamSourceSeqs"].Arr? {
      var seqs := source["streamSourceSeqs"];
      assert result["surfaceOp" := op]["sourceEventSeqs" := seqs]
        == result["sourceEventSeqs" := seqs]["surfaceOp" := op];
      if "data" in result && result["data"].Obj? {
        var stripped := Obj(result["data"].o - {"stream"});
        assert result["sourceEventSeqs" := seqs]["surfaceOp" := op]["data" := stripped]
          == result["sourceEventSeqs" := seqs]["data" := stripped]["surfaceOp" := op];
      }
    }
  }

  lemma MessageNotWrapped(e: Rec)
    requires Has(e, "type", Str("assistant/message"))
    ensures !IsOpaque(e) && ToLegacyType("assistant/message") == Str("assistant/message")
  {
    NotInherited("assistant/message");
    assert "assistant/message"[0] != "legacy/"[0];
  }

  lemma BrowserSeen(c: Rec, seen: Rec, kind: string)
    requires "seq" in c && Has(c, "type", Str(kind)) && !IsOpaque(c) && ToLegacyType(kind) == Str(kind)
    requires seen == RestoredStream(c, c - CANONICAL_ONLY) && Has(seen, "type", Str(kind))
    ensures BrowserEvent(c, true) == Rewritten(seen)
  {
    assert seen["type" := Str(kind)] == seen;
  }

  lemma RewrittenNormalized(seen: Rec)
    requires "surfaceOp" in seen && NormalizeReplace(seen["surfaceOp"]).Ok?
    ensures Rewritten(seen["surfaceOp" := NormalizeReplace(seen["surfaceOp"]).value]) == Rewritten(seen)
  {
    ReplaceNormalized(seen["surfaceOp"]);
    var op := BrowserReplace(seen["surfaceOp"], true);
    assert op.Ok? ==>
      seen["surfaceOp" := NormalizeReplace(seen["surfaceOp"]).value]["surfaceOp" := op.value]
        == seen["surfaceOp" := op.value];
  }

  /** A message comes back as MessageSeen says, its replacement rewritten. */
  lemma MessageBack(e: Rec, hostId: Option<string>, stream: seq<Json>)
    requires Has(e, "type", Str("assistant/message")) && "seq" in e && e.Keys !! CANONICAL_ONLY
    requires UpstreamToCanonicalEvent(MessageFields(e, stream), hostId).Ok?
    ensures var c := UpstreamToCanonicalEvent(MessageFields(e, stream), hostId).value;
      "seq" in c && "type" in c && c["type"].Str? && BrowserEvent(c, true) == Rewritten(MessageSeen(e))
  {
    var f := MessageFields(e, stream);
    var c := UpstreamToCanonicalEvent(f, hostId).value;
    var seen := MessageSeen(e);
    MessageFieldsShape(e, stream);
    ConvertedVisible(f, hostId);
    assert Get(seen, "surfaceOp") == Get(e, "surfaceOp") && Has(seen, "type", Str("assistant/message"));
    assert "surfaceOp" in f ==> NormalizeReplace(f["surfaceOp"]).Ok?;
    assert Has(c, "type", Str("assistant/message")) && "seq" in c;
    MessageNotWrapped(c);
    hide MessageFields, UpstreamToCanonicalEvent, RestoredStream, MessageSeen, NormalizeReplace, BrowserReplace,
      BrowserEvent, Rewritten;
    var visible := f - CANONICAL_ONLY;
    if "surfaceOp" in e {
      var op := NormalizeReplace(e["surfaceOp"]).value;
      RestoredRewritten(c, f, visible, op);
      BrowserSeen(c, seen["surfaceOp" := op], "assistant/message");
      RewrittenNormalized(seen);
    } else {
      RestoredRewritten(c, f, visible, Null);
      BrowserSeen(c, seen, "assistant/message");
    }
  }

  // ---- The theorem -----------------------------------------------------------------------------

  lemma MessageKeeps(e: Rec, stream: seq<Json>)
    ensures Get(MessageFields(e, stream), "type") == Get(e, "type")
      && Get(MessageFields(e, stream), "seq") == Get(e, "seq")
  {}

  lemma CanonicalShape(e: Rec, hostId: Option<string>, stream: seq<Json>)
    requires CanonicalLegacyEvent(e, hostId, stream).Ok?
    ensures var c := CanonicalLegacyEvent(e, hostId, stream).value; "seq" in c && Typed(c)
    ensures "seq" in e && NonNegative(e["seq"]) && "type" in e && e["type"].Str?
  {
    var kind := e["type"].s;
    MessageKeeps(e, stream);
    if kind == "assistant/message" {
      ConvertedVisible(MessageFields(e, stream), hostId);
    } else if OpaqueKind(e, kind).Some? {
      OuterShape(e, hostId, OpaqueKind(e, kind).value);
    } else {
      ConvertedVisible(e["type" := ToCurrentType(kind)], hostId);
    }
    hide MessageFields, UpstreamToCanonicalEvent, Opaque, OpaqueKind;
  }

  lemma MessageVocabulary(e: Rec)
    requires Has(e, "type", Str("assistant/message")) && e.Keys !! CANONICAL_ONLY
    ensures LegacyVocabulary(e) <==> LegacyReplace(e) && MessageSeen(e) == e
  {
    MessageNotWrapped(e);
    MessageSeenIsSame(e);
    hide IsOpaque, OpaqueKind, MessageSeen, LegacyReplace;
  }

  lemma MessageTrip(e: Rec, hostId: Option<string>, stream: seq<Json>, c: Rec)
    requires Has(e, "type", Str("assistant/message")) && "seq" in e && e.Keys !! CANONICAL_ONLY
    requires UpstreamToCanonicalEvent(MessageFields(e, stream), hostId) == Ok(c)
    ensures "seq" in c && "type" in c && c["type"].Str? && (BrowserEvent(c, true) == Ok(e) <==> LegacyVocabulary(e))
  {
    hide *;
    MessageBack(e, hostId, stream);
    MessageVocabulary(e);
    RewrittenIsSame(e);
    SeenMustMatch(e);
  }

  /** Rewriting the replacement cannot make up for a lost field. */
  lemma RewrittenMustMatch(seen: Rec, e: Rec)
    requires Get(seen, "surfaceOp") == Get(e, "surfaceOp") && Rewritten(seen) == Ok(e)
    ensures seen == e
  {
    assert forall k :: k != "surfaceOp" ==> Get(seen, k) == Get(e, k);
    assert forall k :: k in seen <==> Get(seen, k).Some?;
    assert forall k :: k in e <==> Get(e, k).Some?;
  }

  lemma SeenMustMatch(e: Rec)
    ensures Rewritten(MessageSeen(e)) == Ok(e) ==> MessageSeen(e) == e
  {
    assert Get(MessageSeen(e), "surfaceOp") == Get(e, "surfaceOp");
    hide MessageSeen, Rewritten;
    if Rewritten(MessageSeen(e)) == Ok(e) { RewrittenMustMatch(MessageSeen(e), e); }
  }

  lemma OpaqueNotWrapped(e: Rec, kind: string)
    requires Has(e, "type", Str(kind)) && OpaqueKind(e, kind).Some?
    ensures !IsOpaque(e)
  {
    assert "legacy/"[0] == 'l' && "assistant/chunk"[0] == 'a' && "request/header"[0] == 'r'
      && "subagent/descriptor"[0] == 's';
    assert StartsWith(kind, "team/") ==> kind[0] == "team/"[0] == 't';
  }

  lemma OpaqueVocabulary(e: Rec, kind: string)
    requires Has(e, "type", Str(kind)) && "seq" in e && kind != "assistant/message" && OpaqueKind(e, kind).Some?
    ensures LegacyVocabulary(e) <==> LegacyReplace(e) && Carried(e) == e
  {
    OpaqueNotWrapped(e, kind);
    OpaqueKeepsName(e, kind);
    CarriedIsAll(e);
    hide IsOpaque, OpaqueKind, Carried, LegacyReplace;
    assert CARRIED !! CANONICAL_ONLY;
  }

  lemma OpaqueTrip(e: Rec, hostId: Option<string>, c: Rec, kind: string)
    requires Has(e, "type", Str(kind)) && "seq" in e && NonNegative(e["seq"]) && kind != "assistant/message"
      && OpaqueKind(e, kind).Some?
    requires UpstreamToCanonicalEvent(Opaque(e, OpaqueKind(e, kind).value), hostId) == Ok(c)
    ensures "seq" in c && "type" in c && c["type"].Str? && (BrowserEvent(c, true) == Ok(e) <==> LegacyVocabulary(e))
  {
    assert Get(Carried(e), "surfaceOp") == Get(e, "surfaceOp");
    hide *;
    WrappedBack(e, hostId, kind);
    OpaqueVocabulary(e, kind);
    RewrittenIsSame(e);
    if Rewritten(Carried(e)) == Ok(e) { RewrittenMustMatch(Carried(e), e); }
  }

  /** A legacy event that looks like an opaque wrapping is opened, and its wrapping is lost. */
  lemma WrappingLost(c: Rec)
    requires IsOpaque(c) && "seq" in c && BrowserEvent(c, true).Ok?
    ensures Get(BrowserEvent(c, true).value, "data") == Get(c["data"].o, "data") != Some(c["data"])
  {
    var inner := c["data"].o;
    assert "data" in inner ==> inner["data"] != c["data"];
    assert "streamSourceSeqs" !in Reopened(c) && Get(Reopened(c), "data") == Get(inner, "data");
  }

  lemma NamesReturn(kind: string)
    requires kind !in INHERITED
    ensures ToCurrentType(kind) == Str(ToCurrentName(kind))
    ensures ToLegacyType(ToCurrentName(kind)) == Str(kind) <==> kind != CURRENT_START && kind != CURRENT_DISPATCH
    ensures StartsWith(kind, "legacy/") <==> StartsWith(ToCurrentName(kind), "legacy/")
  {
    NotInherited(kind);
    NotInherited(CURRENT_START);
    NotInherited(CURRENT_DISPATCH);
    NotInherited(LEGACY_START);
    assert "legacy/"[0] == 'l' && CURRENT_START[0] == 't' && CURRENT_DISPATCH[0] == 't' && LEGACY_START[0] == 't'
      && LEGACY_DISPATCH[0] == 't';
  }

  lemma RenamedRewritten(e: Rec, kind: Json)
    requires "type" in e
    ensures Rewritten(e["type" := kind]) == Ok(e) <==> e["type"] == kind && LegacyReplace(e)
  {
    RewrittenIsSame(e);
    var renamed := e["type" := kind];
    assert e["type"] == kind ==> renamed == e;
    if Rewritten(renamed) == Ok(e) {
      assert Get(Rewritten(renamed).value, "type") == Some(kind);
    }
  }

  lemma PlainTrip(e: Rec, hostId: Option<string>, c: Rec, kind: string)
    requires Has(e, "type", Str(kind)) && "seq" in e && kind != "assistant/message" && OpaqueKind(e, kind).None?
      && e.Keys !! CANONICAL_ONLY && kind !in INHERITED
    requires UpstreamToCanonicalEvent(e["type" := ToCurrentType(kind)], hostId) == Ok(c)
    ensures "seq" in c && Typed(c) && (BrowserEvent(c, true) == Ok(e) <==> LegacyVocabulary(e))
  {
    NamesReturn(kind);
    var current := ToCurrentName(kind);
    var named := e["type" := Str(current)];
    ConvertedVisible(named, hostId);
    assert IsOpaque(named) <==> IsOpaque(e);
    assert IsOpaque(c) <==> IsOpaque(named);
    hide UpstreamToCanonicalEvent, BrowserEvent, OpaqueKind, LegacyReplace, Rewritten, ToCurrentName, ToLegacyName,
      ToLegacyType, ToCurrentType, IsOpaque;
    if IsOpaque(e) {
      if BrowserEvent(c, true).Ok? { WrappingLost(c); }
    } else {
      PlainBack(named, hostId, current);
      assert named["type" := ToLegacyType(current)] == e["type" := ToLegacyType(current)];
      PlainRewritten(named, ToLegacyType(current));
      RenamedRewritten(e, ToLegacyType(current));
    }
  }

  /** An event named like an inherited member gets that member for its type, and does not come back. */
  lemma InheritedTrip(e: Rec, hostId: Option<string>, c: Rec, kind: string)
    requires Has(e, "type", Str(kind)) && "seq" in e && kind in INHERITED
    requires UpstreamToCanonicalEvent(e["type" := Inherited(kind)], hostId) == Ok(c)
    ensures "seq" in c && Has(c, "type", Inherited(kind)) && BrowserEvent(c, true) != Ok(e)
  {
    var named := e["type" := Inherited(kind)];
    ConvertedVisible(named, hostId);
    assert Get(RestoredStream(c, c - CANONICAL_ONLY), "type") == Some(Inherited(kind));
    hide UpstreamToCanonicalEvent, RestoredStream, BrowserReplace, NormalizeReplace;
    if BrowserEvent(c, true).Ok? { assert Get(BrowserEvent(c, true).value, "type") == Some(Inherited(kind)); }
  }

  /** The result of PlainBack, said with Rewritten. */
  lemma PlainRewritten(e: Rec, kind: Json)
    ensures Rewritten(e["type" := kind]) == (
      if "surfaceOp" !in e then Ok(e["type" := kind])
      else
        var op := BrowserReplace(e["surfaceOp"], true);
        if op.Err? then Err(op.error) else Ok(e["type" := kind]["surfaceOp" := op.value]))
  {}

  /** The round trip: a legacy event that converts comes back from its canonical form unchanged exactly when it speaks
      the legacy vocabulary. */
  lemma LegacyRoundTrip(e: Rec, hostId: Option<string>, stream: seq<Json>)
    requires CanonicalLegacyEvent(e, hostId, stream).Ok?
    ensures var c := CanonicalLegacyEvent(e, hostId, stream).value;
      "seq" in c && Typed(c) && "type" in e && e["type"].Str?
        && (BrowserEvent(c, true) == Ok(e) <==> LegacyVocabulary(e))
  {
    CanonicalShape(e, hostId, stream);
    var c := CanonicalLegacyEvent(e, hostId, stream).value;
    var kind := e["type"].s;
    if !(e.Keys !! CANONICAL_ONLY) {
      if BrowserEvent(c, true).Ok? { NoCanonicalFields(c, true); }
      hide BrowserEvent, CanonicalLegacyEvent;
    } else {
      hide BrowserEvent, UpstreamToCanonicalEvent, MessageFields, Opaque, OpaqueKind, LegacyVocabulary;
      if kind == "assistant/message" {
        MessageTrip(e, hostId, stream, c);
      } else if OpaqueKind(e, kind).Some? {
        OpaqueTrip(e, hostId, c, kind);
      } else if kind in INHERITED {
        InheritedTrip(e, hostId, c, kind);
        NotVocabulary(e, kind);
      } else {
        PlainTrip(e, hostId, c, kind);
      }
    }
  }

  lemma NotVocabulary(e: Rec, kind: string)
    requires Has(e, "type", Str(kind)) && kind in INHERITED
    ensures !LegacyVocabulary(e)
  {}

  /** Such an event: nothing about it but its name is unusual. */
  lemma AnInheritedNameIsLost(e: Rec)
    requires e == map["type" := Str("constructor"), "seq" := Num(0)]
    ensures var c := CanonicalLegacyEvent(e, None, []);
      && c.Ok? && "seq" in c.value && Typed(c.value) && BrowserEvent(c.value, true).Ok?
      && Get(BrowserEvent(c.value, true).value, "type") == Some(Inherited("constructor"))
  {
    InheritedIsPlain(e, "constructor");
    hide OpaqueKind, Opaque, MessageFields;
    var named := map["type" := Inherited("constructor"), "seq" := Num(0)];
    assert "constructor" in INHERITED && e["type" := Inherited("constructor")] == named;
    assert CanonicalLegacyEvent(e, None, []) == UpstreamToCanonicalEvent(named, None);
    var c := UpstreamToCanonicalEvent(named, None).value;
    assert c == named["sourceSeq" := Num(0)];
    assert BrowserEvent(c, true).value == c - CANONICAL_ONLY;
  }
}
