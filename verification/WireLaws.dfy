/** What each legacy event is turned into and what a current browser is then given, said of the fields of the event
    alone: literal types, versions and numbers. */
module WireLaws {
  import opened Prelude
  import opened WireConversion
  import opened WireHistory
  import opened WirePages

  // ---- An event's own fields -------------------------------------------------------------------

  predicate Named(e: Rec, kind: string) {
    "type" in e && e["type"] == Str(kind)
  }

  /** The type is a text that begins with `team/`. */
  predicate OfTeam(e: Rec) {
    "type" in e && e["type"].Str? && |e["type"].s| >= 5 && e["type"].s[..5] == "team/"
  }

  predicate Versioned(e: Rec, version: int) {
    "data" in e && e["data"].Obj? && "version" in e["data"].o && e["data"].o["version"] == Num(version)
  }

  /** The data's header has a system prompt. */
  predicate Prompted(e: Rec) {
    && "data" in e && e["data"].Obj? && "header" in e["data"].o && e["data"].o["header"].Obj?
    && "system" in e["data"].o["header"].o
  }

  predicate StaleHeader(e: Rec) {
    Named(e, "request/header") && Prompted(e)
  }

  predicate StaleDescriptor(e: Rec) {
    Named(e, "subagent/descriptor") && !Versioned(e, 3)
  }

  predicate StaleTeam(e: Rec) {
    OfTeam(e) && !Versioned(e, 2)
  }

  /** The event is kept, but as an opaque one. */
  predicate Wrapped(e: Rec) {
    Named(e, "assistant/chunk") || StaleHeader(e) || StaleDescriptor(e) || StaleTeam(e)
  }

  /** The type is the name of a member that every object inherits. */
  predicate NamedAfterMember(e: Rec) {
    || Named(e, "constructor") || Named(e, "toString") || Named(e, "valueOf") || Named(e, "hasOwnProperty")
    || Named(e, "isPrototypeOf") || Named(e, "propertyIsEnumerable") || Named(e, "toLocaleString")
    || Named(e, "__proto__") || Named(e, "__defineGetter__") || Named(e, "__defineSetter__")
    || Named(e, "__lookupGetter__") || Named(e, "__lookupSetter__")
  }

  predicate Renamed(e: Rec) {
    Named(e, "tool/code-dispatch-start") || Named(e, "tool/code-dispatch")
  }

  // ---- Replacements ----------------------------------------------------------------------------

  predicate IsReplacement(op: Json) {
    op.Obj? && "op" in op.o && op.o["op"] == Str("replace")
  }

  /** The field, or the older one when that is missing or null, is this sequence number. */
  predicate Bound(o: Rec, field: string, older: string, n: int) {
    && 0 <= n <= MAX_SAFE
    && if field in o && o[field] != Null then o[field] == Num(n) else older in o && o[older] == Num(n)
  }

  predicate Bounds(op: Json, start: int, end: int) {
    op.Obj? && Bound(op.o, "startSeq", "start", start) && Bound(op.o, "endSeq", "end", end)
  }

  ghost predicate Bounded(op: Json) {
    exists start: int, end: int :: Bounds(op, start, end)
  }

  /** REPLACEMENTS. A replacement between two sequence numbers keeps them, under the names the reader knows; any other
      replacement is refused; what is no replacement is left as it is. */
  lemma Replacements(op: Json, legacy: bool)
    ensures !IsReplacement(op) ==> NormalizeReplace(op) == Ok(op) && BrowserReplace(op, legacy) == Ok(op)
    ensures IsReplacement(op) && !Bounded(op) ==>
      NormalizeReplace(op) == Err(InvalidSequence) && BrowserReplace(op, legacy) == Err(InvalidSequence)
    ensures forall start: int, end: int :: IsReplacement(op) && Bounds(op, start, end) ==>
      && NormalizeReplace(op)
         == Ok(Obj(map["op" := Str("replace"), "startSeq" := Num(start), "endSeq" := Num(end)]))
      && BrowserReplace(op, false)
         == Ok(Obj(map["op" := Str("replace"), "startSeq" := Num(start), "endSeq" := Num(end)]))
      && BrowserReplace(op, true) == Ok(Obj(map["op" := Str("replace"), "start" := Num(start), "end" := Num(end)]))
  {
    if IsReplacement(op) && NormalizeReplace(op).Ok? {
      var o := NormalizeReplace(op).value.o;
      assert Bounds(op, o["startSeq"].n, o["endSeq"].n);
    }
  }

  // ---- Which events convert --------------------------------------------------------------------

  /** The event says where it belongs: a sequence number, perhaps an integer time, and a type. */
  predicate Placed(e: Rec) {
    && "seq" in e && e["seq"].Num? && 0 <= e["seq"].n <= MAX_SAFE
    && ("time" in e ==> e["time"].Num? && -MAX_SAFE <= e["time"].n <= MAX_SAFE)
    && "type" in e && e["type"].Str?
  }

  /** The field is missing or null, or a sequence number. */
  predicate OptionalSeq(e: Rec, k: string) {
    k in e && e[k] != Null ==> e[k].Num? && 0 <= e[k].n <= MAX_SAFE
  }

  ghost predicate GoodReplacement(e: Rec) {
    "surfaceOp" in e && IsReplacement(e["surfaceOp"]) ==> Bounded(e["surfaceOp"])
  }

  /** CONVERTS. An event converts exactly if it is placed and, unless it is wrapped, its source number and its
      replacement are good. The error names what is wrong first. */
  lemma Converts(e: Rec, hostId: Option<string>, stream: seq<Json>)
    ensures CanonicalLegacyEvent(e, hostId, stream).Ok? <==>
      Placed(e) && (Wrapped(e) || (OptionalSeq(e, "sourceSeq") && GoodReplacement(e)))
    ensures CanonicalLegacyEvent(e, hostId, stream).Err? ==>
      CanonicalLegacyEvent(e, hostId, stream).error == (
        if !("seq" in e && e["seq"].Num? && 0 <= e["seq"].n <= MAX_SAFE) then InvalidSequence
        else if "time" in e && !(e["time"].Num? && -MAX_SAFE <= e["time"].n <= MAX_SAFE) then InvalidTime
        else if !("type" in e && e["type"].Str?) then InvalidEvent
        else InvalidSequence)
  {
    if Placed(e) {
      WrappedLaw(e);
      var kind := e["type"].s;
      if kind == "assistant/message" {
        MessageLeaves(e, stream);
        UpstreamConverts(MessageFields(e, stream), hostId);
      } else if Wrapped(e) {
        OuterShape(e, hostId, OpaqueKind(e, kind).value);
      } else {
        UpstreamConverts(e["type" := ToCurrentType(kind)], hostId);
      }
    }
    hide UpstreamToCanonicalEvent, MessageFields, Opaque, OpaqueKind, Bounded, ToCurrentType, Wrapped;
  }

  lemma WrappedLaw(e: Rec)
    requires "type" in e && e["type"].Str?
    ensures OpaqueKind(e, e["type"].s) == (
      if Named(e, "assistant/chunk") then Some("legacy/assistant-chunk")
      else if StaleHeader(e) then Some("legacy/request-header")
      else if StaleDescriptor(e) then Some("legacy/subagent-descriptor")
      else if StaleTeam(e) then Some("legacy/team-event")
      else None)
    ensures Wrapped(e) <==> OpaqueKind(e, e["type"].s).Some?
    ensures Named(e, "assistant/message") ==> !Wrapped(e)
  {
    assert "assistant/message"[0] != "team/"[0] && "assistant/message"[10] != "assistant/chunk"[10];
  }

  lemma MessageLeaves(e: Rec, stream: seq<Json>)
    ensures var f := MessageFields(e, stream);
      Get(f, "sourceSeq") == Get(e, "sourceSeq") && Get(f, "seq") == Get(e, "seq")
      && Get(f, "surfaceOp") == Get(e, "surfaceOp") && Get(f, "type") == Get(e, "type")
      && Get(f, "hostId") == Get(e, "hostId")
  {}

  lemma UpstreamConverts(e: Rec, hostId: Option<string>)
    ensures UpstreamToCanonicalEvent(e, hostId).Err? ==>
      UpstreamToCanonicalEvent(e, hostId).error == InvalidSequence
    ensures "seq" in e && NonNegative(e["seq"]) ==>
      (UpstreamToCanonicalEvent(e, hostId).Ok? <==> OptionalSeq(e, "sourceSeq") && GoodReplacement(e))
  {
    if "surfaceOp" in e { Replacements(e["surfaceOp"], true); }
    hide NormalizeReplace, Bounded;
  }

  // ---- What they become ------------------------------------------------------------------------

  lemma MemberLaw(e: Rec)
    requires "type" in e && e["type"].Str?
    ensures ToCurrentType(e["type"].s)
            == if NamedAfterMember(e) then Inherited(e["type"].s) else Str(ToCurrentName(e["type"].s))
  {
    hide ToCurrentName;
  }

  lemma RenameLaw(e: Rec)
    requires "type" in e && e["type"].Str?
    ensures ToCurrentType(e["type"].s) == (
      if Named(e, "tool/code-dispatch-start") then Str("tool/ptc-dispatch-start")
      else if Named(e, "tool/code-dispatch") then Str("tool/ptc-dispatch")
      else if NamedAfterMember(e) then Inherited(e["type"].s)
      else e["type"])
  {
    MemberLaw(e);
    if NamedAfterMember(e) { MembersHaveNoSlash(e); }
    assert "tool/code-dispatch-start"[4] == '/' && "tool/code-dispatch"[4] == '/';
    hide NamedAfterMember, ToCurrentType;
  }

  lemma MembersHaveNoSlash(e: Rec)
    requires NamedAfterMember(e)
    ensures |e["type"].s| >= 5 && e["type"].s[4] != '/' && e["type"].s[0] != 'a'
  {}

  /** The type of the canonical form. */
  lemma TypeOf(e: Rec, hostId: Option<string>, stream: seq<Json>)
    requires CanonicalLegacyEvent(e, hostId, stream).Ok?
    ensures var c := CanonicalLegacyEvent(e, hostId, stream).value;
      Get(c, "type") == Some(
        if Named(e, "assistant/chunk") then Str("legacy/assistant-chunk")
        else if StaleHeader(e) then Str("legacy/request-header")
        else if StaleDescriptor(e) then Str("legacy/subagent-descriptor")
        else if StaleTeam(e) then Str("legacy/team-event")
        else if Named(e, "tool/code-dispatch-start") then Str("tool/ptc-dispatch-start")
        else if Named(e, "tool/code-dispatch") then Str("tool/ptc-dispatch")
        else if NamedAfterMember(e) then Inherited(e["type"].s)
        else e["type"])
      && "type" in e && e["type"].Str?
  {
    Converts(e, hostId, stream);
    WrappedLaw(e);
    RenameLaw(e);
    var kind := e["type"].s;
    if kind == "assistant/message" {
      MessageLeaves(e, stream);
      NotInherited("assistant/message");
      ConvertedVisible(MessageFields(e, stream), hostId);
    } else if Wrapped(e) {
      OuterShape(e, hostId, OpaqueKind(e, kind).value);
    } else {
      ConvertedVisible(e["type" := ToCurrentType(kind)], hostId);
    }
    hide UpstreamToCanonicalEvent, MessageFields, Opaque, OpaqueKind, ToCurrentType, Placed, NamedAfterMember,
      StaleHeader, StaleTeam, StaleDescriptor;
  }

  /** TYPES. The canonical type of every legacy event that converts: each opaque and each newer type belongs to exactly
      the events listed with it, and every other event keeps its type. */
  lemma Types(e: Rec, hostId: Option<string>, stream: seq<Json>)
    requires CanonicalLegacyEvent(e, hostId, stream).Ok?
    ensures var c := CanonicalLegacyEvent(e, hostId, stream).value;
      && (Named(c, "legacy/assistant-chunk") <==> Named(e, "assistant/chunk") || Named(e, "legacy/assistant-chunk"))
      && (Named(c, "legacy/request-header") <==> StaleHeader(e) || Named(e, "legacy/request-header"))
      && (Named(c, "legacy/subagent-descriptor") <==> StaleDescriptor(e) || Named(e, "legacy/subagent-descriptor"))
      && (Named(c, "legacy/team-event") <==> StaleTeam(e) || Named(e, "legacy/team-event"))
      && (Named(c, "tool/ptc-dispatch-start") <==>
          Named(e, "tool/code-dispatch-start") || Named(e, "tool/ptc-dispatch-start"))
      && (Named(c, "tool/ptc-dispatch") <==> Named(e, "tool/code-dispatch") || Named(e, "tool/ptc-dispatch"))
      && ("type" in c && c["type"].Inherited? <==> NamedAfterMember(e))
      && ("type" in c && "type" in e && c["type"] == e["type"] <==>
          !Wrapped(e) && !Renamed(e) && !NamedAfterMember(e))
  {
    TypeOf(e, hostId, stream);
    Letters(e);
    hide CanonicalLegacyEvent;
  }

  /** The kinds exclude one another. */
  lemma Letters(e: Rec)
    ensures Wrapped(e) ==> !Renamed(e) && !NamedAfterMember(e)
    ensures Wrapped(e) ==>
      !Named(e, "legacy/assistant-chunk") && !Named(e, "legacy/request-header")
      && !Named(e, "legacy/subagent-descriptor") && !Named(e, "legacy/team-event")
      && !Named(e, "tool/ptc-dispatch-start") && !Named(e, "tool/ptc-dispatch")
    ensures Named(e, "assistant/chunk") || StaleHeader(e) || StaleDescriptor(e) ==> !OfTeam(e)
  {
    assert "assistant/chunk"[0] == 'a' && "request/header"[0] == 'r' && "subagent/descriptor"[0] == 's';
    assert "legacy/assistant-chunk"[0] == 'l' && "legacy/request-header"[0] == 'l'
      && "legacy/subagent-descriptor"[0] == 'l' && "legacy/team-event"[0] == 'l';
    assert "tool/ptc-dispatch-start"[1] == 'o' && "tool/ptc-dispatch"[1] == 'o'
      && "tool/code-dispatch-start"[1] == 'o' && "tool/code-dispatch"[1] == 'o';
    assert OfTeam(e) ==> e["type"].s[0] == e["type"].s[..5][0] == 't' && e["type"].s[1] == e["type"].s[..5][1] == 'e';
    if Wrapped(e) && NamedAfterMember(e) {
      var kind := e["type"].s;
      InheritedLetters(kind);
    }
  }

  // ---- What they carry -------------------------------------------------------------------------

  predicate Same(a: Rec, b: Rec, k: string) {
    (k in a <==> k in b) && (k in a ==> a[k] == b[k])
  }

  /** The wrapping: a type of its own, the event's place, and inside it the event's own type, data, sources and
      replacement. */
  ghost predicate IsWrapping(c: Rec, e: Rec, hostId: Option<string>)
    requires "type" in e && "seq" in e
  {
    && (forall k :: k in c <==>
          || k == "type" || k == "seq" || k == "data" || k == "ignorable" || k == "sourceSeq"
          || (k == "time" && "time" in e) || (k == "hostId" && hostId.Some?))
    && c["seq"] == e["seq"] && c["sourceSeq"] == e["seq"] && c["ignorable"] == Bool(true) && Same(c, e, "time")
    && (hostId.Some? ==> c["hostId"] == Str(hostId.value))
    && c["data"].Obj? && Encloses(c["data"].o, e)
  }

  ghost predicate Encloses(o: Rec, e: Rec)
    requires "type" in e
  {
    && (forall k :: k in o <==>
          k == "legacyType" || ((k == "data" || k == "sourceEventSeqs" || k == "surfaceOp") && k in e))
    && o["legacyType"] == e["type"] && Same(o, e, "data") && Same(o, e, "sourceEventSeqs") && Same(o, e, "surfaceOp")
  }

  /** The replacement is rewritten with the newer names; anything else is kept. */
  ghost predicate Rewrites(c: Rec, e: Rec) {
    && ("surfaceOp" in c <==> "surfaceOp" in e)
    && ("surfaceOp" in e && !IsReplacement(e["surfaceOp"]) ==> c["surfaceOp"] == e["surfaceOp"])
    && (forall start: int, end: int ::
          "surfaceOp" in e && IsReplacement(e["surfaceOp"]) && Bounds(e["surfaceOp"], start, end) ==>
            c["surfaceOp"] == Obj(map["op" := Str("replace"), "startSeq" := Num(start), "endSeq" := Num(end)]))
  }

  /** What every event that is not wrapped gets: the source number it has, or its own number, and the host. */
  ghost predicate Sourced(c: Rec, e: Rec, hostId: Option<string>)
    requires "seq" in e
  {
    && "sourceSeq" in c
    && c["sourceSeq"] == (if "sourceSeq" in e && e["sourceSeq"] != Null then e["sourceSeq"] else e["seq"])
    && (hostId.Some? ==> "hostId" in c && c["hostId"] == Str(hostId.value))
    && (hostId.None? ==> Same(c, e, "hostId"))
    && Rewrites(c, e)
  }

  /** The list of sources is one, and the data has no stream of its own. */
  predicate LacksStream(e: Rec) {
    && "sourceEventSeqs" in e && e["sourceEventSeqs"].Arr?
    && ("data" in e && e["data"].Obj? && "stream" in e["data"].o ==> !e["data"].o["stream"].Arr?)
  }

  predicate HasData(e: Rec) {
    "data" in e && e["data"].Obj?
  }

  /** A message's list of sources is moved aside; when its data lacks a stream it gets this one, and says so. */
  ghost predicate Streams(c: Rec, e: Rec, stream: seq<Json>) {
    && "sourceEventSeqs" !in c
    && (if "sourceEventSeqs" in e && e["sourceEventSeqs"].Arr? then Has(c, "streamSourceSeqs", e["sourceEventSeqs"])
        else Same(c, e, "streamSourceSeqs"))
    && (if LacksStream(e) then Has(c, "streamDerived", Bool(true)) else Same(c, e, "streamDerived"))
    && (if LacksStream(e) && HasData(e) then
          && HasData(c) && Has(c["data"].o, "stream", Arr(stream))
          && forall k :: k != "stream" ==> Same(c["data"].o, e["data"].o, k)
        else Same(c, e, "data"))
  }

  ghost predicate KeepsRest(c: Rec, e: Rec) {
    forall k :: k !in {"type", "sourceSeq", "hostId", "surfaceOp"} ==> Same(c, e, k)
  }

  const STREAM_FIELDS := {"data", "sourceEventSeqs", "streamSourceSeqs", "streamDerived"}

  ghost predicate KeepsRestOfMessage(c: Rec, e: Rec) {
    forall k ::
      k !in {"type", "sourceSeq", "hostId", "surfaceOp"} && k !in STREAM_FIELDS ==> Same(c, e, k)
  }

  /** CONTENTS. What the canonical form of an event holds, field by field. */
  lemma Contents(e: Rec, hostId: Option<string>, stream: seq<Json>)
    requires CanonicalLegacyEvent(e, hostId, stream).Ok?
    ensures var c := CanonicalLegacyEvent(e, hostId, stream).value;
      && Placed(e)
      && (Wrapped(e) ==> IsWrapping(c, e, hostId))
      && (!Wrapped(e) ==> Sourced(c, e, hostId))
      && (Named(e, "assistant/message") ==> Streams(c, e, stream) && KeepsRestOfMessage(c, e))
      && (!Wrapped(e) && !Named(e, "assistant/message") ==> KeepsRest(c, e))
  {
    Converts(e, hostId, stream);
    WrappedLaw(e);
    var kind := e["type"].s;
    if kind == "assistant/message" {
      MessageContents(e, hostId, stream);
    } else if Wrapped(e) {
      WrapHolds(e, hostId, OpaqueKind(e, kind).value);
    } else {
      PlainContents(e, hostId, ToCurrentType(kind));
    }
    hide UpstreamToCanonicalEvent, IsWrapping, Opaque, OpaqueKind, Wrapped, Placed, Sourced, Streams, KeepsRest,
      KeepsRestOfMessage, MessageFields, ToCurrentType;
  }

  lemma MessageContents(e: Rec, hostId: Option<string>, stream: seq<Json>)
    requires "seq" in e && UpstreamToCanonicalEvent(MessageFields(e, stream), hostId).Ok?
    ensures var c := UpstreamToCanonicalEvent(MessageFields(e, stream), hostId).value;
      Sourced(c, e, hostId) && Streams(c, e, stream) && KeepsRestOfMessage(c, e)
  {
    var f := MessageFields(e, stream);
    var c := UpstreamToCanonicalEvent(f, hostId).value;
    MessageLeaves(e, stream);
    MessageHolds(e, stream);
    UpstreamHolds(f, hostId);
    hide UpstreamToCanonicalEvent, MessageFields;
    SourcedLike(c, f, e, hostId);
    hide Sourced, Bounds, IsReplacement, LacksStream;
    assert Same(c, f, "data") && Same(c, f, "sourceEventSeqs") && Same(c, f, "streamSourceSeqs")
      && Same(c, f, "streamDerived");
  }

  lemma SourcedLike(c: Rec, f: Rec, e: Rec, hostId: Option<string>)
    requires "seq" in f && "seq" in e && Sourced(c, f, hostId)
    requires Get(f, "sourceSeq") == Get(e, "sourceSeq") && Get(f, "seq") == Get(e, "seq")
      && Get(f, "surfaceOp") == Get(e, "surfaceOp") && Get(f, "hostId") == Get(e, "hostId")
    ensures Sourced(c, e, hostId)
  {
    hide Bounds, IsReplacement;
  }

  lemma PlainContents(e: Rec, hostId: Option<string>, kind: Json)
    requires "seq" in e && UpstreamToCanonicalEvent(e["type" := kind], hostId).Ok?
    ensures var c := UpstreamToCanonicalEvent(e["type" := kind], hostId).value;
      Sourced(c, e, hostId) && KeepsRest(c, e)
  {
    UpstreamHolds(e["type" := kind], hostId);
    hide UpstreamToCanonicalEvent, Bounds, IsReplacement;
  }

  lemma UpstreamHolds(f: Rec, hostId: Option<string>)
    requires "seq" in f && UpstreamToCanonicalEvent(f, hostId).Ok?
    ensures var c := UpstreamToCanonicalEvent(f, hostId).value;
      && Sourced(c, f, hostId) && forall k :: k !in {"sourceSeq", "hostId", "surfaceOp"} ==> Same(c, f, k)
  {
    if "surfaceOp" in f { Replacements(f["surfaceOp"], true); }
    hide NormalizeReplace;
  }

  lemma MessageHolds(e: Rec, stream: seq<Json>)
    ensures Streams(MessageFields(e, stream), e, stream) && KeepsRestOfMessage(MessageFields(e, stream), e)
    ensures Same(MessageFields(e, stream), e, "type")
  {}

  lemma WrapHolds(e: Rec, hostId: Option<string>, kind: string)
    requires "type" in e && "seq" in e && NonNegative(e["seq"]) && UpstreamToCanonicalEvent(Opaque(e, kind), hostId).Ok?
    ensures IsWrapping(UpstreamToCanonicalEvent(Opaque(e, kind), hostId).value, e, hostId)
  {
    EnclosureHolds(e, kind);
    UpstreamHolds(Opaque(e, kind), hostId);
    hide UpstreamToCanonicalEvent, Opaque, Encloses, Bounds, IsReplacement;
  }

  ghost predicate OutsideOf(o: Rec, e: Rec) {
    forall k :: k in o <==>
      (k == "type" || k == "seq" || k == "data" || k == "ignorable" || (k == "time" && "time" in e))
  }

  lemma EnclosureHolds(e: Rec, kind: string)
    requires "type" in e && "seq" in e
    ensures var o := Opaque(e, kind);
      && Has(o, "type", Str(kind)) && Has(o, "seq", e["seq"]) && Has(o, "ignorable", Bool(true)) && Same(o, e, "time")
      && "data" in o && o["data"].Obj? && Encloses(o["data"].o, e) && OutsideOf(o, e)
  {}

  // ---- What a browser is given -----------------------------------------------------------------

  predicate Hidden(k: string) {
    k == "sourceSeq" || k == "hostId" || k == "streamSourceSeqs" || k == "streamDerived"
  }

  /** No field of the canonical form's own. */
  predicate NothingCanonical(b: Rec) {
    "sourceSeq" !in b && "hostId" !in b && "streamSourceSeqs" !in b && "streamDerived" !in b
  }

  /** A current browser is given a canonical event without the canonical fields, without a message's list of sources,
      and with its replacement rewritten. */
  ghost predicate Given(b: Rec, c: Rec) {
    && NothingCanonical(b) && Rewrites(b, c)
    && (if Named(c, "assistant/message") then "sourceEventSeqs" !in b else Same(b, c, "sourceEventSeqs"))
    && forall k :: !Hidden(k) && k != "surfaceOp" && k != "sourceEventSeqs" ==> Same(b, c, k)
  }

  /** CURRENT BROWSERS. */
  lemma CurrentGiven(c: Rec)
    requires "seq" in c && Typed(c)
    ensures BrowserEvent(c, false).Ok? <==> GoodReplacement(c)
    ensures BrowserEvent(c, false).Ok? ==> Given(BrowserEvent(c, false).value, c)
    ensures BrowserEvent(c, false).Err? ==> BrowserEvent(c, false).error == InvalidSequence
  {
    if "surfaceOp" in c { Replacements(c["surfaceOp"], false); }
    hide BrowserReplace, NormalizeReplace, Bounded, Bounds;
  }

  /** What a current browser is given for a legacy event that is kept opaque: a type of its own, the event's place, and
      the wrapping. */
  ghost predicate GivenWrapped(b: Rec, e: Rec)
    requires "type" in e && "seq" in e
  {
    && (forall k :: k in b <==>
          (k == "type" || k == "seq" || k == "data" || k == "ignorable" || (k == "time" && "time" in e)))
    && b["seq"] == e["seq"] && b["ignorable"] == Bool(true) && Same(b, e, "time")
    && b["data"].Obj? && Encloses(b["data"].o, e)
  }

  /** For a message: its data, with the stream it lacked. */
  ghost predicate GivenMessage(b: Rec, e: Rec, stream: seq<Json>) {
    && "sourceEventSeqs" !in b
    && (if LacksStream(e) && HasData(e) then
          && HasData(b) && Has(b["data"].o, "stream", Arr(stream))
          && forall k :: k != "stream" ==> Same(b["data"].o, e["data"].o, k)
        else Same(b, e, "data"))
    && forall k :: !Hidden(k) && k !in {"type", "surfaceOp", "data", "sourceEventSeqs"} ==> Same(b, e, k)
  }

  /** For any other event: all of its fields. */
  ghost predicate GivenPlain(b: Rec, e: Rec) {
    forall k :: !Hidden(k) && k !in {"type", "surfaceOp"} ==> Same(b, e, k)
  }

  lemma GoodAfter(c: Rec, e: Rec)
    requires Rewrites(c, e) && GoodReplacement(e)
    ensures GoodReplacement(c)
  {
    if "surfaceOp" in e && IsReplacement(e["surfaceOp"]) {
      var start: int, end: int :| Bounds(e["surfaceOp"], start, end);
      assert Bounds(c["surfaceOp"], start, end);
    }
  }

  lemma RewritesTwice(b: Rec, c: Rec, e: Rec)
    requires Rewrites(b, c) && Rewrites(c, e)
    ensures Rewrites(b, e)
  {
    forall start: int, end: int |
      "surfaceOp" in e && IsReplacement(e["surfaceOp"]) && Bounds(e["surfaceOp"], start, end)
      ensures b["surfaceOp"]
              == Obj(map["op" := Str("replace"), "startSeq" := Num(start), "endSeq" := Num(end)])
    {
      assert Bounds(c["surfaceOp"], start, end);
    }
  }

  lemma MessageStays(e: Rec, hostId: Option<string>, stream: seq<Json>)
    requires CanonicalLegacyEvent(e, hostId, stream).Ok?
    ensures Named(CanonicalLegacyEvent(e, hostId, stream).value, "assistant/message") <==> Named(e, "assistant/message")
  {
    TypeOf(e, hostId, stream);
    assert "assistant/message"[0] == 'a' && "legacy/assistant-chunk"[0] == 'l' && "legacy/request-header"[0] == 'l'
      && "legacy/subagent-descriptor"[0] == 'l' && "legacy/team-event"[0] == 'l'
      && "tool/ptc-dispatch-start"[0] == 't' && "tool/ptc-dispatch"[0] == 't';
    assert Named(e, "assistant/message") ==> !Wrapped(e) && !Renamed(e) && !NamedAfterMember(e) by {
      if Named(e, "assistant/message") { MessageIsPlain(e); }
    }
    hide CanonicalLegacyEvent, NamedAfterMember, StaleHeader, StaleDescriptor, StaleTeam;
  }

  lemma MessageIsPlain(e: Rec)
    requires Named(e, "assistant/message")
    ensures !Wrapped(e) && !Renamed(e) && !NamedAfterMember(e)
  {
    WrappedLaw(e);
    if NamedAfterMember(e) { MembersHaveNoSlash(e); }
    assert "assistant/message"[0] != "tool/code-dispatch"[0] && "assistant/message"[0] != "tool/code-dispatch-start"[0];
    hide NamedAfterMember, OpaqueKind, Wrapped;
  }

  /** GIVEN. What a current browser is given for every legacy event that converts: the type that TYPES lists for it, and
      these fields. */
  lemma GivenForLegacy(e: Rec, hostId: Option<string>, stream: seq<Json>)
    requires CanonicalLegacyEvent(e, hostId, stream).Ok?
    ensures var c := CanonicalLegacyEvent(e, hostId, stream).value;
      && "seq" in c && Typed(c) && BrowserEvent(c, false).Ok? && Placed(e)
      && var b := BrowserEvent(c, false).value;
      && Same(b, c, "type") && NothingCanonical(b) && (Wrapped(e) ==> GivenWrapped(b, e))
      && (!Wrapped(e) ==> Rewrites(b, e))
      && (Named(e, "assistant/message") ==> GivenMessage(b, e, stream))
      && (!Wrapped(e) && !Named(e, "assistant/message") ==> GivenPlain(b, e))
  {
    CanonicalShape(e, hostId, stream);
    var c := CanonicalLegacyEvent(e, hostId, stream).value;
    Contents(e, hostId, stream);
    Converts(e, hostId, stream);
    MessageStays(e, hostId, stream);
    if Wrapped(e) { WrappingIsNoMessage(e, c, hostId); } else { GoodAfter(c, e); }
    CurrentGiven(c);
    hide *;
    var b := BrowserEvent(c, false).value;
    assert Same(b, c, "type") && NothingCanonical(b) by { GivenMeans(b, c); }
    if Wrapped(e) {
      WrappedMeans(b, c, e, hostId);
    } else {
      GivenMeans(b, c);
      SourcedMeans(c, e, hostId);
      RewritesTwice(b, c, e);
      if Named(e, "assistant/message") { MessageMeans(b, c, e, stream); } else { PlainMeans(b, c, e); }
    }
    NotBoth(e);
  }

  lemma NotBoth(e: Rec)
    ensures !(Wrapped(e) && Named(e, "assistant/message"))
  {
    if "type" in e && e["type"].Str? { WrappedLaw(e); }
    hide Wrapped;
  }

  lemma WrappingIsNoMessage(e: Rec, c: Rec, hostId: Option<string>)
    requires "type" in e && "seq" in e && IsWrapping(c, e, hostId)
    ensures GoodReplacement(c)
  {
    assert "surfaceOp" !in c;
  }

  lemma GivenMeans(b: Rec, c: Rec)
    requires Given(b, c)
    ensures Same(b, c, "type") && NothingCanonical(b) && Rewrites(b, c)
  {
    hide Rewrites;
  }

  lemma SourcedMeans(c: Rec, e: Rec, hostId: Option<string>)
    requires "seq" in e && Sourced(c, e, hostId)
    ensures Rewrites(c, e)
  {
    hide Rewrites;
  }

  lemma WrappingHasNone(b: Rec, c: Rec, e: Rec, hostId: Option<string>)
    requires "type" in e && "seq" in e && IsWrapping(c, e, hostId) && Given(b, c)
    ensures "surfaceOp" !in b && "sourceEventSeqs" !in b
  {
    hide Encloses;
    assert Rewrites(b, c) && "surfaceOp" !in c && "sourceEventSeqs" !in c;
    assert Named(c, "assistant/message") || Same(b, c, "sourceEventSeqs");
  }

  lemma WrappedMeans(b: Rec, c: Rec, e: Rec, hostId: Option<string>)
    requires "type" in e && "seq" in e && IsWrapping(c, e, hostId) && Given(b, c)
    ensures GivenWrapped(b, e)
  {
    hide Encloses, Rewrites;
    assert forall k :: Hidden(k) ==> k !in b;
    assert "surfaceOp" !in b && "sourceEventSeqs" !in b by { WrappingHasNone(b, c, e, hostId); }
    WrappedFields(b, c);
    hide Given, NothingCanonical;
    forall k ensures k in b <==>
      (k == "type" || k == "seq" || k == "data" || k == "ignorable" || (k == "time" && "time" in e))
    {
      Apart(k);
      hide Hidden;
      assert Same(b, c, k) || Hidden(k) || k == "surfaceOp" || k == "sourceEventSeqs";
    }
  }

  lemma WrappedFields(b: Rec, c: Rec)
    requires Given(b, c)
    ensures Same(b, c, "time") && Same(b, c, "seq") && Same(b, c, "ignorable") && Same(b, c, "data")
    ensures forall k :: Same(b, c, k) || Hidden(k) || k == "surfaceOp" || k == "sourceEventSeqs"
  {
    hide Rewrites;
    Apart("time");
    Apart("seq");
    Apart("ignorable");
    Apart("data");
    hide Hidden;
  }

  lemma Apart(k: string)
    ensures k == "type" || k == "seq" || k == "data" || k == "ignorable" || k == "time" ==>
      !Hidden(k) && k != "surfaceOp" && k != "sourceEventSeqs"
    ensures k == "sourceSeq" || k == "hostId" || k == "streamSourceSeqs" || k == "streamDerived" ==>
      Hidden(k) && k != "surfaceOp" && k != "type"
    ensures Hidden(k) ==> k == "sourceSeq" || k == "hostId" || k == "streamSourceSeqs" || k == "streamDerived"
  {}

  lemma MessageMeans(b: Rec, c: Rec, e: Rec, stream: seq<Json>)
    requires Named(c, "assistant/message") && Given(b, c) && Streams(c, e, stream) && KeepsRestOfMessage(c, e)
    ensures GivenMessage(b, e, stream)
  {
    hide Rewrites, LacksStream;
    assert Same(b, c, "data");
    forall k | !Hidden(k) && k !in {"type", "surfaceOp", "data", "sourceEventSeqs"} ensures Same(b, e, k) {
      assert Same(b, c, k) && Same(c, e, k);
    }
  }

  lemma PlainMeans(b: Rec, c: Rec, e: Rec)
    requires !Named(c, "assistant/message") && Given(b, c) && KeepsRest(c, e)
    ensures GivenPlain(b, e)
  {
    hide Rewrites;
    forall k | !Hidden(k) && k !in {"type", "surfaceOp"} ensures Same(b, e, k) {
      assert Same(b, c, k) && Same(c, e, k);
    }
  }

  // ---- What a legacy browser is given ----------------------------------------------------------

  /** The data says what legacy type it wraps. */
  predicate SaysLegacyType(c: Rec) {
    "data" in c && c["data"].Obj? && "legacyType" in c["data"].o && c["data"].o["legacyType"].Str?
  }

  /** The event is a wrapping, which is opened for a legacy browser. */
  predicate Opens(c: Rec) {
    && SaysLegacyType(c) && "type" in c && c["type"].Str? && |c["type"].s| >= 7 && c["type"].s[..7] == "legacy/"
  }

  /** The older names of the two renamed types, and the members that all objects inherit. */
  predicate OlderType(e: Rec, was: Rec) {
    if Named(was, "tool/ptc-dispatch-start") then Named(e, "tool/code-dispatch-start")
    else if Named(was, "tool/ptc-dispatch") then Named(e, "tool/code-dispatch")
    else if NamedAfterMember(was) then Has(e, "type", Inherited(was["type"].s))
    else Same(e, was, "type")
  }

  /** The replacement is rewritten with the older names; anything else is kept. */
  ghost predicate RewritesBack(b: Rec, c: Rec) {
    && ("surfaceOp" in b <==> "surfaceOp" in c)
    && ("surfaceOp" in c && !IsReplacement(c["surfaceOp"]) ==> b["surfaceOp"] == c["surfaceOp"])
    && (forall start: int, end: int ::
          "surfaceOp" in c && IsReplacement(c["surfaceOp"]) && Bounds(c["surfaceOp"], start, end) ==>
            b["surfaceOp"] == Obj(map["op" := Str("replace"), "start" := Num(start), "end" := Num(end)]))
  }

  /** What is inside a wrapping, in its place. */
  ghost predicate Opened(b: Rec, c: Rec)
    requires Opens(c)
  {
    var o := c["data"].o;
    && OlderType(b, map["type" := o["legacyType"]]) && Same(b, c, "seq") && Same(b, c, "time") && Same(b, o, "data")
    && Same(b, o, "sourceEventSeqs") && RewritesBack(b, o)
    && forall k :: k in b ==> k in {"type", "seq", "time", "data", "sourceEventSeqs", "surfaceOp"}
  }

  /** Neither missing, null, false, zero nor empty. */
  predicate Set(e: Rec, k: string) {
    k in e && e[k] != Null && e[k] != Bool(false) && e[k] != Num(0) && e[k] != Str("")
  }

  predicate ListsSources(c: Rec) {
    "streamSourceSeqs" in c && c["streamSourceSeqs"].Arr?
  }

  /** An event that is no wrapping: its list of sources goes back, and with it a stream that was made from it. */
  ghost predicate Restored(b: Rec, c: Rec) {
    && NothingCanonical(b) && OlderType(b, c) && RewritesBack(b, c)
    && (if ListsSources(c) then Has(b, "sourceEventSeqs", c["streamSourceSeqs"]) else Same(b, c, "sourceEventSeqs"))
    && (if ListsSources(c) && Set(c, "streamDerived") && HasData(c) then
          && HasData(b) && "stream" !in b["data"].o && forall k :: k != "stream" ==> Same(b["data"].o, c["data"].o, k)
        else Same(b, c, "data"))
    && forall k :: !Hidden(k) && k !in {"type", "surfaceOp", "data", "sourceEventSeqs"} ==> Same(b, c, k)
  }

  /** What is left to do once a wrapping is open. */
  function Shown(source: Rec): Result<Rec, Failure>
    requires Typed(source)
  {
    var restored := RestoredStream(source, source - CANONICAL_ONLY);
    Rewritten(if source["type"].Str? then restored["type" := ToLegacyType(source["type"].s)] else restored)
  }

  lemma ShownLaw(c: Rec)
    requires "seq" in c && Typed(c) && (SaysLegacyType(c) ==> c["type"].Str?)
    ensures !Opens(c) ==> BrowserEvent(c, true) == Shown(c)
    ensures Opens(c) ==> BrowserEvent(c, true) == Shown(Reopened(c))
  {
    OpensLaw(c);
    var source := if Opens(c) then Reopened(c) else c;
    RestoredRewritten(source, source, source - CANONICAL_ONLY, Null);
    hide Opens, Reopened, RestoredStream, ToLegacyType, BrowserReplace;
  }

  lemma OpensLaw(c: Rec)
    ensures Opens(c) <==> IsOpaque(c)
    ensures Opens(c) && "seq" in c ==> Typed(Reopened(c))
  {}

  lemma OlderLaw(e: Rec)
    requires "type" in e && e["type"].Str?
    ensures ToLegacyType(e["type"].s) == (
      if Named(e, "tool/ptc-dispatch-start") then Str("tool/code-dispatch-start")
      else if Named(e, "tool/ptc-dispatch") then Str("tool/code-dispatch")
      else if NamedAfterMember(e) then Inherited(e["type"].s)
      else e["type"])
  {
    MemberBackLaw(e);
    if NamedAfterMember(e) { MembersHaveNoSlash(e); }
    assert "tool/ptc-dispatch-start"[4] == '/' && "tool/ptc-dispatch"[4] == '/';
    hide NamedAfterMember, ToLegacyType;
  }

  lemma MemberBackLaw(e: Rec)
    requires "type" in e && e["type"].Str?
    ensures ToLegacyType(e["type"].s)
            == if NamedAfterMember(e) then Inherited(e["type"].s) else Str(ToLegacyName(e["type"].s))
  {
    hide ToLegacyName;
  }

  /** The fields of the event with its sources restored. */
  lemma RestoredFields(c: Rec)
    ensures var r := RestoredStream(c, c - CANONICAL_ONLY);
      && NothingCanonical(r) && Same(r, c, "surfaceOp") && Same(r, c, "type")
      && (if ListsSources(c) then Has(r, "sourceEventSeqs", c["streamSourceSeqs"]) else Same(r, c, "sourceEventSeqs"))
      && (if ListsSources(c) && Set(c, "streamDerived") && HasData(c) then
            && HasData(r) && "stream" !in r["data"].o
               && forall k :: k != "stream" ==> Same(r["data"].o, c["data"].o, k)
          else Same(r, c, "data"))
      && forall k :: !Hidden(k) && k !in {"data", "sourceEventSeqs"} ==> Same(r, c, k)
  {}

  lemma RewrittenFields(r: Rec)
    ensures Rewritten(r).Ok? <==> GoodReplacement(r)
    ensures Rewritten(r).Err? ==> Rewritten(r).error == InvalidSequence
    ensures Rewritten(r).Ok? ==> RewritesBack(Rewritten(r).value, r)
    ensures Rewritten(r).Ok? ==> forall k :: k != "surfaceOp" ==> Same(Rewritten(r).value, r, k)
  {
    if "surfaceOp" in r { Replacements(r["surfaceOp"], true); }
    hide BrowserReplace, NormalizeReplace, Bounded, Bounds;
  }

  lemma RewritesBackLike(b: Rec, r: Rec, c: Rec)
    requires RewritesBack(b, r) && Same(r, c, "surfaceOp")
    ensures RewritesBack(b, c)
  {
    hide IsReplacement, Bounds;
  }

  lemma ShownRestored(c: Rec)
    requires Typed(c)
    ensures Shown(c).Ok? <==> GoodReplacement(c)
    ensures Shown(c).Err? ==> Shown(c).error == InvalidSequence
    ensures Shown(c).Ok? ==> Restored(Shown(c).value, c)
  {
    var r := RestoredStream(c, c - CANONICAL_ONLY);
    var named := if c["type"].Str? then r["type" := ToLegacyType(c["type"].s)] else r;
    assert Shown(c) == Rewritten(named);
    NamedOlder(c, r, named);
    GoodLike(named, c);
    RewrittenFields(named);
    hide *;
    if Rewritten(named).Ok? { RewrittenRestored(c, r, named, Rewritten(named).value); }
  }

  lemma NamedOlder(c: Rec, r: Rec, named: Rec)
    requires Typed(c) && r == RestoredStream(c, c - CANONICAL_ONLY)
    requires named == if c["type"].Str? then r["type" := ToLegacyType(c["type"].s)] else r
    ensures OlderType(named, c) && Same(named, c, "surfaceOp") && forall k :: k != "type" ==> Same(named, r, k)
  {
    RestoredFields(c);
    if c["type"].Str? { OlderLaw(c); }
    hide RestoredStream, ToLegacyType, ListsSources;
    assert Same(r, c, "type");
    assert c["type"].Inherited? ==> !NamedAfterMember(c);
  }

  lemma RewrittenRestored(c: Rec, r: Rec, named: Rec, b: Rec)
    requires r == RestoredStream(c, c - CANONICAL_ONLY)
    requires OlderType(named, c) && Same(named, c, "surfaceOp") && forall k :: k != "type" ==> Same(named, r, k)
    requires RewritesBack(b, named) && forall k :: k != "surfaceOp" ==> Same(b, named, k)
    ensures Restored(b, c)
  {
    RestoredFields(c);
    RewritesBackLike(b, named, c);
    OlderLike(b, named, c);
    hide RestoredStream, OlderType, RewritesBack, ListsSources, Set;
    forall k | k != "surfaceOp" && k != "type" ensures Same(b, r, k) {
      assert Same(b, named, k) && Same(named, r, k);
    }
    Apart("data");
    Apart("sourceSeq");
    Apart("hostId");
    Apart("streamSourceSeqs");
    Apart("streamDerived");
    assert "sourceEventSeqs" != "surfaceOp" && "sourceEventSeqs" != "type" && "data" != "type";
    assert Same(b, r, "sourceEventSeqs") && Same(b, r, "data");
    hide Hidden;
    assert NothingCanonical(b) by {
      assert Same(b, r, "sourceSeq") && Same(b, r, "hostId") && Same(b, r, "streamSourceSeqs")
        && Same(b, r, "streamDerived");
    }
    hide NothingCanonical;
    forall k | !Hidden(k) && k !in {"type", "surfaceOp", "data", "sourceEventSeqs"} ensures Same(b, c, k) {
      assert Same(b, r, k) && Same(r, c, k);
    }
  }

  lemma OlderLike(b: Rec, r: Rec, c: Rec)
    requires OlderType(r, c) && Same(b, r, "type")
    ensures OlderType(b, c)
  {}

  lemma GoodLike(r: Rec, c: Rec)
    requires Same(r, c, "surfaceOp")
    ensures GoodReplacement(r) <==> GoodReplacement(c)
  {
    hide IsReplacement, Bounded;
  }

  /** LEGACY BROWSERS. What a legacy browser is given for any canonical event, and when it is given nothing. */
  lemma LegacyGiven(c: Rec)
    requires "seq" in c && Typed(c)
    ensures SaysLegacyType(c) && c["type"].Inherited? ==> BrowserEvent(c, true) == Err(NotAString)
    ensures !(SaysLegacyType(c) && c["type"].Inherited?) ==>
      && (BrowserEvent(c, true).Ok? <==> GoodReplacement(if Opens(c) then c["data"].o else c))
      && (BrowserEvent(c, true).Err? ==> BrowserEvent(c, true).error == InvalidSequence)
      && (BrowserEvent(c, true).Ok? && Opens(c) ==> Opened(BrowserEvent(c, true).value, c))
      && (BrowserEvent(c, true).Ok? && !Opens(c) ==> Restored(BrowserEvent(c, true).value, c))
  {
    if !(SaysLegacyType(c) && c["type"].Inherited?) {
      ShownLaw(c);
      OpensLaw(c);
      if Opens(c) {
        ShownRestored(Reopened(c));
        OpenedLaw(c);
      } else {
        ShownRestored(c);
      }
    }
    hide Opens, Reopened, Shown, Opened, Restored, GoodReplacement, BrowserEvent;
    RefusedLaw(c);
  }

  lemma RefusedLaw(c: Rec)
    requires "seq" in c && Typed(c)
    ensures SaysLegacyType(c) && c["type"].Inherited? ==> BrowserEvent(c, true) == Err(NotAString)
  {}

  lemma OpenedLaw(c: Rec)
    requires Opens(c) && "seq" in c && IsOpaque(c)
    ensures GoodReplacement(Reopened(c)) <==> GoodReplacement(c["data"].o)
    ensures forall b :: Restored(b, Reopened(c)) ==> Opened(b, c)
  {
    var source, o := Reopened(c), c["data"].o;
    ReopenedFields(c);
    GoodLike(source, o);
    hide Reopened;
    forall b | Restored(b, source) ensures Opened(b, c) {
      RestoredOpened(b, source, c);
    }
  }

  lemma ReopenedFields(c: Rec)
    requires IsOpaque(c) && "seq" in c
    ensures var source, o := Reopened(c), c["data"].o;
      && Has(source, "type", o["legacyType"]) && Same(source, c, "seq") && Same(source, c, "time")
      && Same(source, o, "data") && Same(source, o, "sourceEventSeqs") && Same(source, o, "surfaceOp")
      && forall k :: k in source ==> k in {"type", "seq", "time", "data", "sourceEventSeqs", "surfaceOp"}
  {}

  lemma RestoredOpened(b: Rec, source: Rec, c: Rec)
    requires Opens(c) && Restored(b, source)
    requires var o := c["data"].o;
      && Has(source, "type", o["legacyType"]) && Same(source, c, "seq") && Same(source, c, "time")
      && Same(source, o, "data") && Same(source, o, "sourceEventSeqs") && Same(source, o, "surfaceOp")
      && forall k :: k in source ==> k in {"type", "seq", "time", "data", "sourceEventSeqs", "surfaceOp"}
    ensures Opened(b, c)
  {
    var o := c["data"].o;
    var named: Rec := map["type" := o["legacyType"]];
    OlderSame(b, source, named);
    hide OlderType;
    RewritesBackLike(b, source, o);
    hide RewritesBack, Opens;
    assert !ListsSources(source);
    assert Same(b, source, "seq") && Same(b, source, "time") && Same(b, source, "data");
    forall k | k in b ensures k in {"type", "seq", "time", "data", "sourceEventSeqs", "surfaceOp"} {
      if !Hidden(k) && k !in {"type", "surfaceOp", "data", "sourceEventSeqs"} { assert Same(b, source, k); }
    }
  }

  lemma OlderSame(b: Rec, source: Rec, named: Rec)
    requires OlderType(b, source) && Same(source, named, "type")
    ensures OlderType(b, named)
  {
    assert NamedAfterMember(source) <==> NamedAfterMember(named);
    hide NamedAfterMember;
  }

  // ---- Headers ---------------------------------------------------------------------------------

  predicate SeedSafe(o: Rec) {
    "inheritedEventCount" in o && o["inheritedEventCount"].Num?
    && -MAX_SAFE <= o["inheritedEventCount"].n <= MAX_SAFE
  }

  /** HEADERS. A header with a length of its seed that is no sequence number is refused; otherwise the seed says whether
      there is one, and its length if that was given. A current browser is told whether there is a seed, a legacy one
      how long it is, if there is one of a known length; every other field is kept. */
  lemma Headers(h: Rec)
    ensures CanonicalHeader(h).Ok? <==>
            ("seedLength" in h ==> h["seedLength"].Num? && 0 <= h["seedLength"].n <= MAX_SAFE)
    ensures CanonicalHeader(h).Ok? ==>
      var c := CanonicalHeader(h).value;
      && "seedLength" !in c && "isSeeded" !in c && "seed" in c && c["seed"].Obj?
      && var seed := c["seed"].o;
      && Has(seed, "isSeeded", Bool("seedLength" in h || Has(h, "isSeeded", Bool(true))))
      && (if "seedLength" in h then Has(seed, "inheritedEventCount", h["seedLength"])
          else "inheritedEventCount" !in seed)
      && (forall k :: k in seed ==> k == "isSeeded" || k == "inheritedEventCount")
      && forall k :: k != "seed" && k != "seedLength" && k != "isSeeded" ==> Same(c, h, k)
    ensures CanonicalHeader(h).Err? ==> CanonicalHeader(h).error == InvalidSequence
    ensures
      var seeded := "seed" in h && h["seed"].Obj? && Has(h["seed"].o, "isSeeded", Bool(true));
      var current, legacy := BrowserHeader(h, false), BrowserHeader(h, true);
      && "seed" !in current && "seed" !in legacy && "seedLength" !in current && "isSeeded" !in legacy
      && Has(current, "isSeeded", Bool(seeded))
      && (if seeded && SeedSafe(h["seed"].o) then Has(legacy, "seedLength", h["seed"].o["inheritedEventCount"])
          else "seedLength" !in legacy)
      && forall k :: k != "seed" && k != "seedLength" && k != "isSeeded" ==> Same(current, h, k) && Same(legacy, h, k)
  {}

  // ---- Packed chunk rows -----------------------------------------------------------------------

  predicate SeqField(r: Rec, k: string) {
    k in r && r[k].Num? && 0 <= r[k].n <= MAX_SAFE
  }

  /** The texts of a row: its arguments, if it is one of tool calls. */
  function TextsField(e: Rec): string {
    if Named(e, "chunkrow/tool-call-chunks") then "args" else "texts"
  }

  predicate AllTexts(values: seq<Json>) {
    forall i :: 0 <= i < |values| ==> values[i].Str?
  }

  /** A row of one of the three kinds, in its place, with as many texts as times. */
  predicate Row(e: Rec) {
    && (Named(e, "chunkrow/text-chunks") || Named(e, "chunkrow/reasoning-chunks")
        || Named(e, "chunkrow/tool-call-chunks"))
    && SeqField(e, "seq") && "time" in e && e["time"].Num? && -MAX_SAFE <= e["time"].n <= MAX_SAFE
    && "data" in e && e["data"].Obj?
    && var o := e["data"].o;
    && SeqField(o, "turn") && SeqField(o, "step") && SeqField(o, "index")
    && (Named(e, "chunkrow/tool-call-chunks") ==> "id" in o && o["id"].Str?)
    && TextsField(e) in o && o[TextsField(e)].Arr? && AllTexts(o[TextsField(e)].a)
    && "dt" in o && o["dt"].Arr? && |o[TextsField(e)].a| == |o["dt"].a| + 1
  }

  /** These are the times of the row's members: they start at the row's own, lie its gaps apart, and are all safe. */
  predicate Times(e: Rec, times: seq<int>)
    requires Row(e)
  {
    var gaps := e["data"].o["dt"].a;
    && |times| == |gaps| + 1 && times[0] == e["time"].n
    && forall i :: 0 <= i < |gaps| ==> GapAt(gaps[i], times[i], times[i + 1])
  }

  predicate GapAt(gap: Json, before: int, after: int) {
    gap.Num? && -MAX_SAFE <= gap.n <= MAX_SAFE && after == before + gap.n && -MAX_SAFE <= after <= MAX_SAFE
  }

  /** One text of a row, as a chunk of the row's kind. */
  ghost predicate IsMember(m: Rec, e: Rec, i: nat, time: int)
    requires Row(e) && i < |e["data"].o[TextsField(e)].a|
  {
    var o := e["data"].o;
    && (forall k :: k in m <==> k == "type" || k == "seq" || k == "time" || k == "data")
    && Named(m, "assistant/chunk") && m["seq"] == Num(e["seq"].n + i) && m["time"] == Num(time) && HasData(m)
    && (forall k :: k in m["data"].o <==> k == "turn" || k == "step" || k == "chunk")
    && Same(m["data"].o, o, "turn") && Same(m["data"].o, o, "step") && m["data"].o["chunk"].Obj?
    && IsRowChunk(m["data"].o["chunk"].o, e, o[TextsField(e)].a[i])
  }

  ghost predicate IsRowChunk(chunk: Rec, e: Rec, text: Json)
    requires Row(e)
  {
    var o := e["data"].o;
    && Same(chunk, o, "index")
    && (if Named(e, "chunkrow/tool-call-chunks") then
          && Named(chunk, "tool-call-delta") && Same(chunk, o, "id") && Same(chunk, o, "name")
          && Has(chunk, "argumentsDelta", text)
          && forall k :: k in chunk ==> k in {"type", "index", "id", "name", "argumentsDelta"}
        else
          && Has(chunk, "text", text) && (forall k :: k in chunk ==> k in {"type", "index", "text"})
          && if Named(e, "chunkrow/text-chunks") then Named(chunk, "text-delta")
             else Named(chunk, "reasoning-delta"))
  }

  /** ROWS. A row expands exactly if it is one, and its times are safe; its members are then its texts, one for one and
      in order, numbered onwards from the row, with these times. */
  lemma Rows(e: Rec, times: seq<int>)
    ensures Expands(Packed(e)) ==> Row(e) && exists ts :: Times(e, ts)
    ensures Row(e) && Times(e, times) ==>
      && Expands(Packed(e)) && |Members(Packed(e))| == |times| == |e["data"].o[TextsField(e)].a|
      && forall i :: 0 <= i < |times| ==> IsMember(Members(Packed(e))[i], e, i, times[i])
  {
    RowLaw(e);
    if Expands(Packed(e)) {
      var ts := seq(|Values(e)|, i requires 0 <= i < |Values(e)| => TimeAt(e, i));
      forall i | 0 <= i < |ts| - 1 ensures GapAt(e["data"].o["dt"].a[i], ts[i], ts[i + 1]) {
        assert TimeSafe(e, i + 1);
      }
      assert Times(e, ts);
    }
    if Row(e) && Times(e, times) {
      TimesLaw(e, times);
      forall i | 0 <= i < |times| ensures IsMember(Member(e, i), e, i, times[i]) {
        MemberRowLaw(e, i);
      }
    }
  }

  lemma KindLaw(e: Rec, kind: string)
    requires "type" in e && e["type"].Str?
    ensures Named(e, ROW + kind) <==> StartsWith(e["type"].s, ROW) && RowType(e) == kind
  {
    assert (ROW + kind)[|ROW|..] == kind;
    if StartsWith(e["type"].s, ROW) { assert e["type"].s == ROW + RowType(e); }
  }

  lemma KindsLaw(e: Rec)
    requires "type" in e && e["type"].Str?
    ensures Named(e, "chunkrow/tool-call-chunks") <==> StartsWith(e["type"].s, ROW) && RowType(e) == "tool-call-chunks"
    ensures Named(e, "chunkrow/text-chunks") <==> StartsWith(e["type"].s, ROW) && RowType(e) == "text-chunks"
    ensures Named(e, "chunkrow/reasoning-chunks") <==> StartsWith(e["type"].s, ROW) && RowType(e) == "reasoning-chunks"
    ensures StartsWith(e["type"].s, ROW) ==> TextsField(e) == ValuesField(RowType(e))
  {
    KindLaw(e, "tool-call-chunks");
    KindLaw(e, "text-chunks");
    KindLaw(e, "reasoning-chunks");
    assert ROW + "tool-call-chunks" == "chunkrow/tool-call-chunks";
    assert ROW + "text-chunks" == "chunkrow/text-chunks";
    assert ROW + "reasoning-chunks" == "chunkrow/reasoning-chunks";
    hide Named, RowType, StartsWith;
  }

  lemma RowLaw(e: Rec)
    ensures Row(e) <==> WellFormedRow(e) && KnownRow(e)
    ensures Row(e) ==> Values(e) == e["data"].o[TextsField(e)].a
  {
    if "type" in e && e["type"].Str? { KindsLaw(e); }
    assert !("type" in e && e["type"].Str?) ==> !Row(e);
    hide RowType, StartsWith, TextsField, ValuesField, Named;
  }

  lemma {:induction false} TimesLaw(e: Rec, times: seq<int>)
    requires Row(e) && Times(e, times) && WellFormedRow(e)
    ensures |times| == |Values(e)| && TimesSafe(e) && forall i :: 0 <= i < |times| ==> TimeAt(e, i) == times[i]
  {
    RowLaw(e);
    for i := 1 to |times|
      invariant forall j :: 0 <= j < i ==> TimeAt(e, j) == times[j]
      invariant forall j :: 1 <= j < i ==> TimeSafe(e, j)
    {
      assert GapAt(e["data"].o["dt"].a[i - 1], times[i - 1], times[i]);
    }
  }

  lemma MemberRowLaw(e: Rec, i: nat)
    requires Row(e) && WellFormedRow(e) && KnownRow(e) && i < |Values(e)| == |e["data"].o[TextsField(e)].a|
    ensures IsMember(Member(e, i), e, i, TimeAt(e, i))
  {
    RowLaw(e);
    RowChunkLaw(e, i);
    hide RowType, StartsWith, TextsField, ValuesField, IsRowChunk, ChunkOf, KnownRow;
    var o := e["data"].o;
    var data: Rec := map["turn" := o["turn"], "step" := o["step"], "chunk" := ChunkOf(e, i)];
    assert Member(e, i) == map["type" := Str("assistant/chunk"), "seq" := Num(e["seq"].n + i),
                               "time" := Num(TimeAt(e, i)), "data" := Obj(data)];
    hide WellFormedRow, Member, Row;
    DataLaw(o, ChunkOf(e, i), data);
    EventLaw(e["seq"].n + i, TimeAt(e, i), Obj(data), Member(e, i));
  }

  lemma DataLaw(o: Rec, chunk: Json, data: Rec)
    requires "turn" in o && "step" in o && data == map["turn" := o["turn"], "step" := o["step"], "chunk" := chunk]
    ensures forall k :: k in data <==> k == "turn" || k == "step" || k == "chunk"
    ensures Same(data, o, "turn") && Same(data, o, "step") && data["chunk"] == chunk
  {}

  lemma EventLaw(n: int, time: int, data: Json, m: Rec)
    requires m == map["type" := Str("assistant/chunk"), "seq" := Num(n), "time" := Num(time), "data" := data]
    ensures forall k :: k in m <==> k == "type" || k == "seq" || k == "time" || k == "data"
    ensures Named(m, "assistant/chunk") && m["seq"] == Num(n) && m["time"] == Num(time) && m["data"] == data
  {}

  lemma RowChunkLaw(e: Rec, i: nat)
    requires Row(e) && WellFormedRow(e) && KnownRow(e) && i < |Values(e)|
    ensures ChunkOf(e, i).Obj? && IsRowChunk(ChunkOf(e, i).o, e, Values(e)[i])
  {
    var o, text := e["data"].o, Values(e)[i];
    assert "index" in o && (Named(e, "chunkrow/tool-call-chunks") ==> "id" in o);
    WhichChunk(e, i);
    hide ChunkOf, WellFormedRow, Row, KnownRow, Values;
    if Named(e, "chunkrow/tool-call-chunks") {
      CallLaw(o, text, ChunkOf(e, i).o);
    } else {
      TextLaw(o, text, ChunkOf(e, i).o);
    }
    hide Same, Has, Named;
  }

  lemma WhichChunk(e: Rec, i: nat)
    requires Row(e) && WellFormedRow(e) && KnownRow(e) && i < |Values(e)|
    ensures var o, text := e["data"].o, Values(e)[i];
      ChunkOf(e, i) == Obj(
        if Named(e, "chunkrow/tool-call-chunks") then
          With(map["type" := Str("tool-call-delta"), "index" := o["index"], "id" := o["id"], "argumentsDelta" := text],
            "name", Get(o, "name"))
        else if Named(e, "chunkrow/text-chunks") then
          map["type" := Str("text-delta"), "index" := o["index"], "text" := text]
        else map["type" := Str("reasoning-delta"), "index" := o["index"], "text" := text])
    ensures !(Named(e, "chunkrow/tool-call-chunks") && Named(e, "chunkrow/text-chunks"))
  {
    KindsLaw(e);
    hide RowType, StartsWith, TextsField, ValuesField, Named, Values;
  }

  lemma TextLaw(o: Rec, text: Json, chunk: Rec)
    requires "index" in o
    ensures forall kind ::
      chunk == map["type" := Str(kind), "index" := o["index"], "text" := text] ==>
        Named(chunk, kind) && Same(chunk, o, "index") && Has(chunk, "text", text)
        && forall k :: k in chunk ==> k in {"type", "index", "text"}
  {}

  lemma CallLaw(o: Rec, text: Json, chunk: Rec)
    requires "index" in o && "id" in o
    requires chunk == With(map["type" := Str("tool-call-delta"), "index" := o["index"], "id" := o["id"],
      "argumentsDelta" := text], "name", Get(o, "name"))
    ensures Named(chunk, "tool-call-delta") && Same(chunk, o, "index") && Same(chunk, o, "id")
      && Same(chunk, o, "name") && Has(chunk, "argumentsDelta", text)
      && forall k :: k in chunk ==> k in {"type", "index", "id", "name", "argumentsDelta"}
  {}

  // ---- Chunks and the messages made of them ----------------------------------------------------

  /** CHUNKS. Which events of a page are chunks, what a message holds of one, and which messages are rebuilt. */
  lemma Chunks(e: Rec)
    ensures Chunk(e) <==>
            && Named(e, "assistant/chunk") && SeqField(e, "seq") && HasData(e) && "chunk" in e["data"].o
            && e["data"].o["chunk"].Obj?
    ensures Embeds(e) <==> Named(e, "assistant/message") && LacksStream(e) && HasData(e)
    ensures Embeds(e) ==> NamedBy(e) == e["sourceEventSeqs"].a
    ensures Chunk(e) ==>
      && Num(SeqOf(e)) == e["seq"] && StreamMember(e).Obj?
      && var m := StreamMember(e).o;
      && (forall k :: k in m <==> k == "type" || k == "chunk" || (k == "time" && "time" in e))
      && Named(m, "chunk") && m["chunk"] == e["data"].o["chunk"] && Same(m, e, "time")
  {}
}
