/** The rh1 composite ids of packages/browser-host-hub-rc1/src/index.js: a host id and a raw id in one string, each in
    unpadded base64url (section 5 of RFC 4648), accepted only in canonical form (section 3.5). */
module CompositeId {
  import opened Prelude
  import opened Unicode

  type Sextet = v: int | 0 <= v < 64

  // ---- The alphabet ----------------------------------------------------------------------------

  function Letter(v: Sextet): char {
    if v < 26 then 'A' + v as char
    else if v < 52 then 'a' + (v - 26) as char
    else if v < 62 then '0' + (v - 52) as char
    else if v == 62 then '-' else '_'
  }

  function Value(c: char): Option<Sextet> {
    if 'A' <= c <= 'Z' then Some(c as int - 'A' as int)
    else if 'a' <= c <= 'z' then Some(c as int - 'a' as int + 26)
    else if '0' <= c <= '9' then Some(c as int - '0' as int + 52)
    else if c == '-' then Some(62) else if c == '_' then Some(63) else None
  }

  lemma LetterValue(v: Sextet)
    ensures Value(Letter(v)) == Some(v) && Letter(v) != '.'
  {}

  lemma ValueLetter(c: char)
    ensures Value(c).Some? ==> Letter(Value(c).value) == c
  {}

  predicate Alphabetic(s: string) {
    forall i :: 0 <= i < |s| ==> Value(s[i]).Some?
  }

  // ---- Segments --------------------------------------------------------------------------------

  /** Three bytes as four letters. */
  function Group(b: seq<Byte>): (s: string)
    requires |b| == 3
    ensures |s| == 4
  {
    [Letter(b[0] / 4), Letter(b[0] % 4 * 16 + b[1] / 16), Letter(b[1] % 16 * 4 + b[2] / 64), Letter(b[2] % 64)]
  }

  function Ungroup(s: string): (b: seq<Byte>)
    requires |s| == 4 && Alphabetic(s)
    ensures |b| == 3
  {
    var v0, v1, v2, v3 := Value(s[0]).value, Value(s[1]).value, Value(s[2]).value, Value(s[3]).value;
    [v0 * 4 + v1 / 16, v1 % 16 * 16 + v2 / 4, v2 % 4 * 64 + v3]
  }

  /** A rest of one or two bytes as two or three letters. */
  function Tail(b: seq<Byte>): string
    requires 1 <= |b| <= 2
  {
    if |b| == 1 then [Letter(b[0] / 4), Letter(b[0] % 4 * 16)]
    else [Letter(b[0] / 4), Letter(b[0] % 4 * 16 + b[1] / 16), Letter(b[1] % 16 * 4)]
  }

  /** The bits beyond the last byte are dropped. */
  function Untail(s: string): (b: seq<Byte>)
    requires 2 <= |s| <= 3 && Alphabetic(s)
    ensures |b| == |s| - 1
  {
    var v0, v1 := Value(s[0]).value, Value(s[1]).value;
    if |s| == 2 then [v0 * 4 + v1 / 16] else [v0 * 4 + v1 / 16, v1 % 16 * 16 + Value(s[2]).value / 4]
  }

  /** `bytesToBase64Url`. */
  function EncodeBytes(b: seq<Byte>): string {
    if b == [] then [] else if |b| <= 2 then Tail(b) else Group(b[..3]) + EncodeBytes(b[3..])
  }

  /** `base64UrlToBytes`; one letter alone is no byte. */
  function DecodeLetters(s: string): Option<seq<Byte>>
    requires Alphabetic(s)
  {
    if s == [] then Some([])
    else if |s| == 1 then None
    else if |s| <= 3 then Some(Untail(s))
    else
      var rest := DecodeLetters(s[4..]);
      if rest.None? then None else Some(Ungroup(s[..4]) + rest.value)
  }

  /** The bits beyond the last byte are zero. */
  predicate PadBitsZero(s: string)
    requires Alphabetic(s)
  {
    && (|s| % 4 == 2 ==> Value(s[|s| - 1]).value % 16 == 0)
    && (|s| % 4 == 3 ==> Value(s[|s| - 1]).value % 4 == 0)
  }

  lemma BitsUp(b0: Byte, b1: Byte, b2: Byte)
    ensures b0 / 4 * 4 + (b0 % 4 * 16 + b1 / 16) / 16 == b0
    ensures (b0 % 4 * 16 + b1 / 16) % 16 * 16 + (b1 % 16 * 4 + b2 / 64) / 4 == b1
    ensures (b1 % 16 * 4 + b2 / 64) % 4 * 64 + b2 % 64 == b2
  {}

  lemma GroupThenUngroup(b: seq<Byte>)
    requires |b| == 3
    ensures Alphabetic(Group(b)) && Ungroup(Group(b)) == b
  {
    LetterValue(b[0] / 4);
    LetterValue(b[0] % 4 * 16 + b[1] / 16);
    LetterValue(b[1] % 16 * 4 + b[2] / 64);
    LetterValue(b[2] % 64);
    hide Value, Letter;
    BitsUp(b[0], b[1], b[2]);
  }

  lemma UngroupThenGroup(s: string)
    requires |s| == 4 && Alphabetic(s)
    ensures Group(Ungroup(s)) == s
  {
    ValueLetter(s[0]);
    ValueLetter(s[1]);
    ValueLetter(s[2]);
    ValueLetter(s[3]);
    hide Value, Letter;
    var v0, v1, v2, v3 := Value(s[0]).value, Value(s[1]).value, Value(s[2]).value, Value(s[3]).value;
    var b := Ungroup(s);
    assert b[0] / 4 == v0 && b[0] % 4 * 16 + b[1] / 16 == v1;
    assert b[1] % 16 * 4 + b[2] / 64 == v2 && b[2] % 64 == v3;
  }

  lemma TailThenUntail(b: seq<Byte>)
    requires 1 <= |b| <= 2
    ensures Alphabetic(Tail(b)) && Untail(Tail(b)) == b
  {
    LetterValue(b[0] / 4);
    if |b| == 1 {
      LetterValue(b[0] % 4 * 16);
    } else {
      LetterValue(b[0] % 4 * 16 + b[1] / 16);
      LetterValue(b[1] % 16 * 4);
    }
    hide Value, Letter;
  }

  lemma LettersAgree(v: Sextet, c: char)
    ensures Letter(v) == c <==> Value(c) == Some(v)
  {
    LetterValue(v);
    ValueLetter(c);
  }

  lemma UntailTwo(s: string)
    requires |s| == 2 && Alphabetic(s)
    ensures Tail(Untail(s)) == s <==> PadBitsZero(s)
  {
    var v0, v1 := Value(s[0]).value, Value(s[1]).value;
    var b := Untail(s);
    assert b[0] / 4 == v0 && b[0] % 4 * 16 == v1 - v1 % 16;
    LettersAgree(v0, s[0]);
    LettersAgree(b[0] % 4 * 16, s[1]);
    hide Value, Letter;
  }

  lemma UntailThree(s: string)
    requires |s| == 3 && Alphabetic(s)
    ensures Tail(Untail(s)) == s <==> PadBitsZero(s)
  {
    var v0, v1, v2 := Value(s[0]).value, Value(s[1]).value, Value(s[2]).value;
    var b := Untail(s);
    assert b[0] / 4 == v0 && b[0] % 4 * 16 + b[1] / 16 == v1 && b[1] % 16 * 4 == v2 - v2 % 4;
    LettersAgree(v0, s[0]);
    LettersAgree(v1, s[1]);
    LettersAgree(b[1] % 16 * 4, s[2]);
    hide Value, Letter;
  }

  lemma AlphabeticParts(a: string, b: string)
    ensures Alphabetic(a + b) <==> Alphabetic(a) && Alphabetic(b)
  {
    if Alphabetic(a + b) {
      assert forall i :: 0 <= i < |a| ==> a[i] == (a + b)[i];
      assert forall i :: 0 <= i < |b| ==> b[i] == (a + b)[|a| + i];
    }
  }

  /** Decoding inverts encoding. */
  lemma {:induction false} DecodeEncode(b: seq<Byte>)
    ensures Alphabetic(EncodeBytes(b)) && DecodeLetters(EncodeBytes(b)) == Some(b)
    ensures b != [] ==> EncodeBytes(b) != []
  {
    if |b| >= 3 {
      DecodeEncode(b[3..]);
      GroupThenUngroup(b[..3]);
      AlphabeticParts(Group(b[..3]), EncodeBytes(b[3..]));
      assert EncodeBytes(b)[..4] == Group(b[..3]) && EncodeBytes(b)[4..] == EncodeBytes(b[3..]);
      assert b == b[..3] + b[3..];
    } else if b != [] {
      TailThenUntail(b);
    }
  }

  lemma PadBitsOfRest(s: string)
    requires Alphabetic(s) && |s| >= 4 && Alphabetic(s[4..])
    ensures PadBitsZero(s) <==> PadBitsZero(s[4..])
  {
    hide Value;
    assert |s| > 4 ==> s[4..][|s| - 5] == s[|s| - 1];
  }

  lemma GroupRoundTrips(s: string)
    requires Alphabetic(s) && |s| >= 4 && Alphabetic(s[..4]) && Alphabetic(s[4..])
    ensures DecodeLetters(s).Some? <==> DecodeLetters(s[4..]).Some?
    ensures DecodeLetters(s).Some? ==> DecodeLetters(s).value != []
    ensures DecodeLetters(s).Some? ==>
      EncodeBytes(DecodeLetters(s).value) == s[..4] + EncodeBytes(DecodeLetters(s[4..]).value)
  {
    hide Value, Letter, Group, Ungroup, Tail, Untail;
    if DecodeLetters(s).Some? {
      var b := DecodeLetters(s).value;
      assert b[..3] == Ungroup(s[..4]) && b[3..] == DecodeLetters(s[4..]).value;
      UngroupThenGroup(s[..4]);
    }
  }

  lemma SamePrefix(a: string, b: string, c: string)
    ensures a + b == a + c <==> b == c
  {
    assert (a + b)[|a|..] == b && (a + c)[|a|..] == c;
  }

  /** The claim of EncodeDecode. */
  ghost predicate RoundTrips(s: string) {
    && Alphabetic(s)
    && (DecodeLetters(s).Some? <==> |s| % 4 != 1)
    && (DecodeLetters(s).Some? ==> (EncodeBytes(DecodeLetters(s).value) == s <==> PadBitsZero(s)))
    && (DecodeLetters(s).Some? && s != [] ==> DecodeLetters(s).value != [])
  }

  lemma LongRoundTrips(s: string)
    requires Alphabetic(s) && |s| >= 4 && Alphabetic(s[..4]) && RoundTrips(s[4..])
    ensures RoundTrips(s)
  {
    hide Value, Letter, EncodeBytes, DecodeLetters, PadBitsZero;
    PadBitsOfRest(s);
    GroupRoundTrips(s);
    if DecodeLetters(s).Some? {
      SamePrefix(s[..4], EncodeBytes(DecodeLetters(s[4..]).value), s[4..]);
    }
    assert s == s[..4] + s[4..];
  }

  /** A segment decodes unless one letter is left over, and what it decodes to encodes back to it exactly when its pad
      bits are zero. */
  lemma {:induction false} EncodeDecode(s: string)
    requires Alphabetic(s)
    ensures RoundTrips(s)
  {
    if |s| >= 4 {
      hide RoundTrips, Alphabetic;
      assert s == s[..4] + s[4..];
      AlphabeticParts(s[..4], s[4..]);
      EncodeDecode(s[4..]);
      LongRoundTrips(s);
    } else if |s| == 3 {
      UntailThree(s);
    } else if |s| == 2 {
      UntailTwo(s);
    }
  }

  // ---- Composite ids ---------------------------------------------------------------------------

  datatype Pair = Pair(hostId: seq<CodePoint>, rawId: seq<CodePoint>)

  function Joined(host: string, raw: string): string {
    "rh1." + host + "." + raw
  }

  /** `encodeCompositeId`; it demands that neither id is empty. */
  function EncodeCompositeId(p: Pair): string
    requires p.hostId != [] && p.rawId != []
  {
    Joined(EncodeBytes(Encode(p.hostId)), EncodeBytes(Encode(p.rawId)))
  }

  /** The segments of `rh1.<host>.<raw>`: letters up to the first dot, and letters to the end. */
  function Split(value: string): Option<(string, string)> {
    if |value| < 4 || value[..4] != "rh1." then None
    else
      var dot := FirstDot(value[4..]);
      var host := value[4..][..dot];
      if dot == |value| - 4 then None
      else
        var raw := value[4..][dot + 1..];
        if host == [] || raw == [] || !Alphabetic(host) || !Alphabetic(raw) then None else Some((host, raw))
  }

  function FirstDot(s: string): (i: nat)
    ensures i <= |s| && (forall j :: 0 <= j < i ==> s[j] != '.') && (i < |s| ==> s[i] == '.')
  {
    if s == [] || s[0] == '.' then 0 else 1 + FirstDot(s[1..])
  }

  /** `decodeCompositeId`. */
  function DecodeCompositeId(value: string): Option<Pair> {
    var parts := Split(value);
    if parts.None? then None
    else
      var host, raw := DecodeLetters(parts.value.0), DecodeLetters(parts.value.1);
      if host.None? || raw.None? then None
      else
        var p := Pair(DecodeText(host.value), DecodeText(raw.value));
        if p.hostId == [] || p.rawId == [] || EncodeCompositeId(p) != value then None else Some(p)
  }

  /** A canonical segment: letters, no single one left over, pad bits zero. */
  predicate Canonical(s: string) {
    s != [] && Alphabetic(s) && |s| % 4 != 1 && PadBitsZero(s)
  }

  lemma NoDots(s: string)
    requires Alphabetic(s)
    ensures forall i :: 0 <= i < |s| ==> s[i] != '.'
  {}

  lemma SplitJoined(host: string, raw: string)
    requires host != [] && raw != [] && Alphabetic(host) && Alphabetic(raw)
    ensures Split(Joined(host, raw)) == Some((host, raw))
  {
    hide Value;
    var value := Joined(host, raw);
    NoDots(host);
    assert value[..4] == "rh1." && value[4..] == host + "." + raw;
    var rest := value[4..];
    assert rest[|host|] == '.' && forall i :: 0 <= i < |host| ==> rest[i] == host[i];
    assert FirstDot(rest) == |host|;
    assert rest[..|host|] == host && rest[|host| + 1..] == raw;
  }

  /** The text of an id survives its UTF-8 form: it has no surrogate, and no leading byte order mark. */
  predicate Encodable(id: seq<CodePoint>) {
    id != [] && Scalars(id) && !Marked(id)
  }

  /** The letters of a segment: canonical, and the UTF-8 form of an encodable text. */
  ghost predicate Acceptable(segment: string) {
    Canonical(segment) && DecodeLetters(segment).Some?
      && exists id :: Encodable(id) && DecodeLetters(segment) == Some(Encode(id))
  }

  lemma EncodedSegment(id: seq<CodePoint>)
    requires id != []
    ensures var s := EncodeBytes(Encode(id)); s != [] && Canonical(s) && DecodeLetters(s) == Some(Encode(id))
  {
    EncodeLength(id);
    DecodeEncode(Encode(id));
    EncodeDecode(EncodeBytes(Encode(id)));
  }

  /** An id with a surrogate or a leading byte order mark has a composite id, but that decodes to something else, or not
      at all; every other pair of non-empty ids comes back. */
  lemma CompositeRoundTrip(p: Pair)
    requires p.hostId != [] && p.rawId != []
    ensures DecodeCompositeId(EncodeCompositeId(p)) == Some(p) <==> Encodable(p.hostId) && Encodable(p.rawId)
  {
    hide Value, EncodeBytes, DecodeLetters, Alphabetic, PadBitsZero, Split, Encode, Decode, DecodeText;
    EncodedSegment(p.hostId);
    EncodedSegment(p.rawId);
    SplitJoined(EncodeBytes(Encode(p.hostId)), EncodeBytes(Encode(p.rawId)));
    TextRoundTrip(p.hostId);
    TextRoundTrip(p.rawId);
  }

  lemma AcceptedSegments(value: string) returns (host: string, raw: string)
    requires DecodeCompositeId(value).Some?
    ensures Acceptable(host) && Acceptable(raw) && value == Joined(host, raw)
  {
    hide Value, EncodeBytes, DecodeLetters, Alphabetic, PadBitsZero, Split, Encode, Decode, DecodeText;
    var p := DecodeCompositeId(value).value;
    host, raw := EncodeBytes(Encode(p.hostId)), EncodeBytes(Encode(p.rawId));
    EncodedSegment(p.hostId);
    EncodedSegment(p.rawId);
    SplitJoined(host, raw);
    TextRoundTrip(p.hostId);
    TextRoundTrip(p.rawId);
  }

  lemma AcceptableAccepted(host: string, raw: string)
    requires Acceptable(host) && Acceptable(raw)
    ensures DecodeCompositeId(Joined(host, raw)).Some?
  {
    hide Value, EncodeBytes, DecodeLetters, Alphabetic, PadBitsZero, Split, Encode, Decode, DecodeText;
    var h :| Encodable(h) && DecodeLetters(host) == Some(Encode(h));
    var r :| Encodable(r) && DecodeLetters(raw) == Some(Encode(r));
    SplitJoined(host, raw);
    EncodeDecode(host);
    EncodeDecode(raw);
    TextRoundTrip(h);
    TextRoundTrip(r);
  }

  /** Exactly these ids are accepted: behind the prefix two canonical segments, each the UTF-8 form of a text that is
      not empty and does not begin with a byte order mark. */
  lemma AcceptedIffCanonical(value: string)
    ensures DecodeCompositeId(value).Some?
      <==> exists host, raw :: Acceptable(host) && Acceptable(raw) && value == Joined(host, raw)
  {
    hide Acceptable, DecodeCompositeId, Joined;
    if DecodeCompositeId(value).Some? {
      var host, raw := AcceptedSegments(value);
    }
    forall host, raw | Acceptable(host) && Acceptable(raw) && value == Joined(host, raw)
      ensures DecodeCompositeId(value).Some? {
      AcceptableAccepted(host, raw);
    }
  }

  /** An id is accepted as a pair exactly if it is the encoding of that pair and both of its texts are encodable:
      accepted ids and encodable pairs stand one for one. */
  lemma IdsArePairs(value: string, p: Pair)
    ensures DecodeCompositeId(value) == Some(p)
      <==> Encodable(p.hostId) && Encodable(p.rawId) && value == EncodeCompositeId(p)
  {
    hide Value, EncodeBytes, DecodeLetters, Alphabetic, PadBitsZero, Split, Encode, Decode, DecodeText, Scalars;
    if DecodeCompositeId(value) == Some(p) {
      assert p.hostId != [] && p.rawId != [] && value == EncodeCompositeId(p);
      CompositeRoundTrip(p);
    }
    if Encodable(p.hostId) && Encodable(p.rawId) && value == EncodeCompositeId(p) {
      CompositeRoundTrip(p);
    }
  }
}
