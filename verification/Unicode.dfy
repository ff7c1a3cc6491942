/** Text as code points and its UTF-8 form, section 3 of RFC 3629, with the replacements that TextEncoder and
    TextDecoder make. */
module Unicode {
  type CodePoint = c: int | 0 <= c < 0x110000
  type Byte = b: int | 0 <= b < 256

  predicate Surrogate(c: CodePoint) {
    0xD800 <= c < 0xE000
  }

  /** The UTF-8 form of a code point, section 3 of RFC 3629; an unpaired surrogate is sent as the replacement
      character. */
  function Utf8(c: CodePoint): (b: seq<Byte>)
    ensures 1 <= |b| <= 4
  {
    if c < 0x80 then [c]
    else if c < 0x800 then [0xC0 + c / 64, 0x80 + c % 64]
    else if Surrogate(c) then [0xEF, 0xBF, 0xBD]
    else if c < 0x10000 then [0xE0 + c / 4096, 0x80 + c / 64 % 64, 0x80 + c % 64]
    else [0xF0 + c / 262144, 0x80 + c / 4096 % 64, 0x80 + c / 64 % 64, 0x80 + c % 64]
  }

  function Encode(text: seq<CodePoint>): seq<Byte> {
    if text == [] then [] else Utf8(text[0]) + Encode(text[1..])
  }

  /** `Buffer.byteLength` of one code point. */
  function Width(c: CodePoint): (w: nat)
    ensures w == |Utf8(c)|
  {
    if c < 0x80 then 1 else if c < 0x800 then 2 else if c < 0x10000 then 3 else 4
  }

  function Bytes(text: seq<CodePoint>): nat {
    if text == [] then 0 else Width(text[0]) + Bytes(text[1..])
  }

  lemma {:induction false} EncodeAppend(a: seq<CodePoint>, b: seq<CodePoint>)
    ensures Encode(a + b) == Encode(a) + Encode(b) && Bytes(a + b) == Bytes(a) + Bytes(b)
  {
    if a == [] {
      assert a + b == b;
    } else {
      assert (a + b)[1..] == a[1..] + b;
      EncodeAppend(a[1..], b);
    }
  }

  lemma {:induction false} EncodeLength(text: seq<CodePoint>)
    ensures |Encode(text)| == Bytes(text) >= |text|
  {
    if text != [] { EncodeLength(text[1..]); }
  }

  // ---- Decoding --------------------------------------------------------------------------------

  const REPLACEMENT: CodePoint := 0xFFFD
  const BYTE_ORDER_MARK: CodePoint := 0xFEFF

  /** The byte at `i` continues a sequence. */
  predicate Continues(b: seq<Byte>, i: nat) {
    i < |b| && 0x80 <= b[i] < 0xC0
  }

  /** The second byte continues the sequence without making it overlong, a surrogate, or too large. */
  predicate SecondContinues(b: seq<Byte>)
    requires b != []
  {
    && Continues(b, 1) && (b[0] == 0xE0 ==> b[1] >= 0xA0) && (b[0] == 0xED ==> b[1] < 0xA0)
    && (b[0] == 0xF0 ==> b[1] >= 0x90) && (b[0] == 0xF4 ==> b[1] < 0x90)
  }

  /** Six more bits from a continuing byte. */
  function Six(high: int, b: int): int {
    high * 64 + b - 0x80
  }

  /** The first code point, and how many bytes it took; a malformed sequence is replaced up to where it goes wrong. */
  function Pull(b: seq<Byte>): (r: (nat, CodePoint))
    requires b != []
    ensures 1 <= r.0 <= |b| && !Surrogate(r.1)
  {
    if b[0] < 0x80 then (1, b[0])
    else if !(0xC2 <= b[0] < 0xF5) || !SecondContinues(b) then (1, REPLACEMENT)
    else if b[0] < 0xE0 then (2, Six(b[0] - 0xC0, b[1]))
    else if !Continues(b, 2) then (2, REPLACEMENT)
    else if b[0] < 0xF0 then (3, Six(Six(b[0] - 0xE0, b[1]), b[2]))
    else if !Continues(b, 3) then (3, REPLACEMENT)
    else (4, Six(Six(Six(b[0] - 0xF0, b[1]), b[2]), b[3]))
  }

  function Decode(b: seq<Byte>): seq<CodePoint> {
    if b == [] then [] else [Pull(b).1] + Decode(b[Pull(b).0..])
  }

  /** `TextDecoder.decode`: a leading byte order mark is dropped. */
  function DecodeText(b: seq<Byte>): seq<CodePoint> {
    var text := Decode(b);
    if text != [] && text[0] == BYTE_ORDER_MARK then text[1..] else text
  }

  /** Without surrogates, so every code point has a UTF-8 form of its own. */
  predicate Scalars(text: seq<CodePoint>) {
    forall i :: 0 <= i < |text| ==> !Surrogate(text[i])
  }

  predicate Marked(text: seq<CodePoint>) {
    text != [] && text[0] == BYTE_ORDER_MARK
  }

  lemma SixBits(c: nat)
    ensures Six(c / 64, 0x80 + c % 64) == c
  {}

  lemma PullUtf8(c: CodePoint, rest: seq<Byte>)
    ensures Pull(Utf8(c) + rest) == (|Utf8(c)|, if Surrogate(c) then REPLACEMENT else c)
  {
    var u, b := Utf8(c), Utf8(c) + rest;
    assert b[0] == u[0] && (|u| > 1 ==> b[1] == u[1]) && (|u| > 2 ==> b[2] == u[2]) && (|u| > 3 ==> b[3] == u[3]);
    SixBits(c);
    SixBits(c / 64);
    SixBits(c / 64 / 64);
    assert c / 4096 == c / 64 / 64 && c / 262144 == c / 64 / 64 / 64;
    hide Six;
  }

  /** What a text becomes on its way through bytes: each surrogate is replaced. */
  function Replaced(text: seq<CodePoint>): (r: seq<CodePoint>)
    ensures |r| == |text| && (Scalars(text) <==> r == text)
  {
    seq(|text|, i requires 0 <= i < |text| => if Surrogate(text[i]) then REPLACEMENT else text[i])
  }

  lemma DecodeFirst(first: seq<Byte>, rest: seq<Byte>, c: CodePoint)
    requires first != [] && Pull(first + rest) == (|first|, c)
    ensures Decode(first + rest) == [c] + Decode(rest)
  {
    hide Pull;
    assert (first + rest)[|first|..] == rest;
  }

  lemma {:induction false} DecodeOfEncode(text: seq<CodePoint>)
    ensures Decode(Encode(text)) == Replaced(text)
  {
    if text != [] {
      var c, rest := text[0], Encode(text[1..]);
      PullUtf8(c, rest);
      DecodeOfEncode(text[1..]);
      DecodeFirst(Utf8(c), rest, if Surrogate(c) then REPLACEMENT else c);
      hide Utf8, Pull, Decode;
      assert Replaced(text) == [if Surrogate(c) then REPLACEMENT else c] + Replaced(text[1..]);
    }
  }

  lemma {:induction false} DecodeScalars(b: seq<Byte>)
    ensures Scalars(Decode(b)) && (b != [] ==> Decode(b) != [])
    decreases |b|
  {
    if b != [] { DecodeScalars(b[Pull(b).0..]); }
  }

  /** Text survives the way through bytes exactly if it has no surrogate and no leading byte order mark. */
  lemma TextRoundTrip(text: seq<CodePoint>)
    ensures DecodeText(Encode(text)) == text <==> Scalars(text) && !Marked(text)
  {
    DecodeOfEncode(text);
    if Marked(text) {
      assert Replaced(text)[0] == BYTE_ORDER_MARK;
      assert |DecodeText(Encode(text))| == |text| - 1;
    }
  }

  /** The bytes are the UTF-8 form of a text without a leading byte order mark. */
  ghost predicate PlainUtf8(b: seq<Byte>) {
    exists text :: Scalars(text) && !Marked(text) && b == Encode(text)
  }

  /** Bytes survive the way through text exactly if they are such a form. */
  lemma BytesRoundTrip(b: seq<Byte>)
    ensures Encode(DecodeText(b)) == b <==> PlainUtf8(b)
  {
    var text := DecodeText(b);
    DecodeScalars(b);
    if Encode(text) == b {
      TextRoundTrip(text);
    }
    if t :| Scalars(t) && !Marked(t) && b == Encode(t) {
      TextRoundTrip(t);
    }
  }
}
