/** How composite ids are spelled: the letters by their position in the alphabet of section 5 of RFC 4648, six bits
    each, and the code points by the byte forms of section 3 of RFC 3629. */
module CompositeIdLaws {
  import opened Prelude
  import opened Unicode
  import opened CompositeId

  // ---- Letters ---------------------------------------------------------------------------------

  const UPPER := "ABCDEFGHIJKLMNOPQRSTUVWXYZ"
  const LOWER := "abcdefghijklmnopqrstuvwxyz"
  const OTHER := "0123456789-_"
  const ALPHABET := UPPER + LOWER + OTHER

  /** ALPHABET. Each letter stands for its position. */
  lemma LettersByPosition(v: int, c: char)
    ensures |ALPHABET| == 64
    ensures 0 <= v < 64 ==> Letter(v) == ALPHABET[v]
    ensures Value(c) == Some(v) <==> 0 <= v < 64 && c == ALPHABET[v]
  {
    if 0 <= v < 64 { LetterAt(v); }
    if Value(c) == Some(v) { ValueLetter(c); }
    if 0 <= v < 64 && c == ALPHABET[v] { LetterValue(v); }
  }

  lemma LetterAt(v: Sextet)
    ensures Letter(v) == ALPHABET[v]
  {
    if v < 26 {
      UpperAt(v);
    } else if v < 52 {
      LowerAt(v - 26);
    } else {
      assert ALPHABET[v] == OTHER[v - 52];
    }
  }

  lemma UpperAt(i: nat)
    requires i < 26
    ensures UPPER[i] == 'A' + i as char
  {
    assert i == 0 || i == 1 || i == 2 || i == 3 || i == 4 || i == 5 || i == 6 || i == 7 || i == 8 || i == 9
      || i == 10 || i == 11 || i == 12 || i == 13 || i == 14 || i == 15 || i == 16 || i == 17 || i == 18 || i == 19
      || i == 20 || i == 21 || i == 22 || i == 23 || i == 24 || i == 25;
  }

  lemma LowerAt(i: nat)
    requires i < 26
    ensures LOWER[i] == 'a' + i as char
  {
    assert i == 0 || i == 1 || i == 2 || i == 3 || i == 4 || i == 5 || i == 6 || i == 7 || i == 8 || i == 9
      || i == 10 || i == 11 || i == 12 || i == 13 || i == 14 || i == 15 || i == 16 || i == 17 || i == 18 || i == 19
      || i == 20 || i == 21 || i == 22 || i == 23 || i == 24 || i == 25;
  }

  // ---- Bits ------------------------------------------------------------------------------------

  /** The last `n` bits of a number, the most significant first. */
  function Bits(v: nat, n: nat): (s: seq<nat>)
    ensures |s| == n
  {
    if n == 0 then [] else Bits(v / 2, n - 1) + [v % 2]
  }

  function ByteBits(b: seq<Byte>): (s: seq<nat>)
    ensures |s| == 8 * |b|
  {
    if b == [] then [] else Bits(b[0], 8) + ByteBits(b[1..])
  }

  function LetterBits(s: string): (bits: seq<nat>)
    requires Alphabetic(s)
    ensures |bits| == 6 * |s|
  {
    if s == [] then [] else Bits(Value(s[0]).value, 6) + LetterBits(s[1..])
  }

  /** The letters' bits are the bytes' bits and fewer than six zeros. */
  ghost predicate Spells(s: string, b: seq<Byte>) {
    && Alphabetic(s) && 8 * |b| <= 6 * |s| < 8 * |b| + 6
    && LetterBits(s) == ByteBits(b) + Zeros(6 * |s| - 8 * |b|)
  }

  function Zeros(n: nat): seq<nat> {
    seq(n, i requires 0 <= i < n => 0)
  }

  /** SPELLED. The encoding of bytes is the one string of letters that spells them. */
  lemma Spelled(s: string, b: seq<Byte>)
    ensures Spells(s, b) <==> s == EncodeBytes(b)
  {
    EncodingSpells(b);
    if Spells(s, b) { SpellingIsOne(s, EncodeBytes(b), b); }
  }

  lemma SpellingIsOne(s: string, t: string, b: seq<Byte>)
    requires Spells(s, b) && Spells(t, b)
    ensures s == t
  {
    hide LetterBits, ByteBits, Zeros, Alphabetic;
    assert |s| == |t|;
    SameBits(s, t);
  }

  lemma {:induction false} SameBits(s: string, t: string)
    requires Alphabetic(s) && Alphabetic(t) && LetterBits(s) == LetterBits(t)
    ensures s == t
  {
    if s != [] && t != [] {
      var a, b := Value(s[0]).value, Value(t[0]).value;
      assert LetterBits(s)[..6] == Bits(a, 6) && LetterBits(t)[..6] == Bits(b, 6);
      assert LetterBits(s)[6..] == LetterBits(s[1..]) && LetterBits(t)[6..] == LetterBits(t[1..]);
      Powers();
      BitsTell(a, b, 6);
      ValueLetter(s[0]);
      ValueLetter(t[0]);
      SameBits(s[1..], t[1..]);
      assert s == [s[0]] + s[1..] && t == [t[0]] + t[1..];
    }
  }

  lemma {:induction false} BitsTell(a: nat, b: nat, n: nat)
    requires Bits(a, n) == Bits(b, n) && a < Power(n) && b < Power(n)
    ensures a == b
  {
    if n > 0 {
      assert Bits(a, n)[..n - 1] == Bits(a / 2, n - 1) && Bits(b, n)[..n - 1] == Bits(b / 2, n - 1);
      assert Bits(a, n)[n - 1] == a % 2 && Bits(b, n)[n - 1] == b % 2;
      BitsTell(a / 2, b / 2, n - 1);
    }
  }

  function Power(m: nat): (p: nat)
    ensures p >= 1
  {
    if m == 0 then 1 else 2 * Power(m - 1)
  }

  lemma HalfOf(x: nat, l: nat)
    ensures (2 * x + l) / 2 == x + l / 2 && (2 * x + l) % 2 == l % 2
  {}

  lemma {:induction false} BitsJoin(h: nat, l: nat, n: nat, m: nat)
    requires l < Power(m)
    ensures Bits(h * Power(m) + l, n + m) == Bits(h, n) + Bits(l, m)
  {
    if m > 0 {
      BitsJoin(h, l / 2, n, m - 1);
      JoinOne(h * Power(m - 1), l, n + m, m, Bits(h, n));
      PowerNext(h, m);
    }
  }

  lemma PowerNext(h: nat, m: nat)
    requires m > 0
    ensures h * Power(m) == 2 * (h * Power(m - 1))
  {}

  lemma JoinOne(x: nat, l: nat, k: nat, m: nat, front: seq<nat>)
    requires k >= m > 0 && Bits(x + l / 2, k - 1) == front + Bits(l / 2, m - 1)
    ensures Bits(2 * x + l, k) == front + Bits(l, m)
  {
    HalfOf(x, l);
    assert Bits(2 * x + l, k) == Bits(x + l / 2, k - 1) + [l % 2];
  }

  lemma {:induction false} NoBits(n: nat)
    ensures Bits(0, n) == Zeros(n)
  {
    if n > 0 { NoBits(n - 1); }
  }

  lemma Powers()
    ensures Power(2) == 4 && Power(4) == 16 && Power(6) == 64
  {
    assert Power(3) == 8 && Power(5) == 32;
  }

  /** A byte is two bits behind six, four behind four, six behind two. */
  lemma ByteSplits(b: Byte)
    ensures Bits(b, 8) == Bits(b / 4, 6) + Bits(b % 4, 2)
    ensures Bits(b, 8) == Bits(b / 16, 4) + Bits(b % 16, 4)
    ensures Bits(b, 8) == Bits(b / 64, 2) + Bits(b % 64, 6)
  {
    Powers();
    BitsJoin(b / 4, b % 4, 6, 2);
    BitsJoin(b / 16, b % 16, 4, 4);
    BitsJoin(b / 64, b % 64, 2, 6);
  }

  lemma LetterBitsOf(v: Sextet)
    ensures Alphabetic([Letter(v)]) && LetterBits([Letter(v)]) == Bits(v, 6)
  {
    LetterValue(v);
    assert LetterBits([]) == [];
    hide Bits, Value, Letter;
  }

  lemma {:induction false} LetterBitsAppend(a: string, b: string)
    requires Alphabetic(a) && Alphabetic(b) && Alphabetic(a + b)
    ensures LetterBits(a + b) == LetterBits(a) + LetterBits(b)
  {
    if a == [] {
      assert a + b == b;
    } else {
      LetterBitsAppend(a[1..], b);
      assert (a + b)[1..] == a[1..] + b;
    }
    hide Bits, Value;
  }

  lemma LettersJoin(s: string, bits: seq<nat>, v: Sextet)
    requires Alphabetic(s) && LetterBits(s) == bits
    ensures Alphabetic(s + [Letter(v)]) && LetterBits(s + [Letter(v)]) == bits + Bits(v, 6)
  {
    LetterBitsOf(v);
    AlphabeticParts(s, [Letter(v)]);
    LetterBitsAppend(s, [Letter(v)]);
  }

  lemma TwoLetters(v0: Sextet, v1: Sextet)
    ensures Alphabetic([Letter(v0), Letter(v1)])
    ensures LetterBits([Letter(v0), Letter(v1)]) == Bits(v0, 6) + Bits(v1, 6)
  {
    hide *;
    LetterBitsOf(v0);
    LettersJoin([Letter(v0)], Bits(v0, 6), v1);
    assert [Letter(v0)] + [Letter(v1)] == [Letter(v0), Letter(v1)];
  }

  lemma ThreeLetters(v0: Sextet, v1: Sextet, v2: Sextet)
    ensures Alphabetic([Letter(v0), Letter(v1), Letter(v2)])
    ensures LetterBits([Letter(v0), Letter(v1), Letter(v2)]) == Bits(v0, 6) + Bits(v1, 6) + Bits(v2, 6)
  {
    hide *;
    TwoLetters(v0, v1);
    LettersJoin([Letter(v0), Letter(v1)], Bits(v0, 6) + Bits(v1, 6), v2);
    assert [Letter(v0), Letter(v1)] + [Letter(v2)] == [Letter(v0), Letter(v1), Letter(v2)];
  }

  lemma FourLetters(v0: Sextet, v1: Sextet, v2: Sextet, v3: Sextet)
    ensures var s := [Letter(v0), Letter(v1), Letter(v2), Letter(v3)];
      Alphabetic(s) && LetterBits(s) == Bits(v0, 6) + Bits(v1, 6) + Bits(v2, 6) + Bits(v3, 6)
  {
    hide *;
    ThreeLetters(v0, v1, v2);
    LettersJoin([Letter(v0), Letter(v1), Letter(v2)], Bits(v0, 6) + Bits(v1, 6) + Bits(v2, 6), v3);
    assert [Letter(v0), Letter(v1), Letter(v2)] + [Letter(v3)] == [Letter(v0), Letter(v1), Letter(v2), Letter(v3)];
  }

  lemma FirstTwo(b0: Byte, b1: Byte)
    ensures Bits(b0 / 4, 6) + Bits(b0 % 4 * 16 + b1 / 16, 6) == Bits(b0, 8) + Bits(b1 / 16, 4)
  {
    hide *;
    ByteSplits(b0);
    Powers();
    BitsJoin(b0 % 4, b1 / 16, 2, 4);
  }

  lemma LastTwo(b1: Byte, b2: Byte)
    ensures Bits(b1 % 16 * 4 + b2 / 64, 6) + Bits(b2 % 64, 6) == Bits(b1 % 16, 4) + Bits(b2, 8)
  {
    hide *;
    ByteSplits(b2);
    Powers();
    BitsJoin(b1 % 16, b2 / 64, 4, 2);
  }

  lemma GroupSpells(b: seq<Byte>)
    requires |b| == 3
    ensures Alphabetic(Group(b)) && LetterBits(Group(b)) == Bits(b[0], 8) + Bits(b[1], 8) + Bits(b[2], 8)
  {
    hide Bits, LetterBits, Alphabetic, Letter, Value;
    var v0, v1, v2, v3 := b[0] / 4, b[0] % 4 * 16 + b[1] / 16, b[1] % 16 * 4 + b[2] / 64, b[2] % 64;
    FourLetters(v0, v1, v2, v3);
    FirstTwo(b[0], b[1]);
    LastTwo(b[1], b[2]);
    ByteSplits(b[1]);
    GroupedBits(Bits(v0, 6), Bits(v1, 6), Bits(v2, 6), Bits(v3, 6), Bits(b[0], 8), Bits(b[1] / 16, 4),
      Bits(b[1] % 16, 4), Bits(b[2], 8));
  }

  lemma GroupedBits(w: seq<nat>, x: seq<nat>, y: seq<nat>, z: seq<nat>, a: seq<nat>, h: seq<nat>, l: seq<nat>,
      c: seq<nat>)
    requires w + x == a + h && y + z == l + c
    ensures w + x + y + z == a + (h + l) + c
  {
    assert w + x + y + z == (w + x) + (y + z);
  }

  lemma ByteBitsOfOne(b: seq<Byte>)
    requires |b| == 1
    ensures ByteBits(b) == Bits(b[0], 8)
  {
    assert ByteBits([]) == [];
    hide Bits;
  }

  lemma OneSpells(b: seq<Byte>)
    requires |b| == 1
    ensures Spells(Tail(b), b)
  {
    hide Bits, LetterBits, Alphabetic, Letter, Value, ByteBits, Zeros;
    TwoLetters(b[0] / 4, b[0] % 4 * 16);
    FirstTwo(b[0], 0);
    NoBits(4);
    ByteBitsOfOne(b);
  }

  lemma TwoSpell(b: seq<Byte>)
    requires |b| == 2
    ensures Spells(Tail(b), b)
  {
    hide Bits, LetterBits, Alphabetic, Letter, Value, ByteBits, Zeros;
    var v0, v1, v2 := b[0] / 4, b[0] % 4 * 16 + b[1] / 16, b[1] % 16 * 4;
    ThreeLetters(v0, v1, v2);
    FirstTwo(b[0], b[1]);
    LastTwo(b[1], 0);
    ByteSplits(b[1]);
    ByteBitsOfTwo(b);
    LastBits(b[1] % 16);
    GroupedBits(Bits(v0, 6), Bits(v1, 6), Bits(v2, 6), [], Bits(b[0], 8), Bits(b[1] / 16, 4), Bits(b[1] % 16, 4),
      Zeros(2));
  }

  lemma LastBits(l: nat)
    requires l < 16
    ensures Bits(l * 4, 6) + [] == Bits(l, 4) + Zeros(2)
  {
    Powers();
    BitsJoin(l, 0, 4, 2);
    NoBits(2);
  }

  lemma ByteBitsOfTwo(b: seq<Byte>)
    requires |b| == 2
    ensures ByteBits(b) == Bits(b[0], 8) + Bits(b[1], 8)
  {
    hide Bits;
    ByteBitsOfOne(b[1..]);
  }

  lemma ByteBitsOfThree(b: seq<Byte>)
    requires |b| >= 3
    ensures ByteBits(b) == Bits(b[0], 8) + Bits(b[1], 8) + Bits(b[2], 8) + ByteBits(b[3..])
  {
    hide Bits, ByteBits;
    ByteBitsNext(b);
    ByteBitsNext(b[1..]);
    ByteBitsNext(b[2..]);
    assert b[1..][1..] == b[2..] && b[2..][1..] == b[3..];
  }

  lemma ByteBitsNext(b: seq<Byte>)
    requires b != []
    ensures ByteBits(b) == Bits(b[0], 8) + ByteBits(b[1..])
  {
    hide Bits;
  }

  lemma {:induction false} EncodingSpells(b: seq<Byte>)
    ensures Spells(EncodeBytes(b), b)
  {
    if |b| >= 3 {
      var rest := EncodeBytes(b[3..]);
      EncodingSpells(b[3..]);
      GroupSpells(b[..3]);
      ByteBitsOfThree(b);
      hide Bits, Value, Letter, Group, ByteBits, LetterBits, Alphabetic;
      AlphabeticParts(Group(b[..3]), rest);
      LetterBitsAppend(Group(b[..3]), rest);
    } else if |b| == 2 {
      TwoSpell(b);
    } else if |b| == 1 {
      OneSpells(b);
    }
  }

  // ---- Ids -------------------------------------------------------------------------------------

  ghost predicate SpellsText(s: string, text: seq<CodePoint>) {
    Spells(s, Encode(text))
  }

  /** IDS. A pair's composite id: `rh1`, the host id and the raw id, each spelled out, between dots. */
  lemma IdIsSpelled(value: string, p: Pair)
    requires p.hostId != [] && p.rawId != []
    ensures value == EncodeCompositeId(p) <==>
            exists host, raw :: value == "rh1." + host + "." + raw && SpellsText(host, p.hostId)
                                && SpellsText(raw, p.rawId)
  {
    var h, r := EncodeBytes(Encode(p.hostId)), EncodeBytes(Encode(p.rawId));
    Spelled(h, Encode(p.hostId));
    Spelled(r, Encode(p.rawId));
    assert SpellsText(h, p.hostId) && SpellsText(r, p.rawId);
    forall host, raw | value == "rh1." + host + "." + raw && SpellsText(host, p.hostId) && SpellsText(raw, p.rawId)
      ensures value == EncodeCompositeId(p)
    {
      Spelled(host, Encode(p.hostId));
      Spelled(raw, Encode(p.rawId));
    }
    hide Spells, EncodeBytes, Encode;
  }

  // ---- Bytes -----------------------------------------------------------------------------------

  predicate Continuing(b: int) {
    0x80 <= b < 0xC0
  }

  /** UTF-8. The bytes of a code point, by the table of section 3 of RFC 3629; a surrogate is written as U+FFFD. */
  lemma ByteForms(c: CodePoint)
    ensures var b: seq<int> := Utf8(c);
      if c <= 0x7F then b == [c]
      else if c <= 0x7FF then
        |b| == 2 && 0xC0 <= b[0] < 0xE0 && Continuing(b[1]) && c == (b[0] - 0xC0) * 64 + (b[1] - 0x80)
      else if 0xD800 <= c <= 0xDFFF then b == Utf8(0xFFFD)
      else if c <= 0xFFFF then
        && |b| == 3 && 0xE0 <= b[0] < 0xF0 && Continuing(b[1]) && Continuing(b[2])
        && c == (b[0] - 0xE0) * 4096 + (b[1] - 0x80) * 64 + (b[2] - 0x80)
      else
        && |b| == 4 && 0xF0 <= b[0] < 0xF8 && Continuing(b[1]) && Continuing(b[2]) && Continuing(b[3])
        && c == (b[0] - 0xF0) * 262144 + (b[1] - 0x80) * 4096 + (b[2] - 0x80) * 64 + (b[3] - 0x80)
  {
    assert c / 64 / 64 == c / 4096 && c / 64 / 64 / 64 == c / 262144;
  }
}
