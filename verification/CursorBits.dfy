/** The cursor text bit by bit: it spells the bits of its bytes, six to a character, in the URL-safe
    alphabet of section 5 of RFC 4648 (plugins/local_project_input_store.py:34-57). */
module CursorBits {
  import opened CursorCodec
  import opened Common

  const UPPER := "ABCDEFGHIJKLMNOPQRSTUVWXYZ"
  const LOWER := "abcdefghijklmnopqrstuvwxyz"
  const FIGURES := "0123456789"

  /** The character for a value, from the table. */
  function Letter(n: Sextet): char {
    if n < 26 then UPPER[n]
    else if n < 52 then LOWER[n - 26]
    else if n < 62 then FIGURES[n - 52]
    else if n == 62 then '-'
    else '_'
  }

  /** The character stands for the value; the decoder also takes the two of the plain alphabet. */
  predicate Spells(c: char, n: Sextet) { c == Letter(n) || (n == 62 && c == '+') || (n == 63 && c == '/') }

  lemma UpperTable(i: int)
    requires 0 <= i < 26
    ensures UPPER[i] == 'A' + i as char
  {
  }

  lemma LowerTable(i: int)
    requires 0 <= i < 26
    ensures LOWER[i] == 'a' + i as char
  {
  }

  lemma FigureTable(i: int)
    requires 0 <= i < 10
    ensures FIGURES[i] == '0' + i as char
  {
  }

  lemma DigitIsLetter(n: Sextet)
    ensures Digit(n) == Letter(n)
  {
    if n < 26 {
      UpperTable(n);
    } else if n < 52 {
      LowerTable(n - 26);
    } else if n < 62 {
      FigureTable(n - 52);
    }
  }

  lemma ValueExactly(c: char, n: Sextet)
    ensures Value(c) == Some(n) <==> Spells(c, n)
  {
    DigitIsLetter(n);
    DigitValue(n);
    if Value(c) == Some(n) && n < 62 { assert c == Digit(n); }
  }

  // ---------------------------------------------------------------- groups of 24 bits

  /** Byte `i`, and zero past the end. */
  function ByteAt(bytes: seq<Byte>, i: int): int { if 0 <= i < |bytes| then bytes[i] else 0 }

  function SextetAt(sextets: seq<Sextet>, i: int): int { if 0 <= i < |sextets| then sextets[i] else 0 }

  /** Three bytes as one number of 24 bits, and four sextets as one. */
  function ByteGroup(bytes: seq<Byte>, k: int): int {
    ByteAt(bytes, 3 * k) * 0x1_0000 + ByteAt(bytes, 3 * k + 1) * 0x100 + ByteAt(bytes, 3 * k + 2)
  }

  function SextetGroup(sextets: seq<Sextet>, k: int): int {
    SextetAt(sextets, 4 * k) * 0x4_0000 + SextetAt(sextets, 4 * k + 1) * 0x1000
    + SextetAt(sextets, 4 * k + 2) * 0x40 + SextetAt(sextets, 4 * k + 3)
  }

  /** The sextets hold the bits of the bytes, filled up with zeros. */
  ghost predicate Holds(bytes: seq<Byte>, sextets: seq<Sextet>) {
    |sextets| == (8 * |bytes| + 5) / 6 && forall k :: 0 <= k ==> ByteGroup(bytes, k) == SextetGroup(sextets, k)
  }

  /** The bytes hold the bits of the sextets, without those left over. */
  ghost predicate Carries(sextets: seq<Sextet>, bytes: seq<Byte>) {
    && |bytes| == 6 * |sextets| / 8
    && forall k :: 0 <= k ==>
         0 <= SextetGroup(sextets, k) - ByteGroup(bytes, k) < Unit(|bytes| - 3 * k)
  }

  /** The weight of the last of `n` bytes in a group. */
  function Unit(n: int): int { if n == 1 then 0x1_0000 else if n == 2 then 0x100 else 1 }

  ghost predicate SpellsOut(text: string, sextets: seq<Sextet>) {
    |text| == |sextets| && forall i :: 0 <= i < |text| ==> text[i] == Letter(sextets[i])
  }

  ghost predicate Reads(text: string, sextets: seq<Sextet>) {
    |text| == |sextets| && forall i :: 0 <= i < |text| ==> Spells(text[i], sextets[i])
  }

  // ---------------------------------------------------------------- encoding

  function GroupOf(a: Byte, b: Byte, c: Byte): seq<Sextet> {
    [a / 4, a % 4 * 16 + b / 16, b % 16 * 4 + c / 64, c % 64]
  }

  function SextetsOf(bytes: seq<Byte>): seq<Sextet> {
    if |bytes| == 0 then []
    else if |bytes| == 1 then GroupOf(bytes[0], 0, 0)[..2]
    else if |bytes| == 2 then GroupOf(bytes[0], bytes[1], 0)[..3]
    else GroupOf(bytes[0], bytes[1], bytes[2]) + SextetsOf(bytes[3..])
  }

  lemma GroupNumber(a: Byte, b: Byte, c: Byte)
    ensures var g := GroupOf(a, b, c);
            a as int * 0x1_0000 + b as int * 0x100 + c as int
            == g[0] as int * 0x4_0000 + g[1] as int * 0x1000 + g[2] as int * 0x40 + g[3] as int
  {
  }

  lemma NextGroup(bytes: seq<Byte>, sextets: seq<Sextet>, k: int)
    requires k >= 1
    ensures |bytes| >= 3 ==> ByteGroup(bytes, k) == ByteGroup(bytes[3..], k - 1)
    ensures |sextets| >= 4 ==> SextetGroup(sextets, k) == SextetGroup(sextets[4..], k - 1)
  {
  }

  lemma PastEnd(bytes: seq<Byte>, sextets: seq<Sextet>, k: int)
    requires k >= 0
    ensures |bytes| <= 3 * k ==> ByteGroup(bytes, k) == 0
    ensures |sextets| <= 4 * k ==> SextetGroup(sextets, k) == 0
  {
  }

  lemma {:induction false} SextetsHold(bytes: seq<Byte>)
    ensures Holds(bytes, SextetsOf(bytes))
  {
    var sextets := SextetsOf(bytes);
    if |bytes| < 3 {
      GroupNumber(ByteAt(bytes, 0), ByteAt(bytes, 1), 0);
      forall k | 0 <= k ensures ByteGroup(bytes, k) == SextetGroup(sextets, k) {
        if k >= 1 { PastEnd(bytes, sextets, k); }
      }
    } else {
      SextetsHold(bytes[3..]);
      GroupNumber(bytes[0], bytes[1], bytes[2]);
      assert sextets[4..] == SextetsOf(bytes[3..]);
      forall k | 0 <= k ensures ByteGroup(bytes, k) == SextetGroup(sextets, k) {
        if k >= 1 { NextGroup(bytes, sextets, k); }
      }
    }
  }

  function Spelling(sextets: seq<Sextet>): string {
    seq(|sextets|, i requires 0 <= i < |sextets| => Digit(sextets[i]))
  }

  lemma SpellingAppends(a: seq<Sextet>, b: seq<Sextet>)
    ensures Spelling(a + b) == Spelling(a) + Spelling(b)
  {
  }

  lemma OneFilled(a: Byte)
    ensures PaddedOut([Digit(a / 4), Digit(a % 4 * 16), '=', '='], GroupOf(a, 0, 0)[..2])
  {
    assert Spelling(GroupOf(a, 0, 0)[..2]) == [Digit(a / 4), Digit(a % 4 * 16)] && Pads(2) == ['=', '='];
  }

  lemma TwoFilled(a: Byte, b: Byte)
    ensures PaddedOut([Digit(a / 4), Digit(a % 4 * 16 + b / 16), Digit(b % 16 * 4), '='], GroupOf(a, b, 0)[..3])
  {
    assert Spelling(GroupOf(a, b, 0)[..3]) == [Digit(a / 4), Digit(a % 4 * 16 + b / 16), Digit(b % 16 * 4)];
    assert Pads(1) == ['='];
  }

  lemma OneEncoded(bytes: seq<Byte>)
    requires |bytes| == 1
    ensures Encoded(bytes) == [Digit(bytes[0] / 4), Digit(bytes[0] % 4 * 16), '=', '=']
    ensures SextetsOf(bytes) == GroupOf(bytes[0], 0, 0)[..2]
  {
  }

  lemma TwoEncoded(bytes: seq<Byte>)
    requires |bytes| == 2
    ensures Encoded(bytes)
         == [Digit(bytes[0] / 4), Digit(bytes[0] % 4 * 16 + bytes[1] / 16), Digit(bytes[1] % 16 * 4), '=']
    ensures SextetsOf(bytes) == GroupOf(bytes[0], bytes[1], 0)[..3]
  {
  }

  lemma NoneSpells(bytes: seq<Byte>)
    requires |bytes| == 0
    ensures PaddedOut(Encoded(bytes), SextetsOf(bytes))
  {
    assert Encoded(bytes) == "" && SextetsOf(bytes) == [] && Pads(0) == "";
  }

  lemma OneSpells(bytes: seq<Byte>)
    requires |bytes| == 1
    ensures PaddedOut(Encoded(bytes), SextetsOf(bytes))
  {
    OneEncoded(bytes);
    OneFilled(bytes[0]);
  }

  lemma TwoSpell(bytes: seq<Byte>)
    requires |bytes| == 2
    ensures PaddedOut(Encoded(bytes), SextetsOf(bytes))
  {
    TwoEncoded(bytes);
    TwoFilled(bytes[0], bytes[1]);
  }

  lemma ShortSpells(bytes: seq<Byte>)
    requires |bytes| < 3
    ensures PaddedOut(Encoded(bytes), SextetsOf(bytes))
  {
    if |bytes| == 0 {
      NoneSpells(bytes);
    } else if |bytes| == 1 {
      OneSpells(bytes);
    } else {
      TwoSpell(bytes);
    }
  }

  lemma GroupSpells(a: Byte, b: Byte, c: Byte)
    ensures Group(a, b, c) == Spelling(GroupOf(a, b, c))
  {
  }

  lemma FourMore(n: int)
    ensures (-(n + 4)) % 4 == (-n) % 4
  {
  }

  lemma InFront(a: string, b: string, c: string)
    ensures a + (b + c) == (a + b) + c
  {
  }

  /** A whole group in front leaves the padding as it is. */
  lemma GroupInFront(g: seq<Sextet>, rest: seq<Sextet>, text: string)
    requires |g| == 4 && PaddedOut(text, rest)
    ensures PaddedOut(Spelling(g) + text, g + rest)
  {
    FourMore(|rest|);
    SpellingAppends(g, rest);
    InFront(Spelling(g), Spelling(rest), Pads((-|rest|) % 4));
  }

  ghost predicate PaddedOut(text: string, sextets: seq<Sextet>) {
    text == Spelling(sextets) + Pads((-|sextets|) % 4)
  }

  lemma {:induction false} EncodedSpells(bytes: seq<Byte>)
    ensures PaddedOut(Encoded(bytes), SextetsOf(bytes))
  {
    if |bytes| < 3 {
      ShortSpells(bytes);
    } else {
      EncodedSpells(bytes[3..]);
      LongSpells(bytes[0], bytes[1], bytes[2], Encoded(bytes[3..]), SextetsOf(bytes[3..]));
      EncodedGroup(bytes);
    }
  }

  lemma LongSpells(a: Byte, b: Byte, c: Byte, text: string, rest: seq<Sextet>)
    requires PaddedOut(text, rest)
    ensures PaddedOut(Group(a, b, c) + text, GroupOf(a, b, c) + rest)
  {
    GroupSpells(a, b, c);
    GroupInFront(GroupOf(a, b, c), rest, text);
  }

  /** The cursor text spells the bits of its bytes in the alphabet, and nothing else. */
  lemma EncodeTells(bytes: seq<Byte>) returns (sextets: seq<Sextet>)
    ensures Holds(bytes, sextets) && SpellsOut(EncodeText(bytes), sextets)
  {
    sextets := SextetsOf(bytes);
    SextetsHold(bytes);
    EncodedSpells(bytes);
    var body := Spelling(sextets);
    if body != "" { DigitIsLetter(sextets[|body| - 1]); }
    StrippedPads(body, (-|sextets|) % 4);
    forall i | 0 <= i < |body| ensures body[i] == Letter(sextets[i]) { DigitIsLetter(sextets[i]); }
  }

  // ---------------------------------------------------------------- decoding

  function First(a: Sextet, b: Sextet): Byte { a as int * 4 + b as int / 16 }

  function Second(b: Sextet, c: Sextet): Byte { b as int % 16 * 16 + c as int / 4 }

  function Third(c: Sextet, d: Sextet): Byte { c as int % 4 * 64 + d as int }

  function BytesOf(s: seq<Sextet>): seq<Byte> {
    if |s| < 2 then []
    else if |s| == 2 then [First(s[0], s[1])]
    else if |s| == 3 then [First(s[0], s[1]), Second(s[1], s[2])]
    else [First(s[0], s[1]), Second(s[1], s[2]), Third(s[2], s[3])] + BytesOf(s[4..])
  }

  lemma ShortCarries(s: seq<Sextet>)
    requires |s| < 4 && |s| != 1
    ensures |BytesOf(s)| == 6 * |s| / 8
    ensures 0 <= SextetGroup(s, 0) - ByteGroup(BytesOf(s), 0) < Unit(|BytesOf(s)|)
  {
  }

  lemma {:induction false} BytesCarry(s: seq<Sextet>)
    requires |s| % 4 != 1
    ensures Carries(s, BytesOf(s))
  {
    var bytes := BytesOf(s);
    if |s| < 4 {
      ShortCarries(s);
      forall k | 0 <= k ensures 0 <= SextetGroup(s, k) - ByteGroup(bytes, k) < Unit(|bytes| - 3 * k) {
        if k >= 1 { PastEnd(bytes, s, k); }
      }
    } else {
      BytesCarry(s[4..]);
      assert bytes[3..] == BytesOf(s[4..]);
      forall k | 0 <= k ensures 0 <= SextetGroup(s, k) - ByteGroup(bytes, k) < Unit(|bytes| - 3 * k) {
        if k >= 1 { NextGroup(bytes, s, k); }
      }
    }
  }

  lemma PaddedRest(text: string)
    requires |text| >= 4
    ensures |Padded(text)| >= 4 && Padded(text)[4..] == Padded(text[4..])
    ensures var p := Padded(text);
            p[0] == text[0] && p[1] == text[1] && p[2] == text[2] && p[3] == text[3]
  {
    assert (-|text|) % 4 == (-|text[4..]|) % 4;
  }

  /** The two shapes of a last group. */
  lemma LastDecodes(p: string)
    requires |p| == 4 && p[3] == '='
    ensures p[2] == '=' ==>
              Decoded(p) == if Value(p[0]).Some? && Value(p[1]).Some?
                            then Some([First(Value(p[0]).value, Value(p[1]).value)])
                            else None
    ensures p[2] != '=' ==>
              Decoded(p) == if Value(p[0]).Some? && Value(p[1]).Some? && Value(p[2]).Some?
                            then Some([First(Value(p[0]).value, Value(p[1]).value),
                                       Second(Value(p[1]).value, Value(p[2]).value)])
                            else None
  {
  }

  lemma ShortPadded(text: string)
    requires 2 <= |text| < 4
    ensures var p := Padded(text);
            |p| == 4 && p[3] == '=' && p[..|text|] == text && (|text| == 2 ==> p[2] == '=')
  {
    assert |Padded(text)| == 4;
  }

  lemma ShortDecodes(text: string, s: seq<Sextet>)
    requires Reads(text, s) && 2 <= |s| < 4 && '=' !in text
    ensures DecodeText(text) == Some(BytesOf(s))
  {
    forall i | 0 <= i < |s| ensures Value(text[i]) == Some(s[i]) { ValueExactly(text[i], s[i]); }
    ShortPadded(text);
    var p := Padded(text);
    assert forall i :: 0 <= i < |text| ==> p[i] == text[i];
    LastDecodes(p);
  }

  lemma FourDecode(p: string, a: Sextet, b: Sextet, c: Sextet, d: Sextet, rest: seq<Byte>)
    requires |p| >= 4 && Decoded(p[4..]) == Some(rest)
    requires Value(p[0]) == Some(a) && Value(p[1]) == Some(b) && Value(p[2]) == Some(c) && Value(p[3]) == Some(d)
    ensures Decoded(p) == Some([First(a, b), Second(b, c), Third(c, d)] + rest)
  {
    DecodedFour(p, a, b, c, d, rest);
    assert First(a, b) == a as int * 4 + b as int / 16;
  }

  lemma FourBytes(s: seq<Sextet>)
    requires |s| >= 4
    ensures BytesOf(s) == [First(s[0], s[1]), Second(s[1], s[2]), Third(s[2], s[3])] + BytesOf(s[4..])
  {
  }

  lemma FourValues(text: string, s: seq<Sextet>)
    requires Reads(text, s) && |s| >= 4
    ensures Value(text[0]) == Some(s[0]) && Value(text[1]) == Some(s[1]) && Value(text[2]) == Some(s[2])
            && Value(text[3]) == Some(s[3])
  {
    ValueExactly(text[0], s[0]);
    ValueExactly(text[1], s[1]);
    ValueExactly(text[2], s[2]);
    ValueExactly(text[3], s[3]);
  }

  lemma FourRead(text: string, s: seq<Sextet>)
    requires Reads(text, s) && |s| >= 4 && Decoded(Padded(text[4..])) == Some(BytesOf(s[4..]))
    ensures Decoded(Padded(text)) == Some(BytesOf(s))
  {
    PaddedRest(text);
    FourValues(text, s);
    FourDecode(Padded(text), s[0], s[1], s[2], s[3], BytesOf(s[4..]));
    FourBytes(s);
  }

  /** Text over the two alphabets decodes to the bytes its characters stand for. */
  lemma {:induction false} DecodedBytes(text: string, s: seq<Sextet>)
    requires Reads(text, s) && |s| % 4 != 1 && '=' !in text
    ensures DecodeText(text) == Some(BytesOf(s))
  {
    if s == [] {
      assert Padded(text) == "";
    } else if |s| < 4 {
      ShortDecodes(text, s);
    } else {
      DecodedBytes(text[4..], s[4..]);
      FourRead(text, s);
    }
  }

  ghost predicate Spelt(c: char) { exists n: Sextet :: Spells(c, n) }

  /** The text is over the alphabets: each character stands for some value. */
  ghost predicate Readable(text: string) {
    forall i :: 0 <= i < |text| ==> Spelt(text[i])
  }

  lemma SextetsRead(text: string) returns (s: seq<Sextet>)
    requires Readable(text)
    ensures Reads(text, s)
  {
    forall i | 0 <= i < |text| ensures Value(text[i]).Some? {
      var n: Sextet :| Spells(text[i], n);
      ValueExactly(text[i], n);
    }
    s := seq(|text|, i requires 0 <= i < |text| => Value(text[i]).GetOr(0));
    forall i | 0 <= i < |text| ensures Spells(text[i], s[i]) { ValueExactly(text[i], s[i]); }
  }

  lemma ValueReads(c: char)
    requires Value(c).Some?
    ensures Spelt(c)
  {
    ValueExactly(c, Value(c).value);
  }

  lemma FourDecoded(p: string)
    requires |p| >= 4 && p[3] != '=' && Decoded(p).Some?
    ensures Value(p[0]).Some? && Value(p[1]).Some? && Value(p[2]).Some? && Value(p[3]).Some?
    ensures Decoded(p[4..]).Some?
  {
  }

  lemma FourReadable(text: string)
    requires |text| >= 4 && '=' !in text && DecodeText(text).Some?
    ensures Value(text[0]).Some? && Value(text[1]).Some? && Value(text[2]).Some? && Value(text[3]).Some?
    ensures DecodeText(text[4..]).Some? && '=' !in text[4..]
  {
    assert text[3] in text;
    PaddedRest(text);
    FourDecoded(Padded(text));
  }

  lemma ShortReadable(text: string)
    requires 0 < |text| < 4 && DecodeText(text).Some? && '=' !in text
    ensures |text| != 1 && Readable(text)
  {
    if |text| == 1 {
      OnePadded(text);
    } else {
      ShortPadded(text);
      var p := Padded(text);
      assert forall i :: 0 <= i < |text| ==> p[i] == text[i] && text[i] in text;
      LastDecodes(p);
      forall i | 0 <= i < |text| ensures Spelt(text[i]) { ValueReads(text[i]); }
    }
  }

  lemma OnePadded(text: string)
    requires |text| == 1
    ensures DecodeText(text).None?
  {
    assert Padded(text) == [text[0], '=', '=', '='];
    assert Value('=').None?;
  }

  /** A property of texts that passes from each text to what follows its first four characters, which it
      says to stand for values. */
  ghost predicate Steps(p: string -> bool, t: string) {
    && (p(t) && |t| >= 4 ==> p(t[4..]) && Spelt(t[0]) && Spelt(t[1]) && Spelt(t[2]) && Spelt(t[3]))
    && (p(t) && |t| < 4 ==> Readable(t) && |t| != 1)
  }

  lemma {:induction false} SteppingReads(p: string -> bool, text: string)
    requires p(text) && forall t :: Steps(p, t)
    ensures Readable(text) && |text| % 4 != 1
    decreases |text|
  {
    assert Steps(p, text);
    if |text| >= 4 {
      SteppingReads(p, text[4..]);
      forall i | 0 <= i < |text| ensures Spelt(text[i]) {
        if i >= 4 { assert text[i] == text[4..][i - 4]; }
      }
    }
  }

  predicate Unpadded(text: string) { DecodeText(text).Some? && '=' !in text }

  lemma LongStep(text: string)
    requires Unpadded(text) && |text| >= 4
    ensures Unpadded(text[4..]) && Spelt(text[0]) && Spelt(text[1]) && Spelt(text[2]) && Spelt(text[3])
  {
    FourReadable(text);
    ValueReads(text[0]);
    ValueReads(text[1]);
    ValueReads(text[2]);
    ValueReads(text[3]);
  }

  /** A text that decodes has only characters that stand for values. */
  lemma DecodedReadable(text: string)
    requires Unpadded(text)
    ensures Readable(text) && |text| % 4 != 1
  {
    var p := (t: string) => Unpadded(t);
    forall t ensures Steps(p, t) {
      if p(t) && |t| >= 4 {
        LongStep(t);
      } else if p(t) && t != "" {
        ShortReadable(t);
      }
    }
    SteppingReads(p, text);
  }

  /** A text without padding of its own decodes exactly when its characters stand for values and its
      length is one that whole bytes can have; then to the bytes that carry those values. */
  lemma DecodeTells(text: string)
    requires '=' !in text
    ensures DecodeText(text).Some? <==> Readable(text) && |text| % 4 != 1
    ensures DecodeText(text).Some? ==> exists s :: Reads(text, s) && Carries(s, DecodeText(text).value)
  {
    if DecodeText(text).Some? { DecodedReadable(text); }
    if Readable(text) && |text| % 4 != 1 {
      var s := SextetsRead(text);
      DecodedBytes(text, s);
      BytesCarry(s);
    }
  }
}
