/** Cursor text of the project input list (plugins/local_project_input_store.py): unpadded
    base64url, section 5 of RFC 4648. */
module CursorCodec {
  import opened Common

  type Byte = b: int | 0 <= b < 256

  type Sextet = n: int | 0 <= n < 64

  predicate UrlSafe(c: char) {
    'A' <= c <= 'Z' || 'a' <= c <= 'z' || '0' <= c <= '9' || c == '-' || c == '_'
  }

  /** The URL-safe alphabet of section 5 of RFC 4648. */
  function Digit(n: Sextet): (c: char)
    ensures UrlSafe(c)
  {
    if n < 26 then ('A' as int + n) as char
    else if n < 52 then ('a' as int + (n - 26)) as char
    else if n < 62 then ('0' as int + (n - 52)) as char
    else if n == 62 then '-'
    else '_'
  }

  /** The value of a character; the decoder also takes the characters of the plain alphabet. */
  function Value(c: char): Option<Sextet> {
    if 'A' <= c <= 'Z' then Some(c as int - 'A' as int)
    else if 'a' <= c <= 'z' then Some(c as int - 'a' as int + 26)
    else if '0' <= c <= '9' then Some(c as int - '0' as int + 52)
    else if c == '-' || c == '+' then Some(62)
    else if c == '_' || c == '/' then Some(63)
    else None
  }

  lemma DigitValue(n: Sextet)
    ensures Value(Digit(n)) == Some(n)
  {
  }

  // ---------------------------------------------------------------- padded encoding

  /** `urlsafe_b64encode`: three bytes to four characters, the last group padded. */
  function Encoded(bytes: seq<Byte>): string {
    if |bytes| == 0 then ""
    else if |bytes| == 1 then [Digit(bytes[0] / 4), Digit(bytes[0] % 4 * 16), '=', '=']
    else if |bytes| == 2 then
      [Digit(bytes[0] / 4), Digit(bytes[0] % 4 * 16 + bytes[1] / 16), Digit(bytes[1] % 16 * 4), '=']
    else Group(bytes[0], bytes[1], bytes[2]) + Encoded(bytes[3..])
  }

  function Group(a: Byte, b: Byte, c: Byte): (g: string)
    ensures |g| == 4 && forall i :: 0 <= i < 4 ==> UrlSafe(g[i])
  {
    [Digit(a / 4), Digit(a % 4 * 16 + b / 16), Digit(b % 16 * 4 + c / 64), Digit(c % 64)]
  }

  /** `urlsafe_b64decode` on text over the alphabet; None stands for a decoding error. */
  function Decoded(text: string): Option<seq<Byte>> {
    if text == "" then Some([])
    else if |text| < 4 then None
    else if |text| == 4 && text[3] == '=' then DecodedLast(text)
    else
      var s0, s1, s2, s3 := Value(text[0]), Value(text[1]), Value(text[2]), Value(text[3]);
      if s0.None? || s1.None? || s2.None? || s3.None? then None
      else
        match Decoded(text[4..])
        case None => None
        case Some(rest) =>
          Some([s0.value * 4 + s1.value / 16, s1.value % 16 * 16 + s2.value / 4, s2.value % 4 * 64 + s3.value] + rest)
  }

  function DecodedLast(text: string): Option<seq<Byte>>
    requires |text| == 4
  {
    var s0, s1, s2 := Value(text[0]), Value(text[1]), Value(text[2]);
    if s0.None? || s1.None? then None
    else if text[2] == '=' then Some([s0.value * 4 + s1.value / 16])
    else if s2.None? then None
    else Some([s0.value * 4 + s1.value / 16, s1.value % 16 * 16 + s2.value / 4])
  }

  // ---------------------------------------------------------------- padding

  function Pads(n: nat): string { seq(n, i => '=') }

  /** `rstrip("=")`. */
  function Stripped(text: string): string {
    if text != "" && text[|text| - 1] == '=' then Stripped(text[..|text| - 1]) else text
  }

  /** `cursor + "=" * (-len(cursor) % 4)`. */
  function Padded(text: string): string { text + Pads((-|text|) % 4) }

  function EncodeText(bytes: seq<Byte>): string { Stripped(Encoded(bytes)) }

  function DecodeText(text: string): Option<seq<Byte>> { Decoded(Padded(text)) }

  // ---------------------------------------------------------------- round trip

  lemma GroupValues(a: Byte, b: Byte, c: Byte)
    ensures var g := Group(a, b, c);
            && Value(g[0]) == Some(a / 4) && Value(g[1]) == Some(a % 4 * 16 + b / 16)
            && Value(g[2]) == Some(b % 16 * 4 + c / 64) && Value(g[3]) == Some(c % 64)
  {
    DigitValue(a / 4);
    DigitValue(a % 4 * 16 + b / 16);
    DigitValue(b % 16 * 4 + c / 64);
    DigitValue(c % 64);
  }

  lemma GroupBytes(a: Byte, b: Byte, c: Byte)
    ensures var s0, s1, s2, s3 := a / 4, a % 4 * 16 + b / 16, b % 16 * 4 + c / 64, c % 64;
            s0 * 4 + s1 / 16 == a && s1 % 16 * 16 + s2 / 4 == b && s2 % 4 * 64 + s3 == c
  {
  }

  lemma LastValues(a: Byte, b: Byte)
    ensures Value(Digit(a / 4)) == Some(a / 4) && Value(Digit(a % 4 * 16 + b / 16)) == Some(a % 4 * 16 + b / 16)
    ensures Value(Digit(b % 16 * 4)) == Some(b % 16 * 4)
  {
    DigitValue(a / 4);
    DigitValue(a % 4 * 16 + b / 16);
    DigitValue(b % 16 * 4);
  }

  lemma OneByte(bytes: seq<Byte>)
    requires |bytes| == 1
    ensures DecodedLast(Encoded(bytes)) == Some(bytes)
  {
    var a := bytes[0];
    LastValues(a, 0);
    GroupBytes(a, 0, 0);
    assert bytes == [a];
  }

  lemma TwoBytes(bytes: seq<Byte>)
    requires |bytes| == 2
    ensures DecodedLast(Encoded(bytes)) == Some(bytes)
  {
    var a, b := bytes[0], bytes[1];
    LastValues(a, b);
    GroupBytes(a, b, 0);
    assert bytes == [a, b];
  }

  lemma FirstThree(bytes: seq<Byte>)
    requires |bytes| >= 3
    ensures bytes == [bytes[0], bytes[1], bytes[2]] + bytes[3..]
  {
    assert bytes[..3] == [bytes[0], bytes[1], bytes[2]];
    assert bytes == bytes[..3] + bytes[3..];
  }

  lemma EncodedGroup(bytes: seq<Byte>)
    requires |bytes| >= 3
    ensures Encoded(bytes) == Group(bytes[0], bytes[1], bytes[2]) + Encoded(bytes[3..])
  {
  }

  lemma GroupRoundTrip(a: Byte, b: Byte, c: Byte, rest: string, bytes: seq<Byte>)
    requires Decoded(rest) == Some(bytes)
    ensures Decoded(Group(a, b, c) + rest) == Some([a, b, c] + bytes)
  {
    var g := Group(a, b, c);
    var text := g + rest;
    GroupValues(a, b, c);
    GroupBytes(a, b, c);
    assert text[4..] == rest;
    DecodedFour(text, a / 4, a % 4 * 16 + b / 16, b % 16 * 4 + c / 64, c % 64, bytes);
  }

  lemma DecodedFour(text: string, s0: Sextet, s1: Sextet, s2: Sextet, s3: Sextet, bytes: seq<Byte>)
    requires |text| >= 4 && Decoded(text[4..]) == Some(bytes)
    requires Value(text[0]) == Some(s0) && Value(text[1]) == Some(s1) && Value(text[2]) == Some(s2)
             && Value(text[3]) == Some(s3)
    ensures Decoded(text) == Some([s0 * 4 + s1 / 16, s1 % 16 * 16 + s2 / 4, s2 % 4 * 64 + s3] + bytes)
  {
  }

  /** Decoding the padded text gives the bytes back. */
  lemma {:induction false} PaddedRoundTrip(bytes: seq<Byte>)
    ensures Decoded(Encoded(bytes)) == Some(bytes)
  {
    if |bytes| == 1 {
      OneByte(bytes);
    } else if |bytes| == 2 {
      TwoBytes(bytes);
    } else if |bytes| >= 3 {
      PaddedRoundTrip(bytes[3..]);
      FirstThree(bytes);
      EncodedGroup(bytes);
      GroupRoundTrip(bytes[0], bytes[1], bytes[2], Encoded(bytes[3..]), bytes[3..]);
    }
  }

  ghost predicate UrlSafeText(text: string) { forall i :: 0 <= i < |text| ==> UrlSafe(text[i]) }

  lemma ShortShape(bytes: seq<Byte>) returns (body: string, n: nat)
    requires 1 <= |bytes| <= 2
    ensures Encoded(bytes) == body + Pads(n) && |body| + n == 4 && n <= 2 && UrlSafeText(body)
  {
    n := 3 - |bytes|;
    body := Encoded(bytes)[..4 - n];
    assert Encoded(bytes)[4 - n..] == Pads(n);
  }

  lemma LongerShape(g: string, body: string, n: nat)
    requires |g| == 4 && UrlSafeText(g) && UrlSafeText(body) && (|body| + n) % 4 == 0
    ensures g + (body + Pads(n)) == (g + body) + Pads(n) && UrlSafeText(g + body) && (|g + body| + n) % 4 == 0
  {
  }

  /** The padded text is whole groups, with at most two pads, all at its end. */
  lemma {:induction false} EncodedShape(bytes: seq<Byte>) returns (body: string, n: nat)
    ensures Encoded(bytes) == body + Pads(n) && n <= 2 && (|body| + n) % 4 == 0
    ensures UrlSafeText(body)
  {
    if bytes == [] {
      body, n := "", 0;
      assert Pads(0) == "";
    } else if |bytes| <= 2 {
      body, n := ShortShape(bytes);
    } else {
      body, n := EncodedShape(bytes[3..]);
      EncodedGroup(bytes);
      var g := Group(bytes[0], bytes[1], bytes[2]);
      LongerShape(g, body, n);
      body := g + body;
    }
  }

  lemma PadCount(length: int, n: int)
    requires 0 <= n <= 2 && length >= 0 && (length + n) % 4 == 0
    ensures (-length) % 4 == n
  {
  }

  lemma {:induction false} StrippedPads(body: string, n: nat)
    requires body == "" || body[|body| - 1] != '='
    ensures Stripped(body + Pads(n)) == body
  {
    if n == 0 {
      assert body + Pads(0) == body;
    } else {
      var k := n - 1;
      var text := body + Pads(n);
      assert text[..|text| - 1] == body + Pads(k);
      StrippedPads(body, k);
    }
  }

  /** Removing the padding loses nothing: the length says how much to put back. */
  lemma TextRoundTrip(bytes: seq<Byte>)
    ensures DecodeText(EncodeText(bytes)) == Some(bytes)
    ensures forall i :: 0 <= i < |EncodeText(bytes)| ==> UrlSafe(EncodeText(bytes)[i])
  {
    var body, n := EncodedShape(bytes);
    StrippedPads(body, n);
    PadCount(|body|, n);
    assert Padded(body) == Encoded(bytes);
    PaddedRoundTrip(bytes);
  }
}
