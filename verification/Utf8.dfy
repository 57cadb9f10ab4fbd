/** UTF-8 as Rust's `str` and `String::from_utf8_lossy` see it. A Rust `String` is a Dafny
    `string`: both are sequences of Unicode scalar values. */
module Utf8 {
  import opened Prelude

  type Byte = b: int | 0 <= b < 256

  function EncodeChar(c: char): (r: seq<Byte>)
    ensures 1 <= |r| <= 4
  {
    var n := c as int;
    if n < 0x80 then [n]
    else if n < 0x800 then [0xC0 + n / 0x40, 0x80 + n % 0x40]
    else if n < 0x10000 then [0xE0 + n / 0x1000, 0x80 + n / 0x40 % 0x40, 0x80 + n % 0x40]
    else [0xF0 + n / 0x40000, 0x80 + n / 0x1000 % 0x40, 0x80 + n / 0x40 % 0x40, 0x80 + n % 0x40]
  }

  /** `str::as_bytes`. */
  function Bytes(text: string): (r: seq<Byte>)
    ensures |text| <= |r|
  {
    if text == [] then [] else EncodeChar(text[0]) + Bytes(text[1..])
  }

  /** What a byte adds to the bits of its character. */
  predicate TwoByteBits(n: int, a: int, b: int) {
    0xC0 <= a < 0xE0 && 0x80 <= b < 0xC0 && n == (a - 0xC0) * 0x40 + (b - 0x80)
  }

  predicate ThreeByteBits(n: int, a: int, b: int, c: int) {
    0xE0 <= a < 0xF0 && 0x80 <= b < 0xC0 && 0x80 <= c < 0xC0
    && n == (a - 0xE0) * 0x1000 + (b - 0x80) * 0x40 + (c - 0x80)
  }

  predicate FourByteBits(n: int, a: int, b: int, c: int, d: int) {
    0xF0 <= a < 0xF8 && 0x80 <= b < 0xC0 && 0x80 <= c < 0xC0 && 0x80 <= d < 0xC0
    && n == (a - 0xF0) * 0x4_0000 + (b - 0x80) * 0x1000 + (c - 0x80) * 0x40 + (d - 0x80)
  }

  /** The bits of the code point, six to a continuation byte, behind a lead byte that tells their number. */
  lemma EncodeValue(c: char)
    ensures var n, r := c as int, EncodeChar(c);
            (n < 0x80 ==> |r| == 1 && n == r[0])
            && (0x80 <= n < 0x800 ==> |r| == 2 && TwoByteBits(n, r[0], r[1]))
            && (0x800 <= n < 0x1_0000 ==> |r| == 3 && ThreeByteBits(n, r[0], r[1], r[2]))
            && (0x1_0000 <= n ==> |r| == 4 && FourByteBits(n, r[0], r[1], r[2], r[3]))
  {
    var n, r := c as int, EncodeChar(c);
    if 0x1_0000 <= n {
      FourIs(n);
      hide FourByteBits;
    } else if 0x800 <= n {
      ThreeIs(n);
      hide ThreeByteBits;
    }
  }

  lemma ThreeIs(n: int)
    requires 0x800 <= n < 0x1_0000
    ensures ThreeByteBits(n, 0xE0 + n / 0x1000, 0x80 + n / 0x40 % 0x40, 0x80 + n % 0x40)
  {
  }

  lemma FourIs(n: int)
    requires 0x1_0000 <= n < 0x11_0000
    ensures FourByteBits(n, 0xF0 + n / 0x4_0000, 0x80 + n / 0x1000 % 0x40, 0x80 + n / 0x40 % 0x40, 0x80 + n % 0x40)
  {
  }

  /** One decoding step: a whole character, or the length of a maximal ill-formed prefix. */
  datatype Step = Good(c: char, len: nat) | Bad(len: nat)

  predicate Continuation(b: Byte) { 0x80 <= b < 0xC0 }

  /** Which second bytes may follow a lead byte of three or four byte characters. */
  predicate SecondFits(lead: Byte, b: Byte) {
    Continuation(b)
    && (lead == 0xE0 ==> 0xA0 <= b)
    && (lead == 0xED ==> b < 0xA0)
    && (lead == 0xF0 ==> 0x90 <= b)
    && (lead == 0xF4 ==> b < 0x90)
  }

  function DecodeStep(s: seq<Byte>): (r: Step)
    requires s != []
    ensures 1 <= r.len <= |s|
  {
    var a: int := s[0];
    if a < 0x80 then Good(a as char, 1)
    else if a < 0xC2 || 0xF5 <= a then Bad(1)
    else if |s| < 2 || !SecondFits(a, s[1]) then Bad(1)
    else if a < 0xE0 then Good(((a - 0xC0) * 0x40 + (s[1] as int - 0x80)) as char, 2)
    else if |s| < 3 || !Continuation(s[2]) then Bad(2)
    else if a < 0xF0 then
      Good(((a - 0xE0) * 0x1000 + (s[1] as int - 0x80) * 0x40 + (s[2] as int - 0x80)) as char, 3)
    else if |s| < 4 || !Continuation(s[3]) then Bad(3)
    else
      Good(((a - 0xF0) * 0x40000 + (s[1] as int - 0x80) * 0x1000 + (s[2] as int - 0x80) * 0x40
            + (s[3] as int - 0x80)) as char, 4)
  }

  /** `std::str::from_utf8`: the text, or None when any part is ill-formed. */
  function Decode(s: seq<Byte>): Option<string> {
    if s == [] then Some("")
    else match DecodeStep(s)
      case Bad(_) => None
      case Good(c, n) =>
        match Decode(s[n..])
        case None => None
        case Some(rest) => Some([c] + rest)
  }

  /** `String::from_utf8_lossy`: each maximal ill-formed prefix becomes one U+FFFD. */
  function Lossy(s: seq<Byte>): string {
    if s == [] then ""
    else match DecodeStep(s)
      case Good(c, n) => [c] + Lossy(s[n..])
      case Bad(n) => ['\U{FFFD}'] + Lossy(s[n..])
  }

  lemma StepOfLongChar(c: char, rest: seq<Byte>)
    requires 0x1_0000 <= c as int
    ensures DecodeStep(EncodeChar(c) + rest) == Good(c, 4)
  {
    var n := c as int;
    var s := EncodeChar(c) + rest;
    assert s[0] == 0xF0 + n / 0x40000 && s[1] == 0x80 + n / 0x1000 % 0x40;
    assert s[2] == 0x80 + n / 0x40 % 0x40 && s[3] == 0x80 + n % 0x40;
    assert n / 0x1000 / 0x40 == n / 0x40000;
  }

  lemma StepOfShortChar(c: char, rest: seq<Byte>)
    requires (c as int) < 0x1_0000
    ensures DecodeStep(EncodeChar(c) + rest) == Good(c, |EncodeChar(c)|)
  {
    var n := c as int;
    var s := EncodeChar(c) + rest;
    assert s[0] == EncodeChar(c)[0];
    if 0x80 <= n { assert s[1] == EncodeChar(c)[1]; }
    if 0x800 <= n { assert s[2] == EncodeChar(c)[2]; }
  }

  lemma StepOfEncoded(c: char, rest: seq<Byte>)
    ensures DecodeStep(EncodeChar(c) + rest) == Good(c, |EncodeChar(c)|)
    ensures (EncodeChar(c) + rest)[|EncodeChar(c)|..] == rest
  {
    hide DecodeStep;
    if (c as int) < 0x1_0000 { StepOfShortChar(c, rest); } else { StepOfLongChar(c, rest); }
  }

  lemma {:induction false} BytesConcat(a: string, b: string)
    ensures Bytes(a + b) == Bytes(a) + Bytes(b)
  {
    if a == [] {
      assert a + b == b;
    } else {
      assert (a + b)[1..] == a[1..] + b;
      BytesConcat(a[1..], b);
    }
  }

  /** Encoding then decoding gives the text back, so distinct texts have distinct bytes. */
  lemma {:induction false} DecodeEncoded(text: string)
    ensures Decode(Bytes(text)) == Some(text)
  {
    if text != [] {
      StepOfEncoded(text[0], Bytes(text[1..]));
      DecodeEncoded(text[1..]);
      assert text == [text[0]] + text[1..];
    }
  }

  lemma BytesInjective(a: string, b: string)
    requires Bytes(a) == Bytes(b)
    ensures a == b
  {
    DecodeEncoded(a);
    DecodeEncoded(b);
  }

  /** Text in the ASCII range is its own byte sequence. */
  lemma {:induction false} AsciiBytes(text: string)
    requires forall i :: 0 <= i < |text| ==> text[i] < '\U{80}'
    ensures |Bytes(text)| == |text|
    ensures forall i :: 0 <= i < |text| ==> Bytes(text)[i] == text[i] as int
  {
    if text != [] {
      AsciiBytes(text[1..]);
      forall i | 0 <= i < |text| ensures Bytes(text)[i] == text[i] as int {
        if i > 0 { assert text[i] == text[1..][i - 1]; }
      }
    }
  }

  /** A decoding step never looks past a line feed, whatever follows it. */
  lemma StepStopsAtNewline(a: seq<Byte>, b: seq<Byte>)
    requires a != []
    ensures DecodeStep(a + [10] + b) == DecodeStep(a)
    ensures 10 !in a && DecodeStep(a).Good? ==> DecodeStep(a).c != '\n'
  {
    assert a[0] in a;
    var s := a + [10] + b;
    assert forall i :: 0 <= i < |a| ==> s[i] == a[i];
    assert s[|a|] == 10;
  }

  lemma NewlineStep(b: seq<Byte>)
    ensures DecodeStep([] + [10] + b) == Good('\n', 1)
  {
  }

  /** Lossy decoding commutes with cutting a buffer at a line feed. */
  lemma {:induction false} LossyAtNewline(a: seq<Byte>, b: seq<Byte>)
    ensures Lossy(a + [10] + b) == Lossy(a) + ['\n'] + Lossy(b)
    ensures 10 !in a ==> '\n' !in Lossy(a)
  {
    hide DecodeStep;
    var s := a + [10] + b;
    if a == [] {
      NewlineStep(b);
      assert s[1..] == b;
    } else {
      StepStopsAtNewline(a, b);
      var n := DecodeStep(a).len;
      assert s[n..] == a[n..] + [10] + b;
      assert forall i :: 0 <= i < |a[n..]| ==> a[n..][i] == a[n + i];
      LossyAtNewline(a[n..], b);
    }
  }
}
