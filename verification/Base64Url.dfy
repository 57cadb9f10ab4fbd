/** Unpadded base64url (RFC 4648, sections 3.2 and 5) from an accumulator that is shifted but
    never masked, so it wraps at the machine word. */
module Base64Url {
  import opened Prelude
  import opened Utf8

  type Sextet = v: int | 0 <= v < 64

  const UPPER: string := "ABCDEFGHIJKLMNOPQRSTUVWXYZ"
  const LOWER: string := "abcdefghijklmnopqrstuvwxyz"
  const DIGITS: string := "0123456789"
  const ALPHABET: string := UPPER + LOWER + DIGITS + "-_"

  const WORD32: int := 0x1_0000_0000
  const WORD64: int := 0x1_0000_0000_0000_0000

  function Symbol(v: Sextet): char {
    if v < 26 then (65 + v) as char
    else if v < 52 then (71 + v) as char
    else if v < 62 then (v - 4) as char
    else if v == 62 then '-'
    else '_'
  }

  lemma AlphabetTable(v: Sextet)
    ensures |ALPHABET| == 64 && ALPHABET[v] == Symbol(v)
  {
  }

  function Text(s: seq<Sextet>): (r: string)
    ensures |r| == |s|
    ensures forall i :: 0 <= i < |s| ==> r[i] == Symbol(s[i])
  {
    if s == [] then "" else [Symbol(s[0])] + Text(s[1..])
  }

  // --- the standard's groups --------------------------------------------------------

  function S1(x: Byte): Sextet { x / 4 }
  function S2(x: Byte, y: Byte): Sextet { x % 4 * 16 + y / 16 }
  function S3(y: Byte, z: Byte): Sextet { y % 16 * 4 + z / 64 }
  function S4(z: Byte): Sextet { z % 64 }

  function B1(a: Sextet, b: Sextet): Byte { a as int * 4 + b as int / 16 }
  function B2(b: Sextet, c: Sextet): Byte { b as int % 16 * 16 + c as int / 4 }
  function B3(c: Sextet, d: Sextet): Byte { c as int % 4 * 64 + d as int }

  /** Four sextets hold the 24 bits of three bytes, highest first. */
  lemma SameBits(x: Byte, y: Byte, z: Byte)
    ensures 0x10000 * x + 0x100 * y + z == 0x40000 * S1(x) + 0x1000 * S2(x, y) + 0x40 * S3(y, z) + S4(z)
  {
  }

  lemma Pack(x: Byte, y: Byte, z: Byte)
    ensures B1(S1(x), S2(x, y)) == x && B2(S2(x, y), S3(y, z)) == y && B3(S3(y, z), S4(z)) == z
  {
  }

  lemma Unpack(a: Sextet, b: Sextet, c: Sextet, d: Sextet)
    ensures S1(B1(a, b)) == a && S2(B1(a, b), B2(b, c)) == b && S3(B2(b, c), B3(c, d)) == c && S4(B3(c, d)) == d
  {
  }

  /** Three bytes make four sextets; one or two trailing bytes are padded with zero bits. */
  function Groups(b: seq<Byte>): seq<Sextet> {
    if b == [] then []
    else if |b| == 1 then [S1(b[0]), S2(b[0], 0)]
    else if |b| == 2 then [S1(b[0]), S2(b[0], b[1]), S3(b[1], 0)]
    else [S1(b[0]), S2(b[0], b[1]), S3(b[1], b[2]), S4(b[2])] + Groups(b[3..])
  }

  /** The decoder of the standard: refuses a lone sextet and non-zero padding bits. */
  function Ungroup(s: seq<Sextet>): Option<seq<Byte>> {
    if s == [] then Some([])
    else if |s| == 1 then None
    else if |s| == 2 then
      if s[1] % 16 == 0 then Some([B1(s[0], s[1])]) else None
    else if |s| == 3 then
      if s[2] % 4 == 0 then Some([B1(s[0], s[1]), B2(s[1], s[2])]) else None
    else
      match Ungroup(s[4..])
      case None => None
      case Some(rest) => Some([B1(s[0], s[1]), B2(s[1], s[2]), B3(s[2], s[3])] + rest)
  }

  function SymbolValue(c: char): Option<Sextet> {
    if 'A' <= c <= 'Z' then Some(c as int - 65)
    else if 'a' <= c <= 'z' then Some(c as int - 71)
    else if '0' <= c <= '9' then Some(c as int + 4)
    else if c == '-' then Some(62)
    else if c == '_' then Some(63)
    else None
  }

  function Sextets(text: string): Option<seq<Sextet>> {
    if text == "" then Some([])
    else match (SymbolValue(text[0]), Sextets(text[1..]))
      case (Some(v), Some(rest)) => Some([v] + rest)
      case _ => None
  }

  function Decode(text: string): Option<seq<Byte>> {
    match Sextets(text)
    case None => None
    case Some(s) => Ungroup(s)
  }

  // --- the encoder --------------------------------------------------------------------

  /** The sextets byte i completes, given the byte before it. */
  function Completed(i: nat, previous: Byte, c: Byte): (r: seq<Sextet>)
    ensures |r| == if i % 3 == 2 then 2 else 1
  {
    if i % 3 == 0 then [S1(c)] else if i % 3 == 1 then [S2(previous, c)] else [S3(previous, c), S4(c)]
  }

  /** The sextets complete after these bytes, in the order the loop emits them. */
  function Emitted(b: seq<Byte>): seq<Sextet> {
    if b == [] then []
    else
      var n := |b| - 1;
      Emitted(b[..n]) + Completed(n, if n == 0 then 0 else b[n - 1], b[n])
  }

  function Leftover(b: seq<Byte>): seq<Sextet> {
    if |b| % 3 == 0 then []
    else if |b| % 3 == 1 then [S2(b[|b| - 1], 0)]
    else [S3(b[|b| - 1], 0)]
  }

  function Pow2(n: nat): (r: nat)
    ensures r > 0
  {
    if n == 0 then 1 else 2 * Pow2(n - 1)
  }

  /** How many bits wait in the accumulator after n bytes. */
  function Waiting(n: nat): nat { if n % 3 == 0 then 0 else if n % 3 == 1 then 2 else 4 }

  lemma Powers()
    ensures Pow2(0) == 1 && Pow2(2) == 4 && Pow2(4) == 16 && Pow2(6) == 64
  {
    assert Pow2(1) == 2 && Pow2(3) == 8 && Pow2(5) == 32;
  }

  lemma DivMod(x: int, q: int, r: int, m: int)
    requires 0 <= r < m && x == q * m + r
    ensures x / m == q && x % m == r
  {
    var d := x / m - q;
    Distribute(x / m, q, m);
    if d >= 1 { AtLeast(d, m); } else if d <= -1 { AtLeast(-d, m); }
  }

  lemma Distribute(a: int, b: int, m: int)
    ensures (a - b) * m == a * m - b * m && (b - a) * m == b * m - a * m
  {
  }

  lemma AtLeast(k: int, m: int)
    requires k >= 1 && m >= 0
    ensures k * m >= m
  {
  }

  /** Wrapping at the word drops a multiple of 4096 and keeps the low twelve bits. */
  lemma Wrap(x: int, low: int, high: int, word: int) returns (q: int)
    requires word == WORD32 || word == WORD64
    requires x == 4096 * high + low
    ensures x % word == 4096 * q + low
  {
    var k := x / word;
    q := high - (if word == WORD32 then 0x10_0000 else 0x10_0000_0000_0000) * k;
  }

  /** A shift and a wrap later, the new byte sits under the bits that were waiting. */
  lemma ShiftIn(acc: nat, c: Byte, word: int) returns (q: int)
    requires word == WORD32 || word == WORD64
    ensures (acc * 256 + c) % word == 4096 * q + 256 * (acc % 16) + c
  {
    var a, r := acc / 16, acc % 16;
    q := Wrap(acc * 256 + c, 256 * r + c, a, word);
  }

  lemma Mod16(acc: nat)
    ensures acc % 16 % 4 == acc % 4
  {
    DivMod(acc, 4 * (acc / 16) + acc % 16 / 4, acc % 16 % 4, 4);
  }

  /** Reading six bits at each depth the loop uses. */
  lemma Extract(next: int, q: int, r: int, c: Byte)
    requires 0 <= r < 16 && next == 4096 * q + 256 * r + c
    ensures next / 4 % 64 == S1(c) && next % 4 == c % 4
    ensures next / 16 % 64 == r % 4 * 16 + c / 16 && next % 16 == c % 16
    ensures next / 64 % 64 == r * 4 + c / 64 && next / 1 % 64 == S4(c)
  {
    var c': int := c;
    DivMod(next, 1024 * q + 64 * r + c' / 4, c' % 4, 4);
    DivMod(1024 * q + 64 * r + c' / 4, 16 * q + r, c' / 4, 64);
    DivMod(next, 256 * q + 16 * r + c' / 16, c' % 16, 16);
    DivMod(256 * q + 16 * r + c' / 16, 4 * q + r / 4, r % 4 * 16 + c' / 16, 64);
    DivMod(next, 64 * q + 4 * r + c' / 64, c' % 64, 64);
    DivMod(64 * q + 4 * r + c' / 64, q, r * 4 + c' / 64, 64);
  }

  /** The last symbol pads the waiting bits with zeros, also after a wrap. */
  lemma PadOut(acc: nat, word: int)
    requires word == WORD32 || word == WORD64
    ensures acc * 16 % word % 64 == acc % 4 * 16 && acc * 4 % word % 64 == acc % 16 * 4
  {
    var q := Wrap(acc * 16, acc % 256 * 16, acc / 256, word);
    DivMod(acc % 256, acc % 256 / 4, acc % 4, 4) by { DivMod(acc, 64 * (acc / 256) + acc % 256 / 4, acc % 256 % 4, 4); }
    DivMod(acc * 16 % word, 64 * q + acc % 256 / 4, acc % 4 * 16, 64);
    var p := Wrap(acc * 4, acc % 1024 * 4, acc / 1024, word);
    DivMod(acc % 1024, acc % 1024 / 16, acc % 16, 16) by {
      DivMod(acc, 64 * (acc / 1024) + acc % 1024 / 16, acc % 1024 % 16, 16);
    }
    DivMod(acc * 4 % word, 64 * p + acc % 1024 / 16, acc % 16 * 4, 64);
  }

  /** The accumulator and bit counter agree with the bytes consumed so far. */
  ghost predicate Holds(acc: nat, bits: nat, b: seq<Byte>) {
    bits == Waiting(|b|)
    && (|b| % 3 == 1 ==> acc % 4 == b[|b| - 1] % 4)
    && (|b| % 3 == 2 ==> acc % 16 == b[|b| - 1] % 16)
  }

  /** The two rounds of the inner loop at most, as the sextets they read. */
  lemma Rounds(acc: nat, b: seq<Byte>, c: Byte, word: int)
    requires word == WORD32 || word == WORD64
    requires Holds(acc, Waiting(|b|), b)
    ensures var next := (acc * 256 + c) % word;
            var more := Completed(|b|, if b == [] then 0 else b[|b| - 1], c);
            next / Pow2(Waiting(|b|) + 2) % 64 == more[0]
            && (|more| == 2 ==> next / Pow2(0) % 64 == more[1])
            && Holds(next, Waiting(|b| + 1), b + [c])
  {
    Powers();
    var q := ShiftIn(acc, c, word);
    Extract((acc * 256 + c) % word, q, acc % 16, c);
    Mod16(acc);
  }

  /** The symbol after the loop, when bits are still waiting. */
  lemma LastRound(acc: nat, bits: nat, b: seq<Byte>, word: int)
    requires word == WORD32 || word == WORD64
    requires Holds(acc, bits, b)
    ensures bits == 0 <==> Leftover(b) == []
    ensures bits > 0 ==> bits < 6 && Leftover(b) == [acc * Pow2(6 - bits) % word % 64]
  {
    Powers();
    PadOut(acc, word);
  }

  lemma EmittedStep(b: seq<Byte>, i: nat)
    requires i < |b|
    ensures Emitted(b[..i + 1]) == Emitted(b[..i]) + Completed(i, if i == 0 then 0 else b[i - 1], b[i])
    ensures b[..i + 1] == b[..i] + [b[i]]
  {
    assert b[..i + 1][..i] == b[..i];
  }

  /** `base64RawURL` on a machine whose unsigned word holds values below `word`. */
  method Encode(b: seq<Byte>, word: int) returns (out: string)
    requires word == WORD32 || word == WORD64
    ensures out == Text(Groups(b))
  {
    hide Emitted, Completed, Holds, Groups, Leftover, Text, Symbol, Pow2;
    ghost var sent: seq<Sextet> := [];
    out := "";
    var acc: nat, bits: nat := 0, 0;
    Start(b);
    for i := 0 to |b|
      invariant Holds(acc, bits, b[..i]) && bits == Waiting(i)
      invariant sent == Emitted(b[..i]) && out == Text(sent)
    {
      EmittedStep(b, i);
      Rounds(acc, b[..i], b[i], word);
      acc := (acc * 256 + b[i]) % word;
      bits := bits + 8;
      ghost var first, more := sent, Completed(i, if i == 0 then 0 else b[i - 1], b[i]);
      ghost var k := 0;
      while bits >= 6
        invariant k <= |more| && bits + 6 * k == Waiting(i) + 8
        invariant sent == first + more[..k] && out == Text(sent)
      {
        bits := bits - 6;
        var v: Sextet := acc / Pow2(bits) % 64;
        assert v == more[k];
        AppendSymbol(sent, v);
        out := out + [ALPHABET[v]];
        sent := sent + [v];
        k := k + 1;
      }
      assert more[..k] == more;
    }
    assert b[..|b|] == b;
    LastRound(acc, bits, b, word);
    if bits > 0 {
      var v: Sextet := acc * Pow2(6 - bits) % word % 64;
      AppendSymbol(sent, v);
      out := out + [ALPHABET[v]];
      sent := sent + [v];
    }
    EmittedGroups(b);
  }

  lemma AppendSymbol(s: seq<Sextet>, v: Sextet)
    ensures |ALPHABET| == 64 && Text(s + [v]) == Text(s) + [ALPHABET[v]]
  {
    TextAppend(s, v);
    AlphabetTable(v);
  }

  lemma Start(b: seq<Byte>)
    ensures Holds(0, 0, b[..0]) && Emitted(b[..0]) == [] && Text([]) == ""
  {
  }

  lemma {:induction false} TextAppend(s: seq<Sextet>, v: Sextet)
    ensures Text(s + [v]) == Text(s) + [Symbol(v)]
  {
    if s != [] {
      assert (s + [v])[1..] == s[1..] + [v];
      TextAppend(s[1..], v);
    } else {
      assert [v][1..] == [];
    }
  }

  /** The running encoder sends what the standard's groups say. */
  lemma {:induction false} EmittedGroups(b: seq<Byte>)
    ensures Emitted(b) + Leftover(b) == Groups(b)
  {
    hide S1, S2, S3, S4, Emitted;
    if |b| >= 3 {
      EmittedSplit(b);
      EmittedGroups(b[3..]);
      assert Leftover(b) == Leftover(b[3..]);
      assert Groups(b) == [S1(b[0]), S2(b[0], b[1]), S3(b[1], b[2]), S4(b[2])] + Groups(b[3..]);
      hide Groups, Leftover;
      Regroup([S1(b[0]), S2(b[0], b[1]), S3(b[1], b[2]), S4(b[2])], Emitted(b[3..]), Leftover(b[3..]));
    } else if |b| == 2 {
      Emitted2(b[0], b[1]);
      assert b == [b[0], b[1]];
    } else if |b| == 1 {
      Emitted1(b[0]);
      assert b == [b[0]];
    } else {
      Start(b);
    }
  }

  lemma Regroup(a: seq<Sextet>, b: seq<Sextet>, c: seq<Sextet>)
    ensures a + b + c == a + (b + c)
  {
  }

  lemma Emitted1(x: Byte)
    ensures Emitted([x]) == [S1(x)]
  {
    assert [x][..0] == [];
  }

  lemma Emitted2(x: Byte, y: Byte)
    ensures Emitted([x, y]) == [S1(x), S2(x, y)]
  {
    hide S1, S2;
    assert [x, y][..1] == [x];
    Emitted1(x);
  }

  lemma Emitted3(x: Byte, y: Byte, z: Byte)
    ensures Emitted([x, y, z]) == [S1(x), S2(x, y), S3(y, z), S4(z)]
  {
    hide S1, S2, S3, S4;
    assert [x, y, z][..2] == [x, y];
    Emitted2(x, y);
  }

  lemma {:induction false} EmittedSplit(b: seq<Byte>)
    requires |b| >= 3
    ensures Emitted(b) == [S1(b[0]), S2(b[0], b[1]), S3(b[1], b[2]), S4(b[2])] + Emitted(b[3..])
  {
    hide Completed;
    var n := |b| - 1;
    if |b| == 3 {
      Emitted3(b[0], b[1], b[2]);
      assert b == [b[0], b[1], b[2]];
    } else {
      EmittedSplit(b[..n]);
      assert b[..n][3..] == b[3..][..n - 3];
      LaterByte(b);
    }
  }

  lemma LaterByte(b: seq<Byte>)
    requires |b| > 3
    ensures Completed(|b| - 1, b[|b| - 2], b[|b| - 1])
         == Completed(|b| - 4, if |b| == 4 then 0 else b[3..][|b| - 5], b[3..][|b| - 4])
  {
  }

  // --- decoding -----------------------------------------------------------------------

  lemma SymbolRoundTrip(v: Sextet)
    ensures SymbolValue(Symbol(v)) == Some(v)
  {
  }

  lemma {:induction false} SextetsOfText(s: seq<Sextet>)
    ensures Sextets(Text(s)) == Some(s)
  {
    if s != [] {
      SymbolRoundTrip(s[0]);
      SextetsOfText(s[1..]);
      assert s == [s[0]] + s[1..];
    }
  }

  lemma {:induction false} UngroupGroups(b: seq<Byte>)
    ensures Ungroup(Groups(b)) == Some(b)
  {
    hide S1, S2, S3, S4, B1, B2, B3;
    var s := Groups(b);
    if |b| >= 3 {
      Pack(b[0], b[1], b[2]);
      UngroupGroups(b[3..]);
      assert s[4..] == Groups(b[3..]);
      assert b == [b[0], b[1], b[2]] + b[3..];
    } else if |b| == 2 {
      Pack(b[0], b[1], 0);
      PaddingBits(b[0], b[1]);
      assert b == [b[0], b[1]];
    } else if |b| == 1 {
      Pack(b[0], 0, 0);
      PaddingBits(b[0], 0);
      assert b == [b[0]];
    }
  }

  lemma PaddingBits(x: Byte, y: Byte)
    ensures S2(x, 0) % 16 == 0 && S3(y, 0) % 4 == 0
  {
  }

  /** Every byte string decodes back from its text. */
  lemma {:induction false} DecodeEncoded(b: seq<Byte>)
    ensures Decode(Text(Groups(b))) == Some(b)
  {
    SextetsOfText(Groups(b));
    UngroupGroups(b);
  }

  lemma {:induction false} GroupsUngroup(s: seq<Sextet>)
    requires Ungroup(s).Some?
    ensures Groups(Ungroup(s).value) == s
  {
    if |s| >= 4 {
      hide S1, S2, S3, S4, B1, B2, B3;
      Unpack(s[0], s[1], s[2], s[3]);
      GroupsUngroup(s[4..]);
      var b := Ungroup(s).value;
      assert b[3..] == Ungroup(s[4..]).value;
      assert s == [s[0], s[1], s[2], s[3]] + s[4..];
    } else if |s| == 3 {
      Unpack(s[0], s[1], s[2], 0);
    } else if |s| == 2 {
      Unpack(s[0], s[1], 0, 0);
    }
  }

  lemma {:induction false} TextOfSextets(text: string)
    requires Sextets(text).Some?
    ensures Text(Sextets(text).value) == text
  {
    if text != "" {
      TextOfSextets(text[1..]);
      var s := Sextets(text).value;
      assert s[1..] == Sextets(text[1..]).value;
      SymbolAt(text[0]);
    }
  }

  lemma SymbolAt(c: char)
    requires SymbolValue(c).Some?
    ensures Symbol(SymbolValue(c).value) == c
  {
  }

  /** Decoding is the exact inverse: any text it accepts is the encoding of what it returns. */
  lemma EncodeDecoded(text: string)
    requires Decode(text).Some?
    ensures Text(Groups(Decode(text).value)) == text
  {
    TextOfSextets(text);
    GroupsUngroup(Sextets(text).value);
  }

  /** No padding: n bytes take the least number of six-bit symbols that hold 8n bits. */
  lemma {:induction false} EncodedLength(b: seq<Byte>)
    ensures |Groups(b)| == (8 * |b| + 5) / 6
  {
    if |b| >= 3 { EncodedLength(b[3..]); }
  }
}
