/** The parser reads what a document spells: every proper tree's text, with any white space between its tokens,
    parses to the tree's meaning, up to the depth cap and no further. */
module JsonTexts {
  import opened Prelude
  import opened Utf8
  import opened Decimal
  import opened Json
  import opened JsonGrammar
  import opened JsonSyntax

  // --- characters and bytes ---------------------------------------------------------------------

  lemma HeadByte(c: char, t: string)
    requires (c as int) < 0x80
    ensures Bytes([c] + t) == [c as int] + Bytes(t)
  {
    assert ([c] + t)[1..] == t;
  }

  /** The first byte tells an ASCII character from all others. */
  lemma FirstByte(t: string)
    requires t != ""
    ensures Bytes(t) != []
    ensures (t[0] as int) < 0x80 ==> Bytes(t)[0] == t[0] as int && Bytes(t)[1..] == Bytes(t[1..])
    ensures (t[0] as int) >= 0x80 ==> Bytes(t)[0] >= 0x80
  {
  }

  // --- white space ------------------------------------------------------------------------------

  /** No white space at the start. */
  predicate Settled(t: string) { t == "" || !BlankChar(t[0]) }

  lemma SettledStays(t: string)
    requires Settled(t)
    ensures SkipSpace(Bytes(t)) == Bytes(t)
  {
    if t != "" { FirstByte(t); }
  }

  /** Exactly the white space is skipped. */
  lemma {:induction false} BlankSkipped(w: string, t: string)
    requires Blank(w)
    ensures SkipSpace(Bytes(w + t)) == SkipSpace(Bytes(t))
  {
    if w == "" {
      assert w + t == t;
    } else {
      assert w + t == [w[0]] + (w[1..] + t);
      HeadByte(w[0], w[1..] + t);
      assert BlankChar(w[0]);
      BlankSkipped(w[1..], t);
    }
  }

  lemma SkipTo(w: string, t: string)
    requires Blank(w) && Settled(t)
    ensures SkipSpace(Bytes(w + t)) == Bytes(t)
  {
    BlankSkipped(w, t);
    SettledStays(t);
  }

  // --- strings ----------------------------------------------------------------------------------

  function CodeFrom(digits: seq<Hex>, acc: nat): nat {
    if digits == [] then acc else CodeFrom(digits[1..], acc * 16 + digits[0].value)
  }

  lemma {:induction false} CodeFromSnoc(digits: seq<Hex>, d: Hex, acc: nat)
    ensures CodeFrom(digits + [d], acc) == CodeFrom(digits, acc) * 16 + d.value
  {
    if digits == [] {
      assert ([] + [d])[1..] == [];
    } else {
      assert (digits + [d])[1..] == digits[1..] + [d];
      CodeFromSnoc(digits[1..], d, acc * 16 + digits[0].value);
    }
  }

  lemma {:induction false} CodeFromIs(digits: seq<Hex>)
    ensures CodeFrom(digits, 0) == CodeOf(digits)
  {
    if digits != [] {
      var n := |digits| - 1;
      assert digits == digits[..n] + [digits[n]];
      CodeFromSnoc(digits[..n], digits[n], 0);
      CodeFromIs(digits[..n]);
    }
  }

  lemma HexByte(d: Hex)
    requires d.value < 16
    ensures (HexText(d) as int) < 0x80 && HexText(d) != '+' && HexValue(HexText(d) as int) == Some(d.value)
  {
    var i := d.value;
    assert i == 0 || i == 1 || i == 2 || i == 3 || i == 4 || i == 5 || i == 6 || i == 7 || i == 8 || i == 9 || i == 10
           || i == 11 || i == 12 || i == 13 || i == 14 || i == 15;
  }

  lemma {:induction false} HexRunOf(digits: seq<Hex>, acc: nat)
    requires forall i :: 0 <= i < |digits| ==> digits[i].value < 16
    ensures HexRun(Bytes(HexTexts(digits)), acc) == Some(CodeFrom(digits, acc))
    ensures |Bytes(HexTexts(digits))| == |digits|
  {
    hide HexText, HexValue;
    if digits == [] {
      assert HexTexts(digits) == "";
    } else {
      HexByte(digits[0]);
      assert HexTexts(digits) == [HexText(digits[0])] + HexTexts(digits[1..]);
      HeadByte(HexText(digits[0]), HexTexts(digits[1..]));
      HexRunOf(digits[1..], acc * 16 + digits[0].value);
    }
  }

  lemma PlainFour(digits: seq<Hex>)
    requires |digits| == 4 && forall i :: 0 <= i < |digits| ==> digits[i].value < 16
    ensures |Bytes(HexTexts(digits))| == 4 && Hex4(Bytes(HexTexts(digits))) == Some(CodeOf(digits))
  {
    HexRunOf(digits, 0);
    CodeFromIs(digits);
    HexByte(digits[0]);
    assert HexTexts(digits) == [HexText(digits[0])] + HexTexts(digits)[1..];
    HeadByte(HexText(digits[0]), HexTexts(digits)[1..]);
    hide HexText, HexRun, CodeOf, CodeFrom, Bytes;
  }

  lemma PlusThree(digits: seq<Hex>)
    requires |digits| == 3 && forall i :: 0 <= i < |digits| ==> digits[i].value < 16
    ensures |Bytes("+" + HexTexts(digits))| == 4 && Hex4(Bytes("+" + HexTexts(digits))) == Some(CodeOf(digits))
  {
    HexRunOf(digits, 0);
    CodeFromIs(digits);
    assert "+" + HexTexts(digits) == ['+'] + HexTexts(digits);
    HeadByte('+', HexTexts(digits));
    assert ([43] + Bytes(HexTexts(digits)))[1..] == Bytes(HexTexts(digits));
    hide HexRun, CodeOf, CodeFrom, Bytes, HexTexts;
  }

  lemma TwoThen(a: char, b: char, t: string)
    requires (a as int) < 0x80 && (b as int) < 0x80
    ensures var s := Bytes([a] + ([b] + t));
            |s| == 2 + |Bytes(t)| && s[0] == a as int && s[1] == b as int && s[2..] == Bytes(t)
  {
    HeadByte(a, [b] + t);
    HeadByte(b, t);
  }

  lemma Sliced(x: seq<Byte>, y: seq<Byte>, s: seq<Byte>)
    requires |s| == 2 + |x + y| && s[2..] == x + y
    ensures s[2..2 + |x|] == x && s[2 + |x|..] == y
  {
    assert s[2..2 + |x|] == s[2..][..|x|];
    assert s[2 + |x|..] == s[2..][|x|..];
    assert (x + y)[..|x|] == x && (x + y)[|x|..] == y;
  }

  lemma BackslashU(t: string)
    ensures "\\u" + t == ['\\'] + (['u'] + t)
  {
  }

  lemma Grouped(a: string, b: string, c: string)
    ensures a + b + c == a + (b + c)
  {
  }

  lemma AfterBackslashU(four: string, t: string)
    ensures var s := Bytes("\\u" + four + t);
            |s| == 2 + |Bytes(four)| + |Bytes(t)| && s[0] == 92 && s[1] == 117
            && s[2..2 + |Bytes(four)|] == Bytes(four) && s[2 + |Bytes(four)|..] == Bytes(t)
  {
    hide *;
    Grouped("\\u", four, t);
    BackslashU(four + t);
    TwoThen('\\', 'u', four + t);
    BytesConcat(four, t);
    Sliced(Bytes(four), Bytes(t), Bytes("\\u" + four + t));
  }

  lemma CodeChar(plus: bool, digits: seq<Hex>, t: string)
    requires ProperSpelling(Code(plus, digits))
    ensures var s := Bytes(SpellingText(Code(plus, digits)) + t);
            |s| >= 6 && s[0] == 92 && s[1] == 117 && s[6..] == Bytes(t) && Hex4(s[2..6]) == Some(CodeOf(digits))
  {
    hide Bytes, HexTexts, CodeOf, Hex4;
    var four := (if plus then "+" else "") + HexTexts(digits);
    if plus {
      PlusThree(digits);
    } else {
      PlainFour(digits);
      assert four == HexTexts(digits);
    }
    AfterBackslashU(four, t);
    assert SpellingText(Code(plus, digits)) == "\\u" + four;
  }

  lemma ShortChar(i: nat, t: string)
    requires i < |LETTERS|
    ensures var s := Bytes("\\" + [LETTERS[i]] + t);
            |s| >= 2 && s[0] == 92 && s[1] != 117 && s[2..] == Bytes(t) && SimpleEscape(s[1]) == Some(LETTER_CHARS[i])
  {
    assert i == 0 || i == 1 || i == 2 || i == 3 || i == 4 || i == 5 || i == 6 || i == 7;
    assert "\\" + [LETTERS[i]] + t == ['\\'] + ([LETTERS[i]] + t);
    HeadByte('\\', [LETTERS[i]] + t);
    HeadByte(LETTERS[i], t);
  }

  lemma RawChar(c: char, t: string)
    requires c >= ' ' && c != '"' && c != '\\'
    ensures var s := Bytes([c] + t);
            s != [] && s[0] != 34 && s[0] != 92 && StringChar(s) == Parsed(c, Bytes(t))
  {
    assert ([c] + t)[1..] == t;
    assert Bytes([c] + t) == EncodeChar(c) + Bytes(t);
    StepOfEncoded(c, Bytes(t));
    DecodeEncoded([c] + t);
    FirstByte([c] + t);
  }

  /** However a character is spelled, reading it yields the character and leaves what follows. */
  lemma SpelledChar(sp: Spelling, t: string)
    requires ProperSpelling(sp)
    ensures var s := Bytes(SpellingText(sp) + t);
            s != [] && s[0] != 34 && StringChar(s) == Parsed(SpellingChar(sp), Bytes(t))
  {
    match sp
    case Raw(c) => RawChar(c, t);
    case Short(i) => ShortChar(i, t);
    case Code(plus, digits) =>
      CodeChar(plus, digits, t);
      hide Bytes, Hex4, CodeOf, HexTexts;
  }

  lemma {:induction false} SpelledBody(chars: seq<Spelling>, t: string, read: string)
    requires ProperString(chars)
    ensures ParseString(Bytes(StringBody(chars) + ("\"" + t)), read) == Parsed(read + StringMeaning(chars), Bytes(t))
  {
    hide StringChar, EncodeChar, SpellingText, SpellingChar, ProperSpelling;
    if chars == [] {
      assert "" + ("\"" + t) == ['"'] + t;
      HeadByte('"', t);
      assert read + StringMeaning(chars) == read;
    } else {
      var more := StringBody(chars[1..]) + ("\"" + t);
      assert StringBody(chars) + ("\"" + t) == SpellingText(chars[0]) + more;
      SpelledChar(chars[0], more);
      SpelledBody(chars[1..], t, read + [SpellingChar(chars[0])]);
      assert read + [SpellingChar(chars[0])] + StringMeaning(chars[1..]) == read + StringMeaning(chars);
    }
  }

  /** A string however spelled, with its quotes. */
  lemma SpelledString(chars: seq<Spelling>, t: string)
    requires ProperString(chars)
    ensures var s := Bytes(Quote(chars) + t);
            s != [] && s[0] == 34 && ParseString(s[1..], "") == Parsed(StringMeaning(chars), Bytes(t))
  {
    hide ParseString, EncodeChar;
    SpelledBody(chars, t, "");
    assert Quote(chars) + t == ['"'] + (StringBody(chars) + ("\"" + t));
    HeadByte('"', StringBody(chars) + ("\"" + t));
    assert "" + StringMeaning(chars) == StringMeaning(chars);
  }

  // --- numbers ----------------------------------------------------------------------------------

  lemma {:induction false} DigitRun(d: seq<Byte>, r: seq<Byte>)
    requires forall i :: 0 <= i < |d| ==> IsDigit(d[i])
    requires r == [] || !IsDigit(r[0])
    ensures DigitCount(d + r) == |d|
  {
    if d == [] {
      assert d + r == r;
    } else {
      assert (d + r)[1..] == d[1..] + r;
      DigitRun(d[1..], r);
    }
  }

  predicate ByteDigits(d: seq<Byte>) { forall i :: 0 <= i < |d| ==> IsDigit(d[i]) }

  /** What cannot go on a number. */
  predicate Stops(r: seq<Byte>) { r == [] || (!IsDigit(r[0]) && r[0] != 46 && r[0] != 101 && r[0] != 69) }

  predicate FractionBytes(f: seq<Byte>) { f == [] || (f[0] == 46 && ByteDigits(f[1..])) }

  predicate ExponentBytes(e: seq<Byte>, k: nat) {
    (e == [] && k == 0)
    || (e != [] && (e[0] == 101 || e[0] == 69) && 0 < k < |e| && ByteDigits(e[|e| - k..])
        && (|e| == k + 1 || (|e| == k + 2 && (e[1] == 43 || e[1] == 45))))
  }

  lemma FractionEnds(f: seq<Byte>, x: seq<Byte>)
    requires FractionBytes(f) && (x == [] || (!IsDigit(x[0]) && x[0] != 46))
    ensures FracLength(f + x) == |f|
  {
    if f == [] {
      assert f + x == x;
    } else {
      assert (f + x)[1..] == f[1..] + x;
      DigitRun(f[1..], x);
    }
  }

  lemma ExponentEnds(e: seq<Byte>, k: nat, r: seq<Byte>)
    requires ExponentBytes(e, k) && Stops(r)
    ensures ExpMark(e + r) == |e| - k && ExpDigits(e + r) == k
  {
    if e == [] {
      assert e + r == r;
    } else {
      var m := |e| - k;
      assert e == e[..m] + e[m..];
      assert IsDigit(e[m]);
      assert m == 1 ==> (e + r)[1] == e[1];
      assert ExpMark(e + r) == m;
      assert (e + r)[m..] == e[m..] + r;
      DigitRun(e[m..], r);
    }
  }

  lemma AfterFirst(a: seq<Byte>, b: seq<Byte>)
    ensures (a + b)[|a|..] == b && (a + b)[..|a|] == a
  {
  }

  lemma DropTwo(x: seq<Byte>, y: seq<Byte>, z: seq<Byte>)
    ensures |x| + |y| <= |x + (y + z)| && (x + (y + z))[|x| + |y|..] == z
  {
  }

  lemma DropThree(x: seq<Byte>, y: seq<Byte>, z: seq<Byte>, w: seq<Byte>)
    ensures |x| + |y| + |z| <= |x + (y + (z + w))| && (x + (y + (z + w)))[|x| + |y| + |z|..] == w
  {
  }

  /** What stands after the digits, and after the fraction, starts neither. */
  lemma PartsStop(f: seq<Byte>, e: seq<Byte>, k: nat, r: seq<Byte>)
    requires FractionBytes(f) && ExponentBytes(e, k) && Stops(r)
    ensures var t := e + r; t == [] || (!IsDigit(t[0]) && t[0] != 46 && t[0] != 45) || e == []
    ensures var t := e + r; t == [] || (!IsDigit(t[0]) && t[0] != 46)
    ensures var t := f + (e + r); t == [] || !IsDigit(t[0])
  {
    assert e == [] ==> e + r == r;
    assert f == [] ==> f + (e + r) == e + r;
  }

  lemma PartsStart(a: seq<Byte>, b: seq<Byte>, f: seq<Byte>, t: seq<Byte>)
    requires (a == [] || a == [45]) && ByteDigits(b) && FractionBytes(f) && (b != [] || f != [])
    ensures var s := a + (b + (f + t));
            s != [] && (a == [] ==> s[0] != 45) && (a != [] ==> s[0] == 45)
            && (s[0] == 45 || IsDigit(s[0]) || s[0] == 46)
  {
    if a == [] && b != [] { assert IsDigit(b[0]); }
  }

  lemma ShapeAt(s: seq<Byte>, p: NumberShape, x: seq<Byte>, y: seq<Byte>, z: seq<Byte>)
    requires p.sign <= p.int_ <= p.frac <= p.end <= |s|
    requires p.sign == if s != [] && s[0] == 45 then 1 else 0
    requires s[p.sign..] == x && s[p.int_..] == y && s[p.frac..] == z
    requires DigitCount(x) == p.int_ - p.sign && FracLength(y) == p.frac - p.int_
    requires ExpDigits(z) == p.expDigits && p.end == p.frac + ExpMark(z) + p.expDigits
    ensures Shape(s) == p
  {
    hide Shape, DigitCount, FracLength, ExpMark, ExpDigits;
    ShapeOfParts(s, p);
  }

  lemma PartsSliced(a: seq<Byte>, b: seq<Byte>, f: seq<Byte>, z: seq<Byte>)
    ensures var s := a + (b + (f + z));
            |s| == |a| + |b| + |f| + |z|
            && s[|a|..] == b + (f + z) && s[|a| + |b|..] == f + z && s[|a| + |b| + |f|..] == z
  {
    AfterFirst(a, b + (f + z));
    DropTwo(a, b, f + z);
    DropThree(a, b, f, z);
  }

  lemma PartsCounted(b: seq<Byte>, f: seq<Byte>, e: seq<Byte>, k: nat, r: seq<Byte>)
    requires ByteDigits(b) && FractionBytes(f) && ExponentBytes(e, k) && Stops(r)
    ensures DigitCount(b + (f + (e + r))) == |b| && FracLength(f + (e + r)) == |f|
    ensures ExpMark(e + r) + k == |e| && ExpDigits(e + r) == k
  {
    PartsStop(f, e, k, r);
    DigitRun(b, f + (e + r));
    FractionEnds(f, e + r);
    ExponentEnds(e, k, r);
  }

  /** The parts of a number, put together, are found again. */
  lemma PartsFound(a: seq<Byte>, b: seq<Byte>, f: seq<Byte>, e: seq<Byte>, k: nat, r: seq<Byte>)
    requires (a == [] || a == [45]) && ByteDigits(b) && FractionBytes(f) && ExponentBytes(e, k) && Stops(r)
    requires b != [] || f != []
    ensures var s := a + (b + (f + (e + r)));
            Shape(s) == NumberShape(|a|, |a| + |b|, |a| + |b| + |f|, |a| + |b| + |f| + |e|, k)
  {
    hide *;
    PartsCounted(b, f, e, k, r);
    PartsStart(a, b, f, e + r);
    PartsSliced(a, b, f, e + r);
    Lengths(a, b, f, e, r);
    ShapeAt(a + (b + (f + (e + r))), NumberShape(|a|, |a| + |b|, |a| + |b| + |f|, |a| + |b| + |f| + |e|, k),
            b + (f + (e + r)), f + (e + r), e + r);
  }

  lemma Lengths(a: seq<Byte>, b: seq<Byte>, f: seq<Byte>, e: seq<Byte>, r: seq<Byte>)
    ensures |a + (b + (f + (e + r)))| == |a| + |b| + |f| + |e| + |r|
  {
  }

  lemma AsciiDigits(t: string)
    requires DecimalDigits(t)
    ensures |Bytes(t)| == |t| && ByteDigits(Bytes(t)) && AsText(Bytes(t)) == t
  {
    AsciiBytes(t);
  }

  lemma AsciiText(t: string)
    requires forall i :: 0 <= i < |t| ==> t[i] < '\U{80}'
    ensures AsText(Bytes(t)) == t
  {
    AsciiBytes(t);
  }

  lemma {:induction false} WorthIs(t: string)
    requires DecimalDigits(t)
    ensures ByteDigits(Bytes(t)) && NatOf(Bytes(t)) == Worth(t)
  {
    AsciiDigits(t);
    if t != "" {
      var n := |t| - 1;
      WorthIs(t[..n]);
      AsciiDigits(t[..n]);
      AsciiBytes(t);
      AsciiBytes(t[..n]);
      assert Bytes(t)[..n] == Bytes(t[..n]);
      hide Bytes, Worth, NatOf;
      NatOfLast(Bytes(t));
      WorthLast(t);
    }
  }

  lemma NatOfLast(b: seq<Byte>)
    requires ByteDigits(b) && b != []
    ensures var last: int := b[|b| - 1]; NatOf(b) == 10 * NatOf(b[..|b| - 1]) + (last - 48)
  {
  }

  lemma WorthLast(t: string)
    requires DecimalDigits(t) && t != ""
    ensures Worth(t) == 10 * Worth(t[..|t| - 1]) + (t[|t| - 1] as int - 48)
  {
  }

  /** Text that cannot go on a number. */
  predicate StopsText(t: string) {
    t == "" || (!('0' <= t[0] <= '9') && t[0] != '.' && t[0] != 'e' && t[0] != 'E')
  }

  lemma StopsBytes(t: string)
    requires StopsText(t)
    ensures Stops(Bytes(t))
  {
    if t != "" { FirstByte(t); }
  }

  function MinusBytes(n: Numeral): seq<Byte> { if n.minus then [45] else [] }

  function ExponentCount(n: Numeral): nat { if n.exponent.Some? then |n.exponent.value.digits| else 0 }

  lemma SignBytes(n: Numeral)
    ensures Bytes(SignText(n)) == MinusBytes(n) && AsText(MinusBytes(n)) == SignText(n)
  {
    if n.minus { AsciiBytes("-"); }
  }

  lemma FractionIs(n: Numeral)
    requires ProperNumeral(n)
    ensures FractionBytes(Bytes(FractionText(n))) && |Bytes(FractionText(n))| == |FractionText(n)|
    ensures AsText(Bytes(FractionText(n))) == FractionText(n)
  {
    if n.fraction.Some? {
      AsciiDigits(n.fraction.value);
      AsciiBytes(FractionText(n));
      HeadByte('.', n.fraction.value);
      assert "." + n.fraction.value == ['.'] + n.fraction.value;
    }
  }

  lemma ExponentIs(n: Numeral)
    requires ProperNumeral(n)
    ensures ExponentBytes(Bytes(ExponentText(n)), ExponentCount(n)) && |Bytes(ExponentText(n))| == |ExponentText(n)|
    ensures AsText(Bytes(ExponentText(n))) == ExponentText(n)
  {
    if n.exponent.Some? {
      var e := n.exponent.value;
      AsciiDigits(e.digits);
      AsciiText(ExponentText(n));
      AsciiBytes(ExponentText(n));
      AsciiBytes(e.mark);
      AsciiBytes(e.sign);
      BytesConcat(e.mark + e.sign, e.digits);
      BytesConcat(e.mark, e.sign);
      hide Bytes, AsText, DecimalDigits;
      ExponentParts(Bytes(e.mark), Bytes(e.sign), Bytes(e.digits));
    }
  }

  lemma ExponentParts(m: seq<Byte>, g: seq<Byte>, d: seq<Byte>)
    requires |m| == 1 && (m[0] == 101 || m[0] == 69) && (g == [] || (|g| == 1 && (g[0] == 43 || g[0] == 45)))
    requires d != [] && ByteDigits(d)
    ensures ExponentBytes(m + g + d, |d|)
  {
    var e := m + g + d;
    assert e[|e| - |d|..] == d;
    assert g != [] ==> e[1] == g[0];
  }

  function Joined(a: seq<Byte>, b: seq<Byte>, f: seq<Byte>, e: seq<Byte>, r: seq<Byte>): seq<Byte> {
    a + (b + (f + (e + r)))
  }

  lemma NumeralBytes(n: Numeral, u: string)
    ensures Bytes(NumeralText(n) + u) ==
              Joined(Bytes(SignText(n)), Bytes(n.whole), Bytes(FractionText(n)), Bytes(ExponentText(n)), Bytes(u))
    ensures Bytes(NumeralText(n)) ==
              Joined(Bytes(SignText(n)), Bytes(n.whole), Bytes(FractionText(n)), Bytes(ExponentText(n)), [])
  {
    var a, b, f, e := SignText(n), n.whole, FractionText(n), ExponentText(n);
    hide Bytes, SignText, FractionText, ExponentText;
    assert a + b + f + e + u == a + (b + (f + (e + u)));
    assert a + b + f + e == a + (b + (f + e));
    BytesConcat(a, b + (f + (e + u)));
    BytesConcat(b, f + (e + u));
    BytesConcat(f, e + u);
    BytesConcat(e, u);
    BytesConcat(a, b + (f + e));
    BytesConcat(b, f + e);
    BytesConcat(f, e);
    assert Bytes(e) + [] == Bytes(e);
  }

  lemma AsTextConcat(a: seq<Byte>, b: seq<Byte>)
    ensures AsText(a + b) == AsText(a) + AsText(b)
  {
  }

  lemma Grouped4(a: string, b: string, c: string, d: string)
    ensures a + b + c + d == a + (b + (c + d))
  {
  }

  lemma NumeralAsText(n: Numeral)
    requires ProperNumeral(n)
    ensures AsText(Bytes(NumeralText(n))) == NumeralText(n)
    ensures AsText(Bytes(n.whole)) == n.whole
  {
    SignBytes(n);
    AsciiDigits(n.whole);
    FractionIs(n);
    ExponentIs(n);
    NumeralBytes(n, "");
    var a, b, f, e := Bytes(SignText(n)), Bytes(n.whole), Bytes(FractionText(n)), Bytes(ExponentText(n));
    hide Bytes, AsText, SignText, FractionText, ExponentText, DecimalDigits, ProperNumeral;
    AsTextConcat(a, b + (f + e));
    AsTextConcat(b, f + e);
    AsTextConcat(f, e);
    assert e + [] == e;
    Grouped4(SignText(n), n.whole, FractionText(n), ExponentText(n));
  }

  /** What the parser makes of a number whose parts it has found. */
  lemma NumberOf(s: seq<Byte>, p: NumberShape)
    requires s != [] && (s[0] == 45 || IsDigit(s[0])) && Shape(s) == p
    ensures p.int_ < p.end && F64Accepts(p) ==> ParseNumber(s) == Parsed(Float(AsText(s[..p.end])), s[p.end..])
    ensures p.int_ == p.end && p.sign < p.int_ ==>
              ByteDigits(s[p.sign..p.int_]) && ParseNumber(s) == Parsed(Integer(p.sign, s[p.sign..p.int_]), s[p.end..])
  {
    hide Shape, Integer;
  }

  lemma IntegerIs(n: Numeral)
    requires ProperNumeral(n) && n.fraction == None && n.exponent == None
    ensures ByteDigits(Bytes(n.whole)) && Integer(if n.minus then 1 else 0, Bytes(n.whole)) == NumeralMeaning(n)
  {
    WorthIs(n.whole);
    AsciiDigits(n.whole);
    hide Worth, NatOf, AsText, Bytes;
    WholeOnly(n);
  }

  lemma WholeOnly(n: Numeral)
    requires n.fraction == None && n.exponent == None
    ensures NumeralText(n) == SignText(n) + n.whole
  {
  }

  /** The shape the parts of a proper number have. */
  function ShapeOf(n: Numeral): NumberShape
    requires ProperNumeral(n)
  {
    var a, b := |SignText(n)|, |n.whole|;
    var c, d := |FractionText(n)|, |ExponentText(n)|;
    NumberShape(a, a + b, a + b + c, a + b + c + d, ExponentCount(n))
  }

  lemma ShapeAccepted(n: Numeral)
    requires ProperNumeral(n)
    ensures var p := ShapeOf(n);
            (n.fraction == None && n.exponent == None <==> p.int_ == p.end)
            && (p.int_ == p.end ==> p.sign < p.int_ && p.sign == (if n.minus then 1 else 0))
            && (p.int_ < p.end ==> F64Accepts(p))
  {
    hide DecimalDigits;
  }

  lemma NumberMeans(s: seq<Byte>, n: Numeral)
    requires ProperNumeral(n) && s != [] && (s[0] == 45 || IsDigit(s[0])) && Shape(s) == ShapeOf(n)
    requires s[ShapeOf(n).sign..ShapeOf(n).int_] == Bytes(n.whole) && s[..ShapeOf(n).end] == Bytes(NumeralText(n))
    ensures ParseNumber(s) == Parsed(NumeralMeaning(n), s[ShapeOf(n).end..])
  {
    ShapeAccepted(n);
    NumeralAsText(n);
    NumberOf(s, ShapeOf(n));
    if n.fraction == None && n.exponent == None {
      IntegerIs(n);
      hide *;
    } else {
      hide Shape, ShapeOf, ProperNumeral, Bytes, AsText, F64Accepts, ParseNumber;
    }
  }

  /** The bytes of the parts are what a number is made of, each character one byte. */
  lemma NumeralReady(n: Numeral, u: string)
    requires ProperNumeral(n) && StopsText(u)
    ensures Bytes(SignText(n)) == [] || Bytes(SignText(n)) == [45]
    ensures ByteDigits(Bytes(n.whole)) && FractionBytes(Bytes(FractionText(n)))
    ensures ExponentBytes(Bytes(ExponentText(n)), ExponentCount(n)) && Stops(Bytes(u))
    ensures Bytes(n.whole) != [] || Bytes(FractionText(n)) != []
    ensures |Bytes(SignText(n))| == |SignText(n)| && |Bytes(n.whole)| == |n.whole|
    ensures |Bytes(FractionText(n))| == |FractionText(n)| && |Bytes(ExponentText(n))| == |ExponentText(n)|
  {
    SignBytes(n);
    AsciiDigits(n.whole);
    FractionIs(n);
    ExponentIs(n);
    StopsBytes(u);
    hide Bytes, ExponentBytes, FractionBytes, ByteDigits, DecimalDigits, Stops, StopsText, AsText;
  }

  lemma NumeralParses(n: Numeral, u: string)
    requires ProperNumeral(n) && StopsText(u)
    ensures var s := Bytes(NumeralText(n) + u);
            s != [] && (s[0] == 45 || IsDigit(s[0])) && ParseNumber(s) == Parsed(NumeralMeaning(n), Bytes(u))
  {
    hide *;
    NumeralReady(n, u);
    NumeralBytes(n, u);
    SignBytes(n);
    ShapeOfIs(n);
    var a, b, f, e, r := Bytes(SignText(n)), Bytes(n.whole), Bytes(FractionText(n)), Bytes(ExponentText(n)), Bytes(u);
    NumeralStarts(n, f, e, r);
    PartsJoined(a, b, f, e, ExponentCount(n), r);
    NumberMeans(Bytes(NumeralText(n) + u), n);
  }

  lemma ShapeOfIs(n: Numeral)
    requires ProperNumeral(n)
    ensures var a, b, c, d := |SignText(n)|, |n.whole|, |FractionText(n)|, |ExponentText(n)|;
            ShapeOf(n) == NumberShape(a, a + b, a + b + c, a + b + c + d, ExponentCount(n))
  {
  }

  lemma NumeralStarts(n: Numeral, f: seq<Byte>, e: seq<Byte>, r: seq<Byte>)
    requires ProperNumeral(n)
    ensures var s := Joined(MinusBytes(n), Bytes(n.whole), f, e, r); s != [] && (s[0] == 45 || IsDigit(s[0]))
  {
    if n.whole != "" {
      AsciiBytes(n.whole);
      assert '0' <= n.whole[0] <= '9';
    }
  }

  lemma PartsPlaced(a: seq<Byte>, b: seq<Byte>, f: seq<Byte>, e: seq<Byte>, r: seq<Byte>)
    ensures var s, m := a + (b + (f + (e + r))), |a| + |b| + |f| + |e|;
            |s| == m + |r| && s[|a|..|a| + |b|] == b && s[..m] == a + (b + (f + e)) && s[m..] == r
  {
    var x := a + (b + (f + e));
    assert a + (b + (f + (e + r))) == x + r;
    AfterFirst(x, r);
    AfterFirst(a, b + (f + (e + r)));
    AfterFirst(b, f + (e + r));
  }

  lemma PartsJoined(a: seq<Byte>, b: seq<Byte>, f: seq<Byte>, e: seq<Byte>, k: nat, r: seq<Byte>)
    requires (a == [] || a == [45]) && ByteDigits(b) && FractionBytes(f) && ExponentBytes(e, k) && Stops(r)
    requires b != [] || f != []
    ensures var s, m := Joined(a, b, f, e, r), |a| + |b| + |f| + |e|;
            |s| == m + |r| && s[|a|..|a| + |b|] == b && s[..m] == Joined(a, b, f, e, []) && s[m..] == r
            && Shape(s) == NumberShape(|a|, |a| + |b|, |a| + |b| + |f|, m, k)
  {
    PartsFound(a, b, f, e, k, r);
    NothingMore(e);
    hide Shape, ByteDigits, FractionBytes, ExponentBytes, Stops;
    PartsPlaced(a, b, f, e, r);
  }

  lemma NothingMore(e: seq<Byte>)
    ensures e + [] == e
  {
  }

  // --- documents --------------------------------------------------------------------------------

  /** What may follow a value: the end, white space, or the token that comes next. */
  predicate Follow(u: string) { u == "" || BlankChar(u[0]) || u[0] == ',' || u[0] == ']' || u[0] == '}' }

  /** Where a value starts. */
  predicate StartsValue(t: string) { t != "" && Settled(t) && t[0] != ']' && t[0] != '}' }

  lemma StartByte(t: string)
    requires StartsValue(t)
    ensures var s := Bytes(t); s != [] && SkipSpace(s) == s && s[0] != 93 && s[0] != 125
  {
    FirstByte(t);
    SettledStays(t);
  }

  lemma NumeralStart(n: Numeral, u: string)
    requires ProperNumeral(n)
    ensures StartsValue(NumeralText(n) + u)
  {
    var t := NumeralText(n) + u;
    if n.minus {
      assert t[0] == '-';
    } else {
      assert t[0] == n.whole[0] && '0' <= n.whole[0] <= '9';
    }
  }

  lemma PrintStarts(d: Syntax, u: string)
    requires Proper(d)
    ensures StartsValue(Print(d) + u)
  {
    if d.Number? { NumeralStart(d.numeral, u); }
  }

  /** The outcome the depth cap allows for a value written at this depth. */
  ghost function Expected(v: Value, depth: nat, below: nat, u: string): Parsed<Value> {
    if depth + below <= MAX_DEPTH then Parsed(v, Bytes(u)) else Malformed
  }

  lemma WordParses(word: string, v: Value, depth: nat, u: string)
    requires (word == "null" && v == Null) || (word == "true" && v == Bool(true))
             || (word == "false" && v == Bool(false))
    requires depth <= MAX_DEPTH
    ensures ParseValue(Bytes(word + u), depth) == Parsed(v, Bytes(u))
  {
    BytesConcat(word, u);
    AsciiBytes(word);
    var s := Bytes(word + u);
    assert s[0] == word[0] as int;
    assert s[..|Bytes(word)|] == Bytes(word) && s[|Bytes(word)|..] == Bytes(u);
  }

  lemma ScalarDispatch(s: seq<Byte>, depth: nat)
    requires s != [] && depth <= MAX_DEPTH
    ensures s[0] == 45 || IsDigit(s[0]) ==> ParseValue(s, depth) == ParseNumber(s)
    ensures s[0] == 34 ==>
              ParseValue(s, depth) ==
                match ParseString(s[1..], "")
                case Malformed => Malformed
                case Parsed(text, rest) => Parsed(Str(text), rest)
    ensures s[0] == 91 ==> ParseValue(s, depth) == ParseArray(s[1..], depth)
    ensures s[0] == 123 ==> ParseValue(s, depth) == ParseObject(s[1..], depth)
  {
    hide ParseNumber, ParseArray, ParseObject, ParseString, Literal;
  }

  lemma NumberParses(n: Numeral, depth: nat, u: string)
    requires ProperNumeral(n) && Follow(u) && depth <= MAX_DEPTH
    ensures ParseValue(Bytes(NumeralText(n) + u), depth) == Parsed(NumeralMeaning(n), Bytes(u))
  {
    assert StopsText(u);
    hide *;
    NumeralParses(n, u);
    ScalarDispatch(Bytes(NumeralText(n) + u), depth);
  }

  lemma StringParses(chars: seq<Spelling>, depth: nat, u: string)
    requires ProperString(chars) && depth <= MAX_DEPTH
    ensures ParseValue(Bytes(Quote(chars) + u), depth) == Parsed(Str(StringMeaning(chars)), Bytes(u))
  {
    hide *;
    SpelledString(chars, u);
    ScalarDispatch(Bytes(Quote(chars) + u), depth);
  }

  /** A bracket at the start. */
  lemma Opened(open: char, body: string, u: string)
    requires (open as int) < 0x80
    ensures var s := Bytes([open] + (body + u)); s != [] && s[0] == open as int && s[1..] == Bytes(body + u)
  {
    HeadByte(open, body + u);
  }

  lemma Enclosed(open: string, body: string, close: string, u: string)
    ensures open + body + close + u == open + (body + (close + u))
  {
  }

  lemma {:induction false} DocumentParses(d: Syntax, depth: nat, u: string)
    requires Proper(d) && Follow(u)
    ensures ParseValue(Bytes(Print(d) + u), depth) == Expected(Meaning(d), depth, Nesting(d), u)
    decreases d, 2
  {
    hide Bytes, StringMeaning, StringBody, NumeralText, NumeralMeaning, ProperNumeral, ParseArray, ParseObject, Quote;
    if depth > MAX_DEPTH {
    } else {
      match d
      case NullWord => WordParses("null", Null, depth, u);
      case TrueWord => WordParses("true", Bool(true), depth, u);
      case FalseWord => WordParses("false", Bool(false), depth, u);
      case Number(n) => NumberParses(n, depth, u);
      case Text(chars) => StringParses(chars, depth, u);
      case List(gap, items) => ListParses(gap, items, depth, u);
      case Dict(gap, fields) => DictParses(gap, fields, depth, u);
    }
  }

  lemma ListParses(gap: string, items: seq<Item>, depth: nat, u: string)
    requires Blank(gap) && ProperItems(items) && Follow(u) && depth <= MAX_DEPTH
    ensures ParseValue(Bytes(Print(List(gap, items)) + u), depth) ==
              Expected(Arr(ItemMeanings(items)), depth, ItemsNesting(items), u)
    decreases items, 1
  {
    hide ParseValue, ParseItems, PrintItems, Bytes;
    var body := if items == [] then gap else PrintItems(items);
    Enclosed("[", body, "]", u);
    Opened('[', body, "]" + u);
    ScalarDispatch(Bytes(['['] + (body + ("]" + u))), depth);
    if items == [] {
      SkipTo(gap, "]" + u);
      HeadByte(']', u);
      assert "]" + u == [']'] + u;
    } else {
      ItemsParse(items, depth, [], u);
      ItemsStart(items, u, depth);
      hide ParseArray;
      assert [] + ItemMeanings(items) == ItemMeanings(items);
    }
  }

  lemma DictParses(gap: string, fields: seq<Field>, depth: nat, u: string)
    requires Blank(gap) && ProperFields(fields) && Follow(u) && depth <= MAX_DEPTH
    ensures ParseValue(Bytes(Print(Dict(gap, fields)) + u), depth) ==
              Expected(Obj(FieldMeanings(fields, [])), depth, FieldsNesting(fields), u)
    decreases fields, 1
  {
    hide ParseValue, ParseFields, PrintFields, Bytes;
    var body := if fields == [] then gap else PrintFields(fields);
    Enclosed("{", body, "}", u);
    Opened('{', body, "}" + u);
    ScalarDispatch(Bytes(['{'] + (body + ("}" + u))), depth);
    if fields == [] {
      SkipTo(gap, "}" + u);
      HeadByte('}', u);
      assert "}" + u == ['}'] + u;
    } else {
      FieldsParse(fields, depth, [], u);
      FieldsStart(fields, u, depth);
      hide ParseObject;
    }
  }

  /** Items start with a value, after white space; so skipping that changes nothing for the item loop. */
  lemma ItemsStart(items: seq<Item>, u: string, depth: nat)
    requires items != [] && ProperItems(items)
    ensures var s := Bytes(PrintItems(items) + ("]" + u)); ParseArray(s, depth) == ParseItems(s, depth, [])
  {
    var i := items[0];
    assert ProperItem(i);
    var rest := if |items| == 1 then "" else "," + PrintItems(items[1..]);
    ItemParts(i, rest, "]" + u);
    var more := Print(i.value) + (i.after + (rest + ("]" + u)));
    PrintStarts(i.value, i.after + (rest + ("]" + u)));
    assert PrintItems(items) == PrintItem(i) + rest;
    hide Print, PrintItem, PrintItems, Bytes;
    SkipTo(i.before, more);
    StartByte(more);
    ArraySkips(Bytes(i.before + more), depth);
  }

  lemma ArraySkips(s: seq<Byte>, depth: nat)
    requires var t := SkipSpace(s); t != [] && t[0] != 93 && SkipSpace(t) == t
    ensures ParseArray(s, depth) == ParseItems(s, depth, [])
  {
    hide ParseValue;
  }

  lemma FieldsStart(fields: seq<Field>, u: string, depth: nat)
    requires fields != [] && ProperFields(fields)
    ensures var s := Bytes(PrintFields(fields) + ("}" + u)); ParseObject(s, depth) == ParseFields(s, depth, [])
  {
    var f := fields[0];
    assert ProperField(f);
    var rest := if |fields| == 1 then "" else "," + PrintFields(fields[1..]);
    FieldParts(f, rest, "}" + u);
    var after := f.beforeColon + ([':'] + (f.afterColon + (Print(f.value) + (f.after + (rest + ("}" + u))))));
    assert PrintFields(fields) == PrintField(f) + rest;
    QuoteStarts(f.key, after);
    hide Print, PrintField, PrintFields, Bytes, Quote;
    SkipTo(f.before, Quote(f.key) + after);
    StartByte(Quote(f.key) + after);
    ObjectSkips(Bytes(f.before + (Quote(f.key) + after)), depth);
  }

  lemma QuoteStarts(chars: seq<Spelling>, t: string)
    requires ProperString(chars)
    ensures StartsValue(Quote(chars) + t)
  {
  }

  lemma ObjectSkips(s: seq<Byte>, depth: nat)
    requires var t := SkipSpace(s); t != [] && t[0] != 125 && SkipSpace(t) == t
    ensures ParseObject(s, depth) == ParseFields(s, depth, [])
  {
    hide ParseValue, ParseString;
  }

  /** How the item loop moves on, stated on bytes alone. */
  lemma ItemStep(s: seq<Byte>, depth: nat, read: seq<Value>, v: Value, after: seq<Byte>)
    requires ParseValue(SkipSpace(s), depth + 1) == Parsed(v, after) || ParseValue(SkipSpace(s), depth + 1).Malformed?
    requires SkipSpace(after) != [] && (SkipSpace(after)[0] == 44 || SkipSpace(after)[0] == 93)
    ensures var t := SkipSpace(after);
            ParseItems(s, depth, read) ==
              if ParseValue(SkipSpace(s), depth + 1).Malformed? then Malformed
              else if t[0] == 44 then ParseItems(t[1..], depth, read + [v])
              else Parsed(Arr(read + [v]), t[1..])
  {
  }

  /** One item and what comes after it. */
  lemma ItemParses(i: Item, depth: nat, read: seq<Value>, tail: string, v: Value)
    requires ProperItem(i) && tail != "" && (tail[0] == ',' || tail[0] == ']')
    requires ParseValue(Bytes(Print(i.value) + (i.after + tail)), depth + 1)
             in {Parsed(v, Bytes(i.after + tail)), Malformed}
    ensures ParseItems(Bytes(i.before + (Print(i.value) + (i.after + tail))), depth, read) ==
              if ParseValue(Bytes(Print(i.value) + (i.after + tail)), depth + 1).Malformed? then Malformed
              else if tail[0] == ',' then ParseItems(Bytes(tail[1..]), depth, read + [v])
              else Parsed(Arr(read + [v]), Bytes(tail[1..]))
  {
    PrintStarts(i.value, i.after + tail);
    AfterItem(i.after, tail);
    FirstByte(tail);
    hide Print, Bytes, Proper, ParseValue, ParseItems, Blank;
    SkipTo(i.before, Print(i.value) + (i.after + tail));
    SkipTo(i.after, tail);
    ItemStep(Bytes(i.before + (Print(i.value) + (i.after + tail))), depth, read, v, Bytes(i.after + tail));
  }

  lemma TailOf(next: string, close: string, u: string)
    requires |close| == 1
    ensures "" + (close + u) == [close[0]] + u
    ensures ("," + next) + (close + u) == [','] + (next + (close + u))
    ensures ([','] + (next + (close + u)))[1..] == next + (close + u) && ([close[0]] + u)[1..] == u
  {
  }

  lemma Gathered(read: seq<Value>, v: Value, more: seq<Value>)
    ensures read + ([v] + more) == read + [v] + more && read + [v] + [] == read + [v] && [v] + [] == [v]
  {
  }

  lemma {:induction false} ItemsParse(items: seq<Item>, depth: nat, read: seq<Value>, u: string)
    requires items != [] && ProperItems(items) && depth <= MAX_DEPTH
    ensures ParseItems(Bytes(PrintItems(items) + ("]" + u)), depth, read) ==
              Expected(Arr(read + ItemMeanings(items)), depth, ItemsNesting(items), u)
    decreases items, 0
  {
    hide ParseValue, ParseItems, Print, Bytes, Proper, Meaning, Nesting, Follow, Blank;
    var i, more := items[0], items[1..];
    assert ProperItem(i) && ProperItems(more);
    var rest := if more == [] then "" else "," + PrintItems(more);
    var tail := rest + ("]" + u);
    TailOf(PrintItems(more), "]", u);
    ItemParts(i, rest, "]" + u);
    AfterItem(i.after, tail);
    DocumentParses(i.value, depth + 1, i.after + tail);
    ItemParses(i, depth, read, tail, Meaning(i.value));
    ItemsUnrolled(items);
    hide PrintItem, ItemMeanings, ItemsNesting, PrintItems;
    if more != [] { ItemsParse(more, depth, read + [Meaning(i.value)], u); }
    Gathered(read, Meaning(i.value), ItemMeanings(more));
  }

  lemma ItemsUnrolled(items: seq<Item>)
    requires items != [] && ProperItems(items)
    ensures var i, more := items[0], items[1..];
            ProperItem(i) && ProperItems(more)
            && PrintItems(items) == PrintItem(i) + (if more == [] then "" else "," + PrintItems(more))
            && ItemMeanings(items) == [Meaning(i.value)] + ItemMeanings(more)
            && ItemsNesting(items) == Max(1 + Nesting(i.value), ItemsNesting(more))
            && (more == [] ==> ItemMeanings(more) == [] && ItemsNesting(more) == 0)
  {
    hide Print, Meaning, Nesting, Proper;
  }

  lemma ItemParts(i: Item, rest: string, close: string)
    requires ProperItem(i)
    ensures PrintItem(i) + rest + close == i.before + (Print(i.value) + (i.after + (rest + close)))
  {
    hide Print;
  }

  /** After a value comes white space or the next token. */
  lemma AfterItem(w: string, t: string)
    requires Blank(w) && t != "" && (t[0] == ',' || t[0] == ']' || t[0] == '}')
    ensures Follow(w + t) && Settled(t)
  {
    if w != "" { assert BlankChar(w[0]); }
  }

  lemma FieldParts(f: Field, rest: string, close: string)
    requires ProperField(f)
    ensures PrintField(f) + rest + close ==
              f.before + (Quote(f.key) + (f.beforeColon + ([':'] + (f.afterColon + (Print(f.value)
                          + (f.after + (rest + close)))))))
  {
    hide Print, Quote;
  }

  lemma KeyStep(s: seq<Byte>, key: string, after: seq<Byte>)
    requires SkipSpace(s) != [] && SkipSpace(s)[0] == 34 && ParseString(SkipSpace(s)[1..], "") == Parsed(key, after)
    requires SkipSpace(after) != [] && SkipSpace(after)[0] == 58
    ensures ParseKey(s) == Parsed(key, SkipSpace(SkipSpace(after)[1..]))
  {
  }

  lemma KeyParses(f: Field, t: string)
    requires ProperField(f) && Settled(t)
    ensures ParseKey(Bytes(f.before + (Quote(f.key) + (f.beforeColon + ([':'] + (f.afterColon + t)))))) ==
              Parsed(StringMeaning(f.key), Bytes(t))
  {
    var colon := [':'] + (f.afterColon + t);
    var key := Quote(f.key) + (f.beforeColon + colon);
    assert Settled(key) && Settled(colon);
    HeadByte(':', f.afterColon + t);
    hide Bytes, Quote, StringMeaning, ParseString, Blank, ParseKey;
    SkipTo(f.before, key);
    SpelledString(f.key, f.beforeColon + colon);
    SkipTo(f.beforeColon, colon);
    SkipTo(f.afterColon, t);
    KeyStep(Bytes(f.before + key), StringMeaning(f.key), Bytes(f.beforeColon + colon));
  }

  lemma FieldStep(s: seq<Byte>, depth: nat, read: seq<Entry<Value>>, key: string, at: seq<Byte>, v: Value,
                  after: seq<Byte>)
    requires ParseKey(s) == Parsed(key, at)
    requires ParseValue(at, depth + 1) == Parsed(v, after) || ParseValue(at, depth + 1).Malformed?
    requires SkipSpace(after) != [] && (SkipSpace(after)[0] == 44 || SkipSpace(after)[0] == 125)
    ensures var t := SkipSpace(after);
            ParseFields(s, depth, read) ==
              if ParseValue(at, depth + 1).Malformed? then Malformed
              else if t[0] == 44 then ParseFields(t[1..], depth, Insert(read, key, v))
              else Parsed(Obj(Insert(read, key, v)), t[1..])
  {
  }

  /** One field and what comes after it. */
  lemma FieldParses(f: Field, depth: nat, read: seq<Entry<Value>>, tail: string, v: Value)
    requires ProperField(f) && tail != "" && (tail[0] == ',' || tail[0] == '}')
    requires ParseValue(Bytes(Print(f.value) + (f.after + tail)), depth + 1)
             in {Parsed(v, Bytes(f.after + tail)), Malformed}
    ensures var key := StringMeaning(f.key);
            ParseFields(Bytes(f.before + (Quote(f.key) + (f.beforeColon + ([':'] + (f.afterColon + (Print(f.value)
                              + (f.after + tail))))))), depth, read) ==
              if ParseValue(Bytes(Print(f.value) + (f.after + tail)), depth + 1).Malformed? then Malformed
              else if tail[0] == ',' then ParseFields(Bytes(tail[1..]), depth, Insert(read, key, v))
              else Parsed(Obj(Insert(read, key, v)), Bytes(tail[1..]))
  {
    var at := Print(f.value) + (f.after + tail);
    PrintStarts(f.value, f.after + tail);
    AfterItem(f.after, tail);
    FirstByte(tail);
    hide Print, Bytes, Proper, ParseValue, ParseFields, ParseKey, Blank, Quote, StringMeaning, Insert;
    KeyParses(f, at);
    SkipTo(f.after, tail);
    FieldStep(Bytes(f.before + (Quote(f.key) + (f.beforeColon + ([':'] + (f.afterColon + at))))), depth, read,
              StringMeaning(f.key), Bytes(at), v, Bytes(f.after + tail));
  }

  lemma {:induction false} FieldsParse(fields: seq<Field>, depth: nat, read: seq<Entry<Value>>, u: string)
    requires fields != [] && ProperFields(fields) && depth <= MAX_DEPTH
    ensures ParseFields(Bytes(PrintFields(fields) + ("}" + u)), depth, read) ==
              Expected(Obj(FieldMeanings(fields, read)), depth, FieldsNesting(fields), u)
    decreases fields, 0
  {
    hide ParseValue, ParseFields, Print, Bytes, Proper, Meaning, Nesting, Quote, StringMeaning, Insert, Follow, Blank;
    var f, more := fields[0], fields[1..];
    assert ProperField(f) && ProperFields(more);
    var rest := if more == [] then "" else "," + PrintFields(more);
    var tail := rest + ("}" + u);
    TailOf(PrintFields(more), "}", u);
    FieldParts(f, rest, "}" + u);
    AfterItem(f.after, tail);
    DocumentParses(f.value, depth + 1, f.after + tail);
    FieldParses(f, depth, read, tail, Meaning(f.value));
    FieldsUnrolled(fields, read);
    hide PrintField, FieldMeanings, FieldsNesting, PrintFields;
    if more != [] { FieldsParse(more, depth, Insert(read, StringMeaning(f.key), Meaning(f.value)), u); }
  }

  lemma FieldsUnrolled(fields: seq<Field>, read: seq<Entry<Value>>)
    requires fields != [] && ProperFields(fields)
    ensures var f, more := fields[0], fields[1..];
            ProperField(f) && ProperFields(more)
            && PrintFields(fields) == PrintField(f) + (if more == [] then "" else "," + PrintFields(more))
            && FieldMeanings(fields, read) == FieldMeanings(more, Insert(read, StringMeaning(f.key), Meaning(f.value)))
            && FieldsNesting(fields) == Max(1 + Nesting(f.value), FieldsNesting(more))
            && (more == [] ==> FieldsNesting(more) == 0
                               && forall before :: FieldMeanings(more, before) == before)
  {
    hide Print, Meaning, Nesting, Proper, Quote, StringMeaning, Insert;
  }

  /** A proper document, with white space around it, parses to what it means if it is nested at most 64 levels, and is
      refused beyond. */
  lemma TextParses(before: string, d: Syntax, after: string)
    requires Blank(before) && Proper(d) && Blank(after)
    ensures Parse(before + Print(d) + after) == if Nesting(d) <= MAX_DEPTH then Some(Meaning(d)) else None
  {
    hide Print, Meaning, Nesting, Proper, ParseValue, Bytes;
    Grouped(before, Print(d), after);
    assert after != "" ==> BlankChar(after[0]);
    PrintStarts(d, after);
    SkipTo(before, Print(d) + after);
    DocumentParses(d, 0, after);
    assert after + "" == after;
    SkipTo(after, "");
    NoBytes();
  }

  lemma NoBytes()
    ensures Bytes("") == []
  {
  }
}
