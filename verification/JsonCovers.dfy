/** The parser reads nothing else: every text it accepts is spelled by some proper document, which means what it
    answers. With JsonTexts this says exactly which texts are accepted and what they mean. */
module JsonCovers {
  import opened Prelude
  import opened Utf8
  import opened Decimal
  import opened Json
  import opened JsonGrammar
  import opened JsonSyntax
  import opened JsonTexts

  // --- white space ------------------------------------------------------------------------------

  /** What is skipped is white space, all of it. */
  lemma {:induction false} Skipped(t: string) returns (w: string, u: string)
    ensures t == w + u && Blank(w) && Settled(u) && SkipSpace(Bytes(t)) == Bytes(u)
  {
    if t != "" && BlankChar(t[0]) {
      var w', u' := Skipped(t[1..]);
      w, u := [t[0]] + w', u';
      FirstByte(t);
      Grouped([t[0]], w', u);
      hide Bytes;
    } else {
      w, u := "", t;
      SettledStays(t);
    }
  }

  /** An ASCII byte at the start is a character at the start. */
  lemma AsciiStart(t: string)
    requires Bytes(t) != [] && Bytes(t)[0] < 0x80
    ensures t != "" && t[0] as int == Bytes(t)[0] && Bytes(t)[1..] == Bytes(t[1..]) && t == [t[0]] + t[1..]
  {
    SomeText(t);
    hide Bytes;
    FirstByte(t);
  }

  lemma SomeText(t: string)
    requires Bytes(t) != []
    ensures t != "" && t == [t[0]] + t[1..]
  {
  }

  // --- strings ----------------------------------------------------------------------------------

  function HexOf(b: Byte): Hex {
    if 48 <= b < 58 then Hex(b - 48, false)
    else if 97 <= b < 103 then Hex(b - 87, false)
    else if 65 <= b < 71 then Hex(b - 55, true)
    else Hex(0, false)
  }

  lemma HexOfIs(b: Byte)
    requires HexValue(b).Some?
    ensures HexOf(b).value < 16 && HexOf(b).value == HexValue(b).value && HexText(HexOf(b)) as int == b && b < 0x80
  {
    var i := HexOf(b).value;
    assert i == 0 || i == 1 || i == 2 || i == 3 || i == 4 || i == 5 || i == 6 || i == 7 || i == 8 || i == 9 || i == 10
           || i == 11 || i == 12 || i == 13 || i == 14 || i == 15;
  }

  lemma HexRunHead(s: seq<Byte>, n: nat, acc: nat)
    requires 0 < n <= |s|
    ensures HexRun(s[..n], acc) ==
              match HexValue(s[0])
              case None => None
              case Some(d) => HexRun(s[1..][..n - 1], acc * 16 + d)
    ensures s[1..][n - 1..] == s[n..]
  {
    assert s[..n][1..] == s[1..][..n - 1];
  }

  lemma HexTextsHead(d: Hex, more: seq<Hex>)
    requires d.value < 16 && forall i :: 0 <= i < |more| ==> more[i].value < 16
    ensures HexTexts([d] + more) == [HexText(d)] + HexTexts(more)
  {
    hide HexText;
  }

  lemma CodeFromHead(d: Hex, more: seq<Hex>, acc: nat)
    ensures CodeFrom([d] + more, acc) == CodeFrom(more, acc * 16 + d.value)
  {
    assert ([d] + more)[1..] == more;
  }

  lemma {:induction false} HexCovered(t: string, n: nat, acc: nat) returns (digits: seq<Hex>)
    requires n <= |Bytes(t)| && HexRun(Bytes(t)[..n], acc).Some?
    ensures |digits| == n && forall i :: 0 <= i < n ==> digits[i].value < 16
    ensures n <= |t| && t == HexTexts(digits) + t[n..] && Bytes(t)[n..] == Bytes(t[n..])
    ensures HexRun(Bytes(t)[..n], acc) == Some(CodeFrom(digits, acc))
    decreases n
  {
    hide HexOf, HexText, HexValue, HexRun, CodeFrom, HexTexts, Bytes;
    if n == 0 {
      digits := [];
      NoHex(t, acc);
    } else {
      var s := Bytes(t);
      HexRunHead(s, n, acc);
      HexOfIs(s[0]);
      AsciiStart(t);
      var d := HexOf(s[0]);
      var more := HexCovered(t[1..], n - 1, acc * 16 + d.value);
      digits := [d] + more;
      HexTextsHead(d, more);
      CodeFromHead(d, more, acc);
      CharDrop(t, n);
      Grouped([HexText(d)], HexTexts(more), t[n..]);
    }
  }

  lemma NoHex(t: string, acc: nat)
    ensures t == HexTexts([]) + t[0..] && Bytes(t)[0..] == Bytes(t[0..])
    ensures HexRun(Bytes(t)[..0], acc) == Some(acc) && CodeFrom([], acc) == acc
  {
    assert t[0..] == t;
    hide Bytes;
  }

  lemma CharDrop(t: string, n: nat)
    requires t != "" && 0 < n <= |t|
    ensures t[1..][n - 1..] == t[n..]
  {
  }

  lemma LetterOf(b: Byte) returns (i: nat)
    requires SimpleEscape(b).Some?
    ensures i < |LETTERS| && LETTERS[i] as int == b && LETTER_CHARS[i] == SimpleEscape(b).value && b < 0x80 && b != 117
  {
    i := if b == 34 then 0 else if b == 92 then 1 else if b == 47 then 2 else if b == 98 then 3 else if b == 102 then 4
         else if b == 110 then 5 else if b == 114 then 6 else 7;
  }

  /** The four places of a code. */
  lemma FourCovered(t: string) returns (plus: bool, digits: seq<Hex>)
    requires |Bytes(t)| >= 4 && Hex4(Bytes(t)[..4]).Some?
    ensures |digits| == (if plus then 3 else 4) && forall i :: 0 <= i < |digits| ==> digits[i].value < 16
    ensures |t| >= 4 && t == (if plus then "+" else "") + HexTexts(digits) + t[4..] && Bytes(t)[4..] == Bytes(t[4..])
    ensures Hex4(Bytes(t)[..4]) == Some(CodeOf(digits))
  {
    var s := Bytes(t);
    plus := s[0] == 43;
    if plus {
      AsciiStart(t);
      assert s[..4][1..] == s[1..][..3];
      digits := HexCovered(t[1..], 3, 0);
      assert t[1..][3..] == t[4..] && s[1..][3..] == s[4..];
      assert t == "+" + HexTexts(digits) + t[4..];
    } else {
      digits := HexCovered(t, 4, 0);
      assert "" + HexTexts(digits) == HexTexts(digits);
    }
    CodeFromIs(digits);
  }

  lemma CodeCovered(t: string) returns (sp: Spelling, u: string)
    requires |Bytes(t)| >= 2 && Bytes(t)[0] == 92 && Bytes(t)[1] == 117 && StringChar(Bytes(t)).Parsed?
    ensures ProperSpelling(sp) && t == SpellingText(sp) + u
    ensures StringChar(Bytes(t)) == Parsed(SpellingChar(sp), Bytes(u))
  {
    var s := Bytes(t);
    AsciiStart(t);
    assert s[1..][0] == s[1];
    AsciiStart(t[1..]);
    var t2 := t[1..][1..];
    assert Bytes(t2) == s[1..][1..] && s[1..][1..] == s[2..];
    assert s[2..6] == s[2..][..4];
    hide Hex4;
    var plus, digits := FourCovered(t2);
    sp, u := Code(plus, digits), t2[4..];
    assert s[2..][4..] == s[6..];
    assert t == ['\\'] + (['u'] + t2);
    BackslashU((if plus then "+" else "") + HexTexts(digits) + u);
    Grouped("\\u", (if plus then "+" else "") + HexTexts(digits), u);
    Grouped("\\u", if plus then "+" else "", HexTexts(digits));
  }

  lemma CharCovered(t: string) returns (sp: Spelling, u: string)
    requires Bytes(t) != [] && Bytes(t)[0] != 34 && StringChar(Bytes(t)).Parsed?
    ensures ProperSpelling(sp) && t == SpellingText(sp) + u
    ensures StringChar(Bytes(t)) == Parsed(SpellingChar(sp), Bytes(u))
  {
    var s := Bytes(t);
    if s[0] != 92 {
      assert t != "";
      FirstByte(t);
      assert s == EncodeChar(t[0]) + Bytes(t[1..]);
      StepOfEncoded(t[0], Bytes(t[1..]));
      sp, u := Raw(t[0]), t[1..];
      assert t == [t[0]] + t[1..];
    } else if s[1] == 117 {
      sp, u := CodeCovered(t);
    } else {
      AsciiStart(t);
      assert s[1..][0] == s[1];
      var i := LetterOf(s[1]);
      AsciiStart(t[1..]);
      sp, u := Short(i), t[1..][1..];
      assert s[1..][1..] == s[2..];
      assert t == "\\" + [LETTERS[i]] + u;
    }
  }

  lemma {:induction false} StringCovered(t: string, read: string) returns (chars: seq<Spelling>, u: string)
    requires ParseString(Bytes(t), read).Parsed?
    ensures ProperString(chars) && t == StringBody(chars) + ("\"" + u)
    ensures ParseString(Bytes(t), read) == Parsed(read + StringMeaning(chars), Bytes(u))
    decreases |Bytes(t)|
  {
    hide StringChar, SpellingText, SpellingChar, ProperSpelling, EncodeChar;
    var s := Bytes(t);
    if s[0] == 34 {
      AsciiStart(t);
      chars, u := [], t[1..];
      assert read + StringMeaning([]) == read;
      assert t == "" + ("\"" + u);
    } else {
      var sp, t1 := CharCovered(t);
      var more, u1 := StringCovered(t1, read + [SpellingChar(sp)]);
      chars, u := [sp] + more, u1;
      assert chars[1..] == more;
      assert read + [SpellingChar(sp)] + StringMeaning(more) == read + StringMeaning(chars);
      Grouped(SpellingText(sp), StringBody(more), "\"" + u);
    }
  }

  // --- numbers ----------------------------------------------------------------------------------

  /** As long as the bytes are ASCII they are the characters. */
  lemma {:induction false} AsciiPrefix(t: string, k: nat)
    requires k <= |Bytes(t)| && forall i :: 0 <= i < k ==> Bytes(t)[i] < 0x80
    ensures k <= |t| && Bytes(t[k..]) == Bytes(t)[k..]
    ensures forall i :: 0 <= i < k ==> t[i] as int == Bytes(t)[i]
  {
    if k > 0 {
      var s := Bytes(t);
      AsciiStart(t);
      assert forall i :: 0 <= i < k - 1 ==> s[1..][i] == s[i + 1];
      AsciiPrefix(t[1..], k - 1);
      hide Bytes;
      assert t[1..][k - 1..] == t[k..] && s[1..][k - 1..] == s[k..];
      forall i | 0 <= i < k ensures t[i] as int == s[i] {
        if i > 0 { assert t[i] == t[1..][i - 1] && s[i] == s[1..][i - 1]; }
      }
    } else {
      assert t[0..] == t && Bytes(t)[0..] == Bytes(t);
    }
  }

  /** What stands at the places of a number. */
  predicate ByteShape(s: seq<Byte>, p: NumberShape) {
    var mark := p.end - p.expDigits;
    s != [] && p.sign <= p.int_ <= p.frac <= mark <= p.end <= |s|
    && p.sign <= 1 && (p.sign == 1 <==> s[0] == 45) && mark <= p.frac + 2
    && (forall i :: p.sign <= i < p.int_ ==> IsDigit(s[i]))
    && (p.int_ < p.frac ==> s[p.int_] == 46 && forall i :: p.int_ < i < p.frac ==> IsDigit(s[i]))
    && (p.frac == mark ==> p.expDigits == 0)
    && (p.frac < mark ==> s[p.frac] == 101 || s[p.frac] == 69)
    && (mark == p.frac + 2 ==> s[p.frac + 1] == 43 || s[p.frac + 1] == 45)
    && (forall i :: mark <= i < p.end ==> IsDigit(s[i]))
  }

  lemma ShapeBytes(s: seq<Byte>)
    requires s != []
    ensures ByteShape(s, Shape(s))
  {
    var p := Shape(s);
    ShapeParts(s);
    hide Shape, FracLength, ExpMark, ExpDigits, DigitCount, IsDigit;
    FractionBytesAt(s, p.int_);
    ExponentBytesAt(s, p.frac);
  }

  lemma ShapeParts(s: seq<Byte>)
    requires s != []
    ensures var p := Shape(s);
            (p.sign == if s[0] == 45 then 1 else 0) && (forall i :: p.sign <= i < p.int_ ==> IsDigit(s[i]))
            && p.frac == p.int_ + FracLength(s[p.int_..])
            && p.end == p.frac + ExpMark(s[p.frac..]) + ExpDigits(s[p.frac..]) && p.expDigits == ExpDigits(s[p.frac..])
  {
    hide FracLength, ExpMark, ExpDigits, DigitCount, IsDigit;
  }

  lemma FractionBytesAt(s: seq<Byte>, k: nat)
    requires k <= |s|
    ensures var n := FracLength(s[k..]);
            k + n <= |s| && (n > 0 ==> s[k] == 46 && forall i :: k < i < k + n ==> IsDigit(s[i]))
  {
    var n := FracLength(s[k..]);
    if n > 0 {
      forall i | k < i < k + n ensures IsDigit(s[i]) { assert s[i] == s[k..][1..][i - k - 1]; }
    }
  }

  lemma ExponentBytesAt(s: seq<Byte>, k: nat)
    requires k <= |s|
    ensures var m, n := ExpMark(s[k..]), ExpDigits(s[k..]);
            k + m + n <= |s| && m <= 2 && (m == 0 ==> n == 0)
            && (m > 0 ==> s[k] == 101 || s[k] == 69) && (m == 2 ==> s[k + 1] == 43 || s[k + 1] == 45)
            && (forall i :: k + m <= i < k + m + n ==> IsDigit(s[i]))
  {
    var m, n := ExpMark(s[k..]), ExpDigits(s[k..]);
    if m > 0 {
      forall i | k + m <= i < k + m + n ensures IsDigit(s[i]) { assert s[i] == s[k..][m..][i - k - m]; }
    }
  }

  /** The numeral that stands at the start of a text, given where its parts end. */
  function NumeralAt(t: string, p: NumberShape): Numeral
    requires p.sign <= p.int_ <= p.frac <= p.end - p.expDigits <= p.end <= |t|
  {
    Numeral(p.sign == 1, t[p.sign..p.int_], if p.int_ < p.frac then Some(t[p.int_ + 1..p.frac]) else None,
            ExponentAt(t, p.frac, p.end - p.expDigits, p.end))
  }

  function ExponentAt(t: string, from: nat, mark: nat, end: nat): Option<Exponent>
    requires from <= mark <= end <= |t|
  {
    if from < mark then Some(Exponent(t[from..from + 1], t[from + 1..mark], t[mark..end])) else None
  }

  predicate Fits(t: string, p: NumberShape) {
    p.sign <= 1 && p.sign <= p.int_ <= p.frac <= p.end - p.expDigits <= p.end <= |t|
    && (p.sign == 1 ==> t[0] == '-') && DecimalDigits(t[p.sign..p.int_])
    && (p.int_ < p.frac ==> t[p.int_] == '.' && DecimalDigits(t[p.int_ + 1..p.frac]))
    && var mark := p.end - p.expDigits;
       DecimalDigits(t[mark..p.end]) && mark <= p.frac + 2
       && (p.frac == mark ==> p.expDigits == 0)
       && (p.frac < mark ==> t[p.frac] == 'e' || t[p.frac] == 'E')
       && (mark == p.frac + 2 ==> t[p.frac + 1] == '+' || t[p.frac + 1] == '-')
  }

  lemma AllAscii(s: seq<Byte>, p: NumberShape)
    requires ByteShape(s, p)
    ensures forall i :: 0 <= i < p.end ==> s[i] < 0x80
  {
  }

  lemma FitsFrom(s: seq<Byte>, t: string, p: NumberShape)
    requires ByteShape(s, p) && p.end <= |t| && forall i :: 0 <= i < p.end ==> t[i] as int == s[i]
    ensures Fits(t, p)
  {
    assert forall i :: p.sign <= i < p.int_ ==> '0' <= t[i] <= '9';
    assert p.int_ < p.frac ==> forall i :: p.int_ < i < p.frac ==> '0' <= t[i] <= '9';
    assert forall i :: p.end - p.expDigits <= i < p.end ==> '0' <= t[i] <= '9';
  }

  /** The scanned bytes are the characters at the start of the text. */
  lemma ShapeFits(t: string)
    requires Bytes(t) != []
    ensures var p := Shape(Bytes(t));
            ByteShape(Bytes(t), p) && Fits(t, p) && Bytes(t[p.end..]) == Bytes(t)[p.end..]
            && forall i :: 0 <= i < p.end ==> t[i] as int == Bytes(t)[i]
  {
    hide *;
    var s := Bytes(t);
    var p := Shape(s);
    ShapeBytes(s);
    AllAscii(s, p);
    AsciiPrefix(t, p.end);
    FitsFrom(s, t, p);
  }

  lemma PartTexts(t: string, p: NumberShape)
    requires Fits(t, p)
    ensures var n := NumeralAt(t, p);
            SignText(n) == t[..p.sign] && n.whole == t[p.sign..p.int_] && ExponentCount(n) == p.expDigits
  {
  }

  lemma FractionPart(t: string, p: NumberShape)
    requires Fits(t, p)
    ensures FractionText(NumeralAt(t, p)) == t[p.int_..p.frac]
  {
    hide DecimalDigits;
  }

  lemma TwoPieces(t: string, a: nat, b: nat, c: nat)
    requires a <= b <= c <= |t|
    ensures t[a..b] + t[b..c] == t[a..c]
  {
  }

  lemma ExponentPieces(t: string, from: nat, mark: nat, end: nat)
    requires from < mark <= end <= |t|
    ensures t[from..from + 1] + t[from + 1..mark] + t[mark..end] == t[from..end]
  {
    TwoPieces(t, from, from + 1, mark);
    TwoPieces(t, from, mark, end);
  }

  lemma FitsExponent(t: string, p: NumberShape)
    requires Fits(t, p)
    ensures NumeralAt(t, p).exponent == ExponentAt(t, p.frac, p.end - p.expDigits, p.end)
    ensures p.frac == p.end - p.expDigits ==> p.frac == p.end
  {
    hide DecimalDigits;
  }

  lemma ExponentPart(t: string, p: NumberShape)
    requires Fits(t, p)
    ensures ExponentText(NumeralAt(t, p)) == t[p.frac..p.end]
  {
    FitsBounds(t, p);
    FitsExponent(t, p);
    hide DecimalDigits, NumeralAt, Fits;
    if p.frac < p.end - p.expDigits { ExponentPieces(t, p.frac, p.end - p.expDigits, p.end); }
  }

  lemma PiecesJoin(t: string, a: nat, b: nat, c: nat, d: nat)
    requires a <= b <= c <= d <= |t|
    ensures t[..a] + t[a..b] + t[b..c] + t[c..d] == t[..d]
    ensures t == t[..d] + t[d..]
  {
    assert t[..a] + t[a..b] == t[..b];
    assert t[..b] + t[b..c] == t[..c];
    assert t[..c] + t[c..d] == t[..d];
  }

  lemma NumeralAtIs(t: string, p: NumberShape)
    requires Fits(t, p)
    ensures var n := NumeralAt(t, p);
            NumeralText(n) == t[..p.end] && |SignText(n)| == p.sign && |n.whole| == p.int_ - p.sign
            && |FractionText(n)| == p.frac - p.int_ && |ExponentText(n)| == p.end - p.frac
            && ExponentCount(n) == p.expDigits
  {
    PartTexts(t, p);
    FractionPart(t, p);
    ExponentPart(t, p);
    PiecesJoin(t, p.sign, p.int_, p.frac, p.end);
    hide SignText, FractionText, ExponentText, NumeralAt, DecimalDigits, ExponentCount;
  }

  lemma NumeralAtProper(t: string, p: NumberShape)
    requires Fits(t, p) && (p.sign < p.int_ || (p.sign == 1 && p.int_ + 1 < p.frac))
    requires p.frac < p.end - p.expDigits ==> p.expDigits > 0
    ensures ProperNumeral(NumeralAt(t, p))
  {
  }

  lemma NumberCovered(t: string) returns (n: Numeral, u: string)
    requires Bytes(t) != [] && (Bytes(t)[0] == 45 || IsDigit(Bytes(t)[0])) && ParseNumber(Bytes(t)).Parsed?
    ensures ProperNumeral(n) && t == NumeralText(n) + u
    ensures ParseNumber(Bytes(t)) == Parsed(NumeralMeaning(n), Bytes(u))
  {
    var s := Bytes(t);
    var p := Shape(s);
    hide *;
    ShapeFits(t);
    FitsBounds(t, p);
    n, u := NumeralAt(t, p), t[p.end..];
    NumeralAtIs(t, p);
    NumberRefuses(s);
    NumeralAtProper(t, p);
    SlicesAgree(t, p);
    PiecesJoin(t, 0, 0, 0, p.end);
    ShapeOfIs(n);
    NumberMeans(s, n);
  }

  lemma FitsBounds(t: string, p: NumberShape)
    requires Fits(t, p)
    ensures p.sign <= p.int_ <= p.frac <= p.end - p.expDigits <= p.end <= |t|
  {
  }

  /** What a number needs to be accepted. */
  lemma NumberRefuses(s: seq<Byte>)
    requires s != [] && (s[0] == 45 || IsDigit(s[0])) && ParseNumber(s).Parsed?
    ensures var p := Shape(s);
            (p.sign < p.int_ || (p.sign == 1 && p.int_ + 1 < p.frac))
            && (p.frac < p.end - p.expDigits ==> p.expDigits > 0)
  {
    hide FracLength, ExpMark, ExpDigits, Integer;
  }

  lemma SameCharacters(s: seq<Byte>, t: string, a: nat, b: nat)
    requires a <= b <= |s| && b <= |t| && forall i :: 0 <= i < b ==> t[i] as int == s[i] < 0x80
    ensures s[a..b] == Bytes(t[a..b])
  {
    assert forall i :: 0 <= i < b - a ==> t[a..b][i] < '\U{80}';
    AsciiBytes(t[a..b]);
    hide Bytes;
  }

  lemma SlicesAgree(t: string, p: NumberShape)
    requires ByteShape(Bytes(t), p) && Fits(t, p) && forall i :: 0 <= i < p.end ==> t[i] as int == Bytes(t)[i]
    ensures var s, n := Bytes(t), NumeralAt(t, p);
            s[p.sign..p.int_] == Bytes(n.whole) && s[..p.end] == Bytes(NumeralText(n))
  {
    var s := Bytes(t);
    AllAscii(s, p);
    NumeralAtIs(t, p);
    PartTexts(t, p);
    SameCharacters(s, t, p.sign, p.int_);
    SameCharacters(s, t, 0, p.end);
    hide Bytes, ByteShape, Fits, NumeralAt, NumeralText;
    assert s[0..p.end] == s[..p.end] && t[0..p.end] == t[..p.end];
  }

  // --- documents --------------------------------------------------------------------------------

  /** The text starts with a document of this meaning and goes on with `u`. */
  ghost predicate Covers(t: string, depth: nat, d: Syntax, u: string) {
    Proper(d) && t == Print(d) + u && ParseValue(Bytes(t), depth) == Parsed(Meaning(d), Bytes(u))
    && depth + Nesting(d) <= MAX_DEPTH
  }

  lemma WordCovered(t: string, word: string, v: Value) returns (u: string)
    requires (word == "null" || word == "true" || word == "false") && Literal(Bytes(t), word, v).Parsed?
    ensures t == word + u && Literal(Bytes(t), word, v) == Parsed(v, Bytes(u))
  {
    var s, k := Bytes(t), |word|;
    AsciiBytes(word);
    assert s[..k] == Bytes(word);
    hide Bytes;
    forall i | 0 <= i < k ensures s[i] < 0x80 && s[i] == word[i] as int { assert s[i] == s[..k][i]; }
    AsciiPrefix(t, k);
    u := t[k..];
    WordAtStart(t, word);
  }

  lemma WordAtStart(t: string, word: string)
    requires |word| <= |t| && forall i :: 0 <= i < |word| ==> t[i] as int == word[i] as int
    ensures t == word + t[|word|..]
  {
    assert t == t[..|word|] + t[|word|..];
    assert t[..|word|] == word;
  }

  /** How `value` starts tells what it is. */
  lemma Kinds(s: seq<Byte>, depth: nat)
    requires ParseValue(s, depth).Parsed?
    ensures depth <= MAX_DEPTH && s != []
    ensures s[0] == 123 || s[0] == 91 || s[0] == 34 || s[0] == 116 || s[0] == 102 || s[0] == 110 || s[0] == 45
            || IsDigit(s[0])
    ensures s[0] == 34 ==> ParseString(s[1..], "").Parsed?
    ensures s[0] == 116 ==> ParseValue(s, depth) == Literal(s, "true", Bool(true))
    ensures s[0] == 102 ==> ParseValue(s, depth) == Literal(s, "false", Bool(false))
    ensures s[0] == 110 ==> ParseValue(s, depth) == Literal(s, "null", Null)
  {
    hide ParseObject, ParseArray, ParseString, Literal, ParseNumber;
  }

  lemma TextCovered(t: string, depth: nat) returns (d: Syntax, u: string)
    requires ParseValue(Bytes(t), depth).Parsed? && Bytes(t)[0] == 34
    ensures Covers(t, depth, d, u)
  {
    var s := Bytes(t);
    Kinds(s, depth);
    ScalarDispatch(s, depth);
    AsciiStart(t);
    hide Bytes, ParseValue, ParseString, StringMeaning;
    var chars, u' := StringCovered(t[1..], "");
    d, u := Text(chars), u';
    QuoteSplits(chars, u);
    assert "" + StringMeaning(chars) == StringMeaning(chars);
  }

  lemma QuoteSplits(chars: seq<Spelling>, u: string)
    requires ProperString(chars)
    ensures ['"'] + (StringBody(chars) + ("\"" + u)) == Quote(chars) + u
  {
    QuoteAround(StringBody(chars), u);
    hide StringBody;
  }

  lemma QuoteAround(b: string, u: string)
    ensures ['"'] + (b + ("\"" + u)) == "\"" + b + "\"" + u
  {
  }

  lemma WordsCovered(t: string, depth: nat) returns (d: Syntax, u: string)
    requires ParseValue(Bytes(t), depth).Parsed? && Bytes(t)[0] in {116, 102, 110}
    ensures Covers(t, depth, d, u)
  {
    var s := Bytes(t);
    Kinds(s, depth);
    hide Bytes, ParseValue, Literal;
    if s[0] == 116 {
      d := TrueWord;
      u := WordCovered(t, "true", Bool(true));
    } else if s[0] == 102 {
      d := FalseWord;
      u := WordCovered(t, "false", Bool(false));
    } else {
      d := NullWord;
      u := WordCovered(t, "null", Null);
    }
  }

  lemma NumeralCovered(t: string, depth: nat) returns (d: Syntax, u: string)
    requires ParseValue(Bytes(t), depth).Parsed? && (Bytes(t)[0] == 45 || IsDigit(Bytes(t)[0]))
    ensures Covers(t, depth, d, u)
  {
    hide *;
    Kinds(Bytes(t), depth);
    ScalarDispatch(Bytes(t), depth);
    var n, u' := NumberCovered(t);
    d, u := Number(n), u';
    NumberCovers(t, depth, n, u);
  }

  lemma NumberCovers(t: string, depth: nat, n: Numeral, u: string)
    requires ProperNumeral(n) && t == NumeralText(n) + u && depth <= MAX_DEPTH
    requires ParseValue(Bytes(t), depth) == Parsed(NumeralMeaning(n), Bytes(u))
    ensures Covers(t, depth, Number(n), u)
  {
    hide NumeralText, ProperNumeral, NumeralMeaning, ParseValue, Bytes;
  }

  lemma {:induction false} ValueCovered(t: string, depth: nat) returns (d: Syntax, u: string)
    requires ParseValue(Bytes(t), depth).Parsed?
    ensures Covers(t, depth, d, u)
    decreases |Bytes(t)|, 2
  {
    hide *;
    var s := Bytes(t);
    Kinds(s, depth);
    ScalarDispatch(s, depth);
    if s[0] == 34 {
      d, u := TextCovered(t, depth);
    } else if s[0] in {116, 102, 110} {
      d, u := WordsCovered(t, depth);
    } else if s[0] == 91 {
      d, u := ListCovered(t, depth);
    } else if s[0] == 123 {
      d, u := DictCovered(t, depth);
    } else {
      d, u := NumeralCovered(t, depth);
    }
  }

  lemma ListCovered(t: string, depth: nat) returns (d: Syntax, u: string)
    requires depth <= MAX_DEPTH && Bytes(t) != [] && Bytes(t)[0] == 91
    requires ParseValue(Bytes(t), depth) == ParseArray(Bytes(t)[1..], depth) && ParseValue(Bytes(t), depth).Parsed?
    ensures Covers(t, depth, d, u)
    decreases |Bytes(t)|, 1
  {
    AsciiStart(t);
    hide ParseValue, ParseItems, Bytes, Print, Meaning, Nesting, Proper;
    var w, t1 := Skipped(t[1..]);
    if Bytes(t1) != [] && Bytes(t1)[0] == 93 {
      AsciiStart(t1);
      d, u := List(w, []), t1[1..];
      ListPrints(w, [], u);
      Grouped(w, [']'], u);
      EmptyMeanings();
    } else {
      var items, u' := ItemsCovered(t1, depth, []);
      ItemsMoved(items, w, t1, u');
      d, u := List("", Lead(items, w)), u';
      ListPrints("", Lead(items, w), u);
      assert [] + ItemMeanings(items) == ItemMeanings(items);
    }
  }

  lemma EmptyMeanings()
    ensures ItemMeanings([]) == [] && FieldMeanings([], []) == [] && ItemsNesting([]) == 0 && FieldsNesting([]) == 0
  {
  }

  lemma ListPrints(gap: string, items: seq<Item>, u: string)
    requires Blank(gap) && ProperItems(items)
    ensures Print(List(gap, items)) + u == ['['] + ((if items == [] then gap else PrintItems(items)) + ([']'] + u))
    ensures Proper(List(gap, items)) && Meaning(List(gap, items)) == Arr(ItemMeanings(items))
    ensures Nesting(List(gap, items)) == ItemsNesting(items)
  {
    hide PrintItems, ItemMeanings, ItemsNesting;
  }

  lemma DictPrints(gap: string, fields: seq<Field>, u: string)
    requires Blank(gap) && ProperFields(fields)
    ensures Print(Dict(gap, fields)) + u == ['{'] + ((if fields == [] then gap else PrintFields(fields)) + (['}'] + u))
    ensures Proper(Dict(gap, fields)) && Meaning(Dict(gap, fields)) == Obj(FieldMeanings(fields, []))
    ensures Nesting(Dict(gap, fields)) == FieldsNesting(fields)
  {
    hide PrintFields, FieldMeanings, FieldsNesting;
  }

  /** White space before the first item belongs to it. */
  function Lead(items: seq<Item>, w: string): seq<Item>
    requires items != []
  {
    [items[0].(before := w + items[0].before)] + items[1..]
  }

  lemma ItemsMoved(items: seq<Item>, w: string, t: string, u: string)
    requires items != [] && ProperItems(items) && Blank(w) && t == PrintItems(items) + ("]" + u)
    ensures var led := Lead(items, w);
            ProperItems(led) && w + t == PrintItems(led) + ([']'] + u) && ItemMeanings(led) == ItemMeanings(items)
            && ItemsNesting(led) == ItemsNesting(items)
  {
    var led := Lead(items, w);
    assert led[1..] == items[1..];
    ItemsUnrolled(items);
    var i := items[0];
    var rest := if items[1..] == [] then "" else "," + PrintItems(items[1..]);
    ItemParts(i, rest, "]" + u);
    assert ProperItem(led[0]);
    ItemParts(led[0], rest, "]" + u);
    ItemsUnrolled(led);
    Grouped(w, i.before, Print(i.value) + (i.after + (rest + ("]" + u))));
    hide Print, PrintItem, PrintItems, Meaning, Nesting;
  }

  function FieldLead(fields: seq<Field>, w: string): seq<Field>
    requires fields != []
  {
    [fields[0].(before := w + fields[0].before)] + fields[1..]
  }

  lemma FieldsMoved(fields: seq<Field>, w: string, t: string, u: string)
    requires fields != [] && ProperFields(fields) && Blank(w) && t == PrintFields(fields) + ("}" + u)
    ensures var led := FieldLead(fields, w);
            ProperFields(led) && w + t == PrintFields(led) + (['}'] + u)
            && FieldMeanings(led, []) == FieldMeanings(fields, []) && FieldsNesting(led) == FieldsNesting(fields)
  {
    var led := FieldLead(fields, w);
    assert led[1..] == fields[1..];
    FieldsUnrolled(fields, []);
    var f := fields[0];
    var rest := if fields[1..] == [] then "" else "," + PrintFields(fields[1..]);
    FieldParts(f, rest, "}" + u);
    assert ProperField(led[0]);
    FieldParts(led[0], rest, "}" + u);
    FieldsUnrolled(led, []);
    Grouped(w, f.before, Quote(f.key) + (f.beforeColon + ([':'] + (f.afterColon + (Print(f.value)
                         + (f.after + (rest + ("}" + u))))))));
    hide Print, PrintField, PrintFields, Meaning, Nesting, FieldMeanings;
  }

  lemma DictCovered(t: string, depth: nat) returns (d: Syntax, u: string)
    requires depth <= MAX_DEPTH && Bytes(t) != [] && Bytes(t)[0] == 123
    requires ParseValue(Bytes(t), depth) == ParseObject(Bytes(t)[1..], depth) && ParseValue(Bytes(t), depth).Parsed?
    ensures Covers(t, depth, d, u)
    decreases |Bytes(t)|, 1
  {
    AsciiStart(t);
    hide ParseValue, ParseFields, Bytes, Print, Meaning, Nesting, Proper;
    var w, t1 := Skipped(t[1..]);
    if Bytes(t1) != [] && Bytes(t1)[0] == 125 {
      AsciiStart(t1);
      d, u := Dict(w, []), t1[1..];
      DictPrints(w, [], u);
      Grouped(w, ['}'], u);
      EmptyMeanings();
    } else {
      var fields, u' := FieldsCovered(t1, depth, []);
      FieldsMoved(fields, w, t1, u');
      d, u := Dict("", FieldLead(fields, w)), u';
      DictPrints("", FieldLead(fields, w), u);
    }
  }

  /** The item loop, stated on bytes alone. */
  lemma ItemsGoOn(s: seq<Byte>, depth: nat, read: seq<Value>)
    requires ParseItems(s, depth, read).Parsed?
    ensures var r := ParseValue(SkipSpace(s), depth + 1);
            r.Parsed?
            && var t := SkipSpace(r.rest);
               t != [] && (t[0] == 44 || t[0] == 93)
               && ParseItems(s, depth, read) ==
                    (if t[0] == 44 then ParseItems(t[1..], depth, read + [r.value])
                     else Parsed(Arr(read + [r.value]), t[1..]))
  {
    hide ParseValue, SkipSpace;
  }

  lemma {:induction false} ItemsCovered(t: string, depth: nat, read: seq<Value>) returns (items: seq<Item>, u: string)
    requires depth <= MAX_DEPTH && ParseItems(Bytes(t), depth, read).Parsed?
    ensures items != [] && ProperItems(items) && t == PrintItems(items) + ("]" + u)
    ensures ParseItems(Bytes(t), depth, read) == Parsed(Arr(read + ItemMeanings(items)), Bytes(u))
    ensures depth + ItemsNesting(items) <= MAX_DEPTH
    decreases |Bytes(t)|, 3
  {
    hide ParseValue, ParseItems, SkipSpace, Bytes, Print, PrintItem, PrintItems, Meaning, Nesting, Proper, ItemMeanings,
         ItemsNesting, Blank;
    ItemsGoOn(Bytes(t), depth, read);
    var w, t1 := Skipped(t);
    Shorter(w, t1);
    var d, u1 := ValueCovered(t1, depth + 1);
    var w', t2 := Skipped(u1);
    Shorter(Print(d), u1);
    Shorter(w', t2);
    AsciiStart(t2);
    ShorterByOne(t2);
    var i := Item(w, d, w');
    if Bytes(t2)[0] == 93 {
      items, u := [i], t2[1..];
      OneItem(i);
      ItemParts(i, "", "]" + u);
    } else {
      var more, u' := ItemsCovered(t2[1..], depth, read + [Meaning(d)]);
      items, u := [i] + more, u';
      MoreItems(i, more);
      ItemParts(i, "," + PrintItems(more), "]" + u);
      TailOf(PrintItems(more), "]", u);
    }
    Gathered(read, Meaning(d), if Bytes(t2)[0] == 93 then [] else ItemMeanings(items[1..]));
  }

  lemma Shorter(a: string, b: string)
    ensures |Bytes(b)| <= |Bytes(a + b)|
  {
    BytesConcat(a, b);
  }

  lemma ShorterByOne(t: string)
    requires t != ""
    ensures |Bytes(t[1..])| < |Bytes(t)|
  {
  }

  lemma OneItem(i: Item)
    requires ProperItem(i)
    ensures ProperItems([i]) && PrintItems([i]) == PrintItem(i) + "" && ItemMeanings([i]) == [Meaning(i.value)]
    ensures ItemsNesting([i]) == 1 + Nesting(i.value)
  {
    ItemsUnrolled([i]);
  }

  lemma MoreItems(i: Item, more: seq<Item>)
    requires ProperItem(i) && more != [] && ProperItems(more)
    ensures var items := [i] + more;
            ProperItems(items) && PrintItems(items) == PrintItem(i) + ("," + PrintItems(more))
            && ItemMeanings(items) == [Meaning(i.value)] + ItemMeanings(more) && items[1..] == more
            && ItemsNesting(items) == Max(1 + Nesting(i.value), ItemsNesting(more))
  {
    assert ([i] + more)[1..] == more;
    hide Print, Meaning, Nesting, Proper;
    ItemsUnrolled([i] + more);
  }

  /** The field loop, stated on bytes alone. */
  lemma FieldsGoOn(s: seq<Byte>, depth: nat, read: seq<Entry<Value>>)
    requires ParseFields(s, depth, read).Parsed?
    ensures var k := ParseKey(s);
            k.Parsed?
            && var r := ParseValue(k.rest, depth + 1);
               r.Parsed?
               && var t := SkipSpace(r.rest);
                  t != [] && (t[0] == 44 || t[0] == 125)
                  && ParseFields(s, depth, read) ==
                       (if t[0] == 44 then ParseFields(t[1..], depth, Insert(read, k.value, r.value))
                        else Parsed(Obj(Insert(read, k.value, r.value)), t[1..]))
  {
    hide ParseValue, SkipSpace, ParseKey, Insert;
  }

  lemma KeyGoesOn(s: seq<Byte>)
    requires ParseKey(s).Parsed?
    ensures var t := SkipSpace(s);
            t != [] && t[0] == 34 && ParseString(t[1..], "").Parsed?
            && var r := ParseString(t[1..], "");
               var v := SkipSpace(r.rest);
               v != [] && v[0] == 58 && ParseKey(s) == Parsed(r.value, SkipSpace(v[1..]))
  {
    hide ParseString, SkipSpace;
  }

  /** A key, its colon, and the white space around both. */
  lemma KeyCovered(t: string) returns (w: string, key: seq<Spelling>, w1: string, w2: string, u: string)
    requires ParseKey(Bytes(t)).Parsed?
    ensures Blank(w) && ProperString(key) && Blank(w1) && Blank(w2)
    ensures t == w + (Quote(key) + (w1 + ([':'] + (w2 + u))))
            && ParseKey(Bytes(t)) == Parsed(StringMeaning(key), Bytes(u))
  {
    hide ParseKey, ParseString, SkipSpace, Bytes, Blank, StringMeaning, Quote;
    KeyGoesOn(Bytes(t));
    var t1: string;
    w, t1 := Skipped(t);
    AsciiStart(t1);
    var u1: string;
    key, u1 := StringCovered(t1[1..], "");
    assert "" + StringMeaning(key) == StringMeaning(key);
    var t2: string;
    w1, t2 := Skipped(u1);
    AsciiStart(t2);
    w2, u := Skipped(t2[1..]);
    QuoteSplits(key, u1);
  }

  lemma {:induction false} FieldsCovered(t: string, depth: nat, read: seq<Entry<Value>>)
      returns (fields: seq<Field>, u: string)
    requires depth <= MAX_DEPTH && ParseFields(Bytes(t), depth, read).Parsed?
    ensures fields != [] && ProperFields(fields) && t == PrintFields(fields) + ("}" + u)
    ensures ParseFields(Bytes(t), depth, read) == Parsed(Obj(FieldMeanings(fields, read)), Bytes(u))
    ensures depth + FieldsNesting(fields) <= MAX_DEPTH
    decreases |Bytes(t)|, 3
  {
    hide ParseValue, ParseFields, ParseKey, SkipSpace, Bytes, Print, PrintField, PrintFields, Meaning, Nesting, Proper,
         FieldMeanings, FieldsNesting, Blank, Quote, StringMeaning, Insert;
    FieldsGoOn(Bytes(t), depth, read);
    var w, key, w1, w2, t1 := KeyCovered(t);
    BeforeValue(w, Quote(key), w1, w2, t1);
    Shorter(w + Quote(key) + w1 + [':'] + w2, t1);
    var d, u1 := ValueCovered(t1, depth + 1);
    var w', t2 := Skipped(u1);
    Shorter(Print(d), u1);
    Shorter(w', t2);
    AsciiStart(t2);
    ShorterByOne(t2);
    var f := Field(w, key, w1, w2, d, w');
    if Bytes(t2)[0] == 125 {
      fields, u := [f], t2[1..];
      OneField(f, read);
      FieldParts(f, "", "}" + u);
    } else {
      var more, u' := FieldsCovered(t2[1..], depth, Insert(read, StringMeaning(key), Meaning(d)));
      fields, u := [f] + more, u';
      MoreFields(f, more, read);
      FieldParts(f, "," + PrintFields(more), "}" + u);
      TailOf(PrintFields(more), "}", u);
    }
  }

  lemma BeforeValue(w: string, k: string, w1: string, w2: string, t: string)
    ensures w + (k + (w1 + ([':'] + (w2 + t)))) == w + k + w1 + [':'] + w2 + t
  {
  }

  lemma OneField(f: Field, read: seq<Entry<Value>>)
    requires ProperField(f)
    ensures ProperFields([f]) && PrintFields([f]) == PrintField(f) + ""
    ensures FieldMeanings([f], read) == Insert(read, StringMeaning(f.key), Meaning(f.value))
    ensures FieldsNesting([f]) == 1 + Nesting(f.value)
  {
    FieldsUnrolled([f], read);
  }

  lemma MoreFields(f: Field, more: seq<Field>, read: seq<Entry<Value>>)
    requires ProperField(f) && more != [] && ProperFields(more)
    ensures var fields := [f] + more;
            ProperFields(fields) && PrintFields(fields) == PrintField(f) + ("," + PrintFields(more))
            && FieldMeanings(fields, read) == FieldMeanings(more, Insert(read, StringMeaning(f.key), Meaning(f.value)))
            && FieldsNesting(fields) == Max(1 + Nesting(f.value), FieldsNesting(more))
  {
    FieldsCons(f, more);
    hide *;
    FieldsUnrolled([f] + more, read);
  }

  lemma FieldsCons(f: Field, more: seq<Field>)
    requires ProperField(f) && ProperFields(more)
    ensures ([f] + more)[0] == f && ([f] + more)[1..] == more && ProperFields([f] + more)
  {
    assert ([f] + more)[1..] == more;
    hide ProperField;
  }

  // --- the whole text ---------------------------------------------------------------------------

  /** The text is a proper document of this meaning, nested at most 64 levels, with white space around it. */
  ghost predicate Spells(text: string, v: Value) {
    exists before: string, d: Syntax, after: string ::
      Blank(before) && Proper(d) && Blank(after) && Nesting(d) <= MAX_DEPTH && Meaning(d) == v
      && text == before + Print(d) + after
  }

  /** Exactly the texts that spell a document are accepted, and each as what it means. */
  lemma ParsesIff(text: string, v: Value)
    ensures Parse(text) == Some(v) <==> Spells(text, v)
  {
    hide Print, Meaning, Nesting, Proper, Bytes, ParseValue, Blank;
    if Parse(text) == Some(v) {
      var before, t := Skipped(text);
      hide Parse;
      ParsedParts(text, v);
      var d, u := ValueCovered(t, 0);
      var after, end := Skipped(u);
      EmptyEnd(end);
      assert u == after;
      Grouped(before, Print(d), after);
    }
    if Spells(text, v) {
      var before: string, d: Syntax, after: string :|
        Blank(before) && Proper(d) && Blank(after) && Nesting(d) <= MAX_DEPTH && Meaning(d) == v
        && text == before + Print(d) + after;
      TextParses(before, d, after);
    }
  }

  lemma ParsedParts(text: string, v: Value)
    requires Parse(text) == Some(v)
    ensures var r := ParseValue(SkipSpace(Bytes(text)), 0); r.Parsed? && r.value == v && SkipSpace(r.rest) == []
  {
    hide ParseValue, SkipSpace;
  }

  lemma EmptyEnd(t: string)
    ensures Bytes(t) == [] ==> t == ""
  {
  }

  // --- equal keys -------------------------------------------------------------------------------

  predicate HasKey(f: Field, key: string) { ProperField(f) && StringMeaning(f.key) == key }

  lemma {:induction false} OtherKeys(fields: seq<Field>, before: seq<Entry<Value>>, key: string)
    requires ProperFields(fields) && Sorted(before)
    requires forall j :: 0 <= j < |fields| ==> !HasKey(fields[j], key)
    ensures Get(FieldMeanings(fields, before), key) == Get(before, key)
  {
    hide StringMeaning, Meaning, Proper;
    if fields != [] {
      var f := fields[0];
      assert ProperField(f) && !HasKey(f, key);
      InsertIsMapUpdate(before, StringMeaning(f.key), Meaning(f.value), key);
      OtherKeys(fields[1..], Insert(before, StringMeaning(f.key), Meaning(f.value)), key);
    }
  }

  /** Of several fields with one key the last one gives the value. */
  lemma {:induction false} LastKeyStays(fields: seq<Field>, before: seq<Entry<Value>>, i: nat)
    requires ProperFields(fields) && Sorted(before) && i < |fields| && ProperField(fields[i])
    requires forall j :: i < j < |fields| ==> !HasKey(fields[j], StringMeaning(fields[i].key))
    ensures Get(FieldMeanings(fields, before), StringMeaning(fields[i].key)) == Some(Meaning(fields[i].value))
  {
    hide StringMeaning, Meaning, Proper;
    var f := fields[0];
    assert ProperField(f);
    var key, v := StringMeaning(f.key), Meaning(f.value);
    InsertIsMapUpdate(before, key, v, StringMeaning(fields[i].key));
    if i == 0 {
      OtherKeys(fields[1..], Insert(before, key, v), key);
    } else {
      assert fields[1..][i - 1] == fields[i];
      LastKeyStays(fields[1..], Insert(before, key, v), i - 1);
    }
  }
}
