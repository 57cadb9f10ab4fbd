/** What `render` prints is one way to spell the value, so parsing gives the value back, up to the depth cap and no
    further. */
module JsonRoundTrip {
  import opened Prelude
  import opened Utf8
  import opened Decimal
  import opened Json
  import opened JsonGrammar
  import opened JsonSyntax
  import opened JsonTexts

  // --- strings ----------------------------------------------------------------------------------

  function PlainChar(c: char): Spelling {
    if c == '"' then Short(0)
    else if c == '\\' then Short(1)
    else if c == '\n' then Short(5)
    else if c == '\r' then Short(6)
    else if c == '\t' then Short(7)
    else if (c as int) < 0x20
    then Code(false, [Hex(0, false), Hex(0, false), Hex(c as int / 16, false), Hex(c as int % 16, false)])
    else Raw(c)
  }

  lemma HexDigitIs(d: nat)
    requires d < 16
    ensures HexText(Hex(d, false)) == HexDigit(d)
  {
    assert d == 0 || d == 1 || d == 2 || d == 3 || d == 4 || d == 5 || d == 6 || d == 7 || d == 8 || d == 9 || d == 10
           || d == 11 || d == 12 || d == 13 || d == 14 || d == 15;
  }

  lemma ControlIs(c: char)
    requires (c as int) < 0x20
    ensures var digits := [Hex(0, false), Hex(0, false), Hex(c as int / 16, false), Hex(c as int % 16, false)];
            CodeOf(digits) == c as int
            && "\\u" + "" + HexTexts(digits) == "\\u00" + [HexDigit(c as int / 16), HexDigit(c as int % 16)]
  {
    var hi, lo := c as int / 16, c as int % 16;
    var a, b := [Hex(0, false), Hex(0, false)], [Hex(0, false), Hex(0, false), Hex(hi, false)];
    var digits := [Hex(0, false), Hex(0, false), Hex(hi, false), Hex(lo, false)];
    assert a[..1] == [Hex(0, false)] && [Hex(0, false)][..0] == [] && b[..2] == a && digits[..3] == b;
    assert CodeOf([Hex(0, false)]) == 0 && CodeOf(a) == 0 && CodeOf(b) == hi;
    HexDigitIs(0);
    HexDigitIs(hi);
    HexDigitIs(lo);
    hide HexText;
    assert HexTexts(digits) == ['0', '0', HexDigit(hi), HexDigit(lo)];
  }

  lemma PlainCharIs(c: char)
    ensures var sp := PlainChar(c); ProperSpelling(sp) && SpellingText(sp) == EscapeChar(c) && SpellingChar(sp) == c
  {
    if (c as int) < 0x20 {
      ControlIs(c);
      hide CodeOf, HexTexts, HexText, HexDigit;
    }
  }

  function PlainChars(text: string): seq<Spelling> {
    seq(|text|, i requires 0 <= i < |text| => PlainChar(text[i]))
  }

  lemma {:induction false} PlainCharsIs(text: string)
    ensures var chars := PlainChars(text);
            ProperString(chars) && StringBody(chars) == Escape(text) && StringMeaning(chars) == text
  {
    hide PlainChar, SpellingText, SpellingChar, EscapeChar, ProperSpelling;
    forall c ensures ProperSpelling(PlainChar(c)) && SpellingChar(PlainChar(c)) == c { PlainCharIs(c); }
    if text != "" {
      PlainCharIs(text[0]);
      assert PlainChars(text)[1..] == PlainChars(text[1..]);
      PlainCharsIs(text[1..]);
    }
  }

  /** A printed string reads back as itself, wherever it stands. */
  lemma QuotedRoundTrip(text: string, rest: string)
    ensures Bytes(Quoted(text) + rest) != [] && Bytes(Quoted(text) + rest)[0] == 34
    ensures ParseString(Bytes(Quoted(text) + rest)[1..], "") == Parsed(text, Bytes(rest))
  {
    hide ParseString, EncodeChar, StringBody, Escape, PlainChars, StringMeaning, ProperString;
    PlainCharsIs(text);
    SpelledString(PlainChars(text), rest);
  }

  // --- numbers ----------------------------------------------------------------------------------

  function PlainInt(n: int): Numeral { Numeral(n < 0, Digits(if n < 0 then -n else n), None, None) }

  lemma PlainDigits(size: nat)
    ensures DecimalDigits(Digits(size)) && Digits(size) != "" && Worth(Digits(size)) == size
  {
    NatOfDigits(size);
    WorthIs(Digits(size));
  }

  lemma WholeMeans(p: Numeral, n: I64)
    requires DecimalDigits(p.whole) && p.whole != "" && p.fraction == None && p.exponent == None
    requires n == if p.minus then -(Worth(p.whole) as int) else Worth(p.whole)
    ensures ProperNumeral(p) && NumeralMeaning(p) == Int(n)
  {
    hide DecimalDigits, Worth, NumeralText;
  }

  lemma PlainIntIs(n: I64)
    ensures var p := PlainInt(n); ProperNumeral(p) && NumeralText(p) == IntText(n) && NumeralMeaning(p) == Int(n)
  {
    PlainDigits(if n < 0 then -(n as int) else n);
    hide Digits, DecimalDigits, Worth, NumeralText, NumeralMeaning, ProperNumeral;
    WholeOnly(PlainInt(n));
    WholeMeans(PlainInt(n), n);
    if n >= 0 { assert "" + Digits(n) == Digits(n); }
  }

  /** What may follow a printed integer: the end, or a separator. */
  predicate Delimits(rest: string) {
    rest == "" || rest[0] == ',' || rest[0] == ']' || rest[0] == '}'
  }

  lemma IntRoundTrip(n: I64, rest: string)
    requires Delimits(rest)
    ensures var s := Bytes(IntText(n) + rest);
            s != [] && (s[0] == 45 || IsDigit(s[0])) && ParseNumber(s) == Parsed(Int(n), Bytes(rest))
  {
    assert StopsText(rest);
    hide *;
    PlainIntIs(n);
    NumeralParses(PlainInt(n), rest);
  }

  // --- values -----------------------------------------------------------------------------------

  /** The document that `render` prints: no white space, strings escaped where they must be. */
  function Plain(v: Value): Syntax
    requires FloatFree(v)
  {
    match v
    case Null => NullWord
    case Bool(b) => if b then TrueWord else FalseWord
    case Int(n) => Number(PlainInt(n))
    case Str(text) => Text(PlainChars(text))
    case Arr(items) => List("", PlainItems(items))
    case Obj(fields) => Dict("", PlainFields(fields))
  }

  function PlainItems(items: seq<Value>): seq<Item>
    requires forall i :: 0 <= i < |items| ==> FloatFree(items[i])
  {
    if items == [] then [] else [Item("", Plain(items[0]), "")] + PlainItems(items[1..])
  }

  function PlainFields(fields: seq<Entry<Value>>): seq<Field>
    requires forall i :: 0 <= i < |fields| ==> FloatFree(fields[i].value)
  {
    if fields == [] then []
    else [Field("", PlainChars(fields[0].key), "", "", Plain(fields[0].value), "")] + PlainFields(fields[1..])
  }

  lemma {:induction false} PlainIs(v: Value)
    requires FloatFree(v) && WellFormed(v)
    ensures var d := Plain(v); Proper(d) && Print(d) == Render(v) && Meaning(d) == v && Nesting(d) == Depth(v)
    decreases v, 1
  {
    hide PlainChars, PlainInt, NumeralText, NumeralMeaning, ProperNumeral, IntText, StringMeaning, StringBody, Escape,
         PlainItems, PlainFields, PrintItems, PrintFields, ItemsText, FieldsText, ItemMeanings, FieldMeanings;
    match v
    case Int(n) => PlainIntIs(n);
    case Str(text) => PlainCharsIs(text);
    case Arr(items) =>
      PlainItemsIs(items);
      PlainArray(items);
    case Obj(fields) =>
      PlainFieldsIs(fields, []);
      assert [] + fields == fields;
      PlainObject(fields);
    case _ =>
  }

  lemma PlainArray(items: seq<Value>)
    requires FloatFree(Arr(items))
    requires var p := PlainItems(items);
             (p == [] <==> items == []) && ProperItems(p) && PrintItems(p) == ItemsText(items)
             && ItemMeanings(p) == items && ItemsNesting(p) == ItemsDepth(items)
    ensures var v := Arr(items);
            var d := Plain(v);
            Proper(d) && Print(d) == Render(v) && Meaning(d) == v && Nesting(d) == Depth(v)
  {
    hide PlainItems, PrintItems, ItemMeanings, ItemsNesting, ItemsDepth;
    if items != [] { hide ItemsText; }
  }

  lemma PlainObject(fields: seq<Entry<Value>>)
    requires FloatFree(Obj(fields))
    requires var p := PlainFields(fields);
             (p == [] <==> fields == []) && ProperFields(p) && PrintFields(p) == FieldsText(fields)
             && FieldMeanings(p, []) == fields && FieldsNesting(p) == FieldsDepth(fields)
    ensures var v := Obj(fields);
            var d := Plain(v);
            Proper(d) && Print(d) == Render(v) && Meaning(d) == v && Nesting(d) == Depth(v)
  {
    hide PlainFields, PrintFields, FieldMeanings, FieldsNesting, FieldsDepth;
    if fields != [] { hide FieldsText; }
  }

  lemma EmptyEnds(t: string)
    ensures "" + t + "" == t && "" + t == t
  {
  }

  lemma {:induction false} PlainItemsIs(items: seq<Value>)
    requires forall i :: 0 <= i < |items| ==> FloatFree(items[i]) && WellFormed(items[i])
    ensures var p := PlainItems(items);
            (p == [] <==> items == []) && ProperItems(p) && PrintItems(p) == ItemsText(items)
            && ItemMeanings(p) == items && ItemsNesting(p) == ItemsDepth(items)
    decreases items, 0
  {
    hide Plain, Print, Render, Meaning, Nesting, Depth, Proper;
    if items != [] {
      var v, more := items[0], items[1..];
      PlainIs(v);
      PlainItemsIs(more);
      var p := PlainItems(items);
      assert p[1..] == PlainItems(more);
      EmptyEnds(Render(v));
      assert ProperItem(p[0]) && ProperItems(p);
      ItemsUnrolled(p);
      hide ItemMeanings, PrintItems, ProperItems;
      assert items == [v] + more;
      if more == [] { EmptyEnds(Render(v)); }
    }
  }

  lemma AppendInOrder(read: seq<Entry<Value>>, f: Entry<Value>, more: seq<Entry<Value>>)
    requires Sorted(read + ([f] + more))
    ensures Insert(read, f.key, f.value) == read + [f]
    ensures read + [f] + more == read + ([f] + more)
  {
    assert read + [f] + more == read + ([f] + more);
    assert forall i :: 0 <= i < |read + [f]| ==> (read + [f])[i] == (read + ([f] + more))[i];
    InsertLast(read, f.key, f.value);
  }

  lemma {:induction false} PlainFieldsIs(fields: seq<Entry<Value>>, read: seq<Entry<Value>>)
    requires Sorted(read + fields)
    requires forall i :: 0 <= i < |fields| ==> FloatFree(fields[i].value) && WellFormed(fields[i].value)
    ensures var p := PlainFields(fields);
            (p == [] <==> fields == []) && ProperFields(p) && PrintFields(p) == FieldsText(fields)
            && FieldMeanings(p, read) == read + fields && FieldsNesting(p) == FieldsDepth(fields)
    decreases fields, 0
  {
    hide Plain, Print, Render, Meaning, Nesting, Depth, Proper, PlainChars, StringMeaning, StringBody, Escape, Insert;
    if fields == [] {
      assert read + fields == read;
    } else {
      var f, more := fields[0], fields[1..];
      assert fields == [f] + more;
      PlainIs(f.value);
      PlainCharsIs(f.key);
      AppendInOrder(read, f, more);
      PlainFieldsIs(more, read + [f]);
      var p := PlainFields(fields);
      assert p[1..] == PlainFields(more);
      assert ProperField(p[0]) && ProperFields(p);
      FieldIs(p[0], f);
      FieldsUnrolled(p, read);
      hide FieldMeanings, PrintFields, ProperFields, PrintField, FieldText;
      if more == [] { EmptyEnds(FieldText(f)); }
    }
  }

  lemma FieldIs(p: Field, f: Entry<Value>)
    requires ProperField(p) && FloatFree(f.value) && p.before == "" && p.beforeColon == "" && p.afterColon == ""
    requires p.after == "" && StringBody(p.key) == Escape(f.key) && Print(p.value) == Render(f.value)
    ensures PrintField(p) == FieldText(f)
  {
    hide Print, Render, StringBody, Escape;
  }

  /** The round trip: exact for float-free values nested at most 64 levels, refused beyond. */
  lemma RenderParse(v: Value)
    requires FloatFree(v) && WellFormed(v)
    ensures Parse(Render(v)) == if Depth(v) <= MAX_DEPTH then Some(v) else None
  {
    hide Plain, Print, Render, Meaning, Nesting, Depth, Proper, Parse;
    PlainIs(v);
    TextParses("", Plain(v), "");
    EmptyEnds(Render(v));
  }

  /** Printing is injective on values the parser can read back. */
  lemma RenderInjective(v: Value, w: Value)
    requires FloatFree(v) && WellFormed(v) && FloatFree(w) && WellFormed(w)
    requires Depth(v) <= MAX_DEPTH && Render(v) == Render(w)
    ensures v == w
  {
    RenderParse(v);
    RenderParse(w);
  }

  // --- every accepted document ---------------------------------------------------

  lemma {:induction false} ParsedWellFormed(s: seq<Byte>, depth: nat)
    ensures ParseValue(s, depth).Parsed? ==>
              WellFormed(ParseValue(s, depth).value) && depth + Depth(ParseValue(s, depth).value) <= MAX_DEPTH
    decreases |s|, 0
  {
    hide ParseNumber, ParseString, Literal, ParseItems, ParseFields;
    if depth <= MAX_DEPTH && s != [] {
      if s[0] == 123 {
        var t := SkipSpace(s[1..]);
        if !(t != [] && t[0] == 125) { ParsedFields(t, depth, []); }
      } else if s[0] == 91 {
        var t := SkipSpace(s[1..]);
        if !(t != [] && t[0] == 93) { ParsedItems(t, depth, []); }
      } else {
        ParsedScalar(s, depth);
      }
    }
  }

  lemma ParsedScalar(s: seq<Byte>, depth: nat)
    requires depth <= MAX_DEPTH && s != [] && s[0] != 123 && s[0] != 91
    ensures ParseValue(s, depth).Parsed? ==>
              WellFormed(ParseValue(s, depth).value) && Depth(ParseValue(s, depth).value) == 0
  {
    hide Shape, F64Accepts, AsText, ParseString;
  }

  lemma {:induction false} ItemsDepthAppend(items: seq<Value>, v: Value)
    ensures ItemsDepth(items + [v]) == Max(ItemsDepth(items), 1 + Depth(v))
  {
    if items == [] {
      assert items + [v] == [v] && [v][1..] == [];
    } else {
      assert (items + [v])[1..] == items[1..] + [v];
      ItemsDepthAppend(items[1..], v);
    }
  }

  lemma {:induction false} ParsedItems(s: seq<Byte>, depth: nat, read: seq<Value>)
    requires depth <= MAX_DEPTH && depth + ItemsDepth(read) <= MAX_DEPTH
    requires forall i :: 0 <= i < |read| ==> WellFormed(read[i])
    ensures ParseItems(s, depth, read).Parsed? ==>
              WellFormed(ParseItems(s, depth, read).value)
              && depth + Depth(ParseItems(s, depth, read).value) <= MAX_DEPTH
    decreases |s|, 1
  {
    hide ParseValue, SkipSpace;
    ParsedWellFormed(SkipSpace(s), depth + 1);
    match ParseValue(SkipSpace(s), depth + 1)
    case Malformed =>
    case Parsed(v, after) =>
      ItemsDepthAppend(read, v);
      var t := SkipSpace(after);
      if t != [] && t[0] == 44 { ParsedItems(t[1..], depth, read + [v]); }
  }

  lemma {:induction false} InsertDepth(fields: seq<Entry<Value>>, key: string, v: Value, cap: nat)
    requires FieldsDepth(fields) <= cap && 1 + Depth(v) <= cap
    ensures FieldsDepth(Insert(fields, key, v)) <= cap
  {
    if fields == [] {
      assert [Entry(key, v)][1..] == [];
    } else {
      var r := Insert(fields, key, v);
      if Less(key, fields[0].key) {
        assert r[1..] == fields;
      } else if key == fields[0].key {
        assert r[1..] == fields[1..];
      } else {
        assert r[1..] == Insert(fields[1..], key, v);
        InsertDepth(fields[1..], key, v, cap);
      }
    }
  }

  lemma {:induction false} ParsedFields(s: seq<Byte>, depth: nat, read: seq<Entry<Value>>)
    requires depth <= MAX_DEPTH && depth + FieldsDepth(read) <= MAX_DEPTH
    requires Sorted(read) && forall i :: 0 <= i < |read| ==> WellFormed(read[i].value)
    ensures ParseFields(s, depth, read).Parsed? ==>
              WellFormed(ParseFields(s, depth, read).value)
              && depth + Depth(ParseFields(s, depth, read).value) <= MAX_DEPTH
    decreases |s|, 1
  {
    hide ParseValue, ParseKey, SkipSpace;
    match ParseKey(s)
    case Malformed =>
    case Parsed(key, at) =>
      ParsedWellFormed(at, depth + 1);
      match ParseValue(at, depth + 1)
      case Malformed =>
      case Parsed(v, after) =>
        InsertIsMapUpdate(read, key, v, key);
        InsertDepth(read, key, v, MAX_DEPTH - depth);
        var all := Insert(read, key, v);
        forall i | 0 <= i < |all| ensures WellFormed(all[i].value) { assert all[i] in all; }
        var t := SkipSpace(after);
        if t != [] && t[0] == 44 { ParsedFields(t[1..], depth, all); }
  }

  /** Every document the parser accepts, of any origin, is a tree of ordered maps with unique keys,
      nested at most 64 levels; if it holds no float, printing and parsing it again changes nothing. */
  lemma AcceptedIsCanonical(text: string)
    requires Parse(text).Some?
    ensures WellFormed(Parse(text).value) && Depth(Parse(text).value) <= MAX_DEPTH
    ensures FloatFree(Parse(text).value) ==> Parse(Render(Parse(text).value)) == Parse(text)
  {
    ParsedWellFormed(SkipSpace(Bytes(text)), 0);
    if FloatFree(Parse(text).value) { RenderParse(Parse(text).value); }
  }
}
