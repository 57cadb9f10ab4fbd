/** The documents the parser is for, written down as trees: every way to spell a value, with white space anywhere
    between tokens, what text a tree stands for, and what it means. Nothing here looks at how the parser works. */
module JsonSyntax {
  import opened Prelude
  import opened Json

  /** Space, tab, line feed, form feed, carriage return. */
  predicate BlankChar(c: char) { c == ' ' || c == '\t' || c == '\n' || c == '\U{C}' || c == '\r' }

  predicate Blank(w: string) { forall i :: 0 <= i < |w| ==> BlankChar(w[i]) }

  // --- strings ----------------------------------------------------------------------------------

  datatype Hex = Hex(value: nat, upper: bool)

  /** One character of a string: as it is, by a letter after a backslash, or by its code, where the first of the four
      places may hold a plus sign. */
  datatype Spelling = Raw(c: char) | Short(letter: nat) | Code(plus: bool, digits: seq<Hex>)

  const LOWER_HEX := "0123456789abcdef"
  const UPPER_HEX := "0123456789ABCDEF"
  const LETTERS := "\"\\/bfnrt"
  const LETTER_CHARS := "\"\\/\U{8}\U{C}\n\r\t"

  function HexText(d: Hex): char
    requires d.value < 16
  {
    if d.upper then UPPER_HEX[d.value] else LOWER_HEX[d.value]
  }

  function CodeOf(digits: seq<Hex>): nat {
    if digits == [] then 0 else 16 * CodeOf(digits[..|digits| - 1]) + digits[|digits| - 1].value
  }

  predicate ProperSpelling(s: Spelling) {
    match s
    case Raw(c) => c >= ' ' && c != '"' && c != '\\'
    case Short(i) => i < |LETTERS|
    case Code(plus, digits) =>
      |digits| == (if plus then 3 else 4) && (forall i :: 0 <= i < |digits| ==> digits[i].value < 16)
      && (CodeOf(digits) < 0xD800 || 0xE000 <= CodeOf(digits) < 0x11_0000)
  }

  function HexTexts(digits: seq<Hex>): string
    requires forall i :: 0 <= i < |digits| ==> digits[i].value < 16
  {
    seq(|digits|, i requires 0 <= i < |digits| => HexText(digits[i]))
  }

  function SpellingText(s: Spelling): string
    requires ProperSpelling(s)
  {
    match s
    case Raw(c) => [c]
    case Short(i) => "\\" + [LETTERS[i]]
    case Code(plus, digits) => "\\u" + (if plus then "+" else "") + HexTexts(digits)
  }

  function SpellingChar(s: Spelling): char
    requires ProperSpelling(s)
  {
    match s
    case Raw(c) => c
    case Short(i) => LETTER_CHARS[i]
    case Code(_, digits) => CodeOf(digits) as char
  }

  predicate ProperString(chars: seq<Spelling>) { forall i :: 0 <= i < |chars| ==> ProperSpelling(chars[i]) }

  function StringBody(chars: seq<Spelling>): string
    requires ProperString(chars)
  {
    if chars == [] then "" else SpellingText(chars[0]) + StringBody(chars[1..])
  }

  function StringMeaning(chars: seq<Spelling>): string
    requires ProperString(chars)
  {
    seq(|chars|, i requires 0 <= i < |chars| => SpellingChar(chars[i]))
  }

  // --- numbers ----------------------------------------------------------------------------------

  datatype Exponent = Exponent(mark: string, sign: string, digits: string)

  datatype Numeral = Numeral(minus: bool, whole: string, fraction: Option<string>, exponent: Option<Exponent>)

  predicate DecimalDigits(s: string) { forall i :: 0 <= i < |s| ==> '0' <= s[i] <= '9' }

  /** Leading zeros are allowed, and so is a missing side of the point, but not both; a number starts with a digit or a
      minus sign. */
  predicate ProperNumeral(n: Numeral) {
    DecimalDigits(n.whole)
    && (n.fraction.Some? ==> DecimalDigits(n.fraction.value))
    && (n.whole != "" || (n.minus && n.fraction.Some? && n.fraction.value != ""))
    && (n.exponent.Some? ==>
          (n.exponent.value.mark == "e" || n.exponent.value.mark == "E")
          && (n.exponent.value.sign == "" || n.exponent.value.sign == "+" || n.exponent.value.sign == "-")
          && n.exponent.value.digits != "" && DecimalDigits(n.exponent.value.digits))
  }

  function SignText(n: Numeral): string { if n.minus then "-" else "" }

  function FractionText(n: Numeral): string { if n.fraction.Some? then "." + n.fraction.value else "" }

  function ExponentText(n: Numeral): string {
    match n.exponent
    case None => ""
    case Some(e) => e.mark + e.sign + e.digits
  }

  function NumeralText(n: Numeral): string { SignText(n) + n.whole + FractionText(n) + ExponentText(n) }

  function Worth(digits: string): nat
    requires DecimalDigits(digits)
  {
    if digits == "" then 0
    else 10 * Worth(digits[..|digits| - 1]) + (digits[|digits| - 1] as int - '0' as int)
  }

  /** An integer of 64 bits if there is neither fraction nor exponent and it fits, else a float with this text. */
  function NumeralMeaning(n: Numeral): Value
    requires ProperNumeral(n)
  {
    var size: int := Worth(n.whole);
    var worth := if n.minus then -size else size;
    if n.fraction == None && n.exponent == None && I64_MIN <= worth <= I64_MAX then Int(worth)
    else Float(NumeralText(n))
  }

  // --- documents --------------------------------------------------------------------------------

  datatype Syntax =
    | NullWord
    | TrueWord
    | FalseWord
    | Number(numeral: Numeral)
    | Text(chars: seq<Spelling>)
    | List(gap: string, items: seq<Item>)
    | Dict(gap: string, fields: seq<Field>)

  datatype Item = Item(before: string, value: Syntax, after: string)

  datatype Field = Field(before: string, key: seq<Spelling>, beforeColon: string, afterColon: string, value: Syntax,
                         after: string)

  predicate Proper(d: Syntax) {
    match d
    case Number(n) => ProperNumeral(n)
    case Text(chars) => ProperString(chars)
    case List(gap, items) => Blank(gap) && ProperItems(items)
    case Dict(gap, fields) => Blank(gap) && ProperFields(fields)
    case _ => true
  }

  predicate ProperItems(items: seq<Item>) {
    items != [] ==> ProperItem(items[0]) && ProperItems(items[1..])
  }

  predicate ProperItem(i: Item) { Blank(i.before) && Proper(i.value) && Blank(i.after) }

  predicate ProperFields(fields: seq<Field>) {
    fields != [] ==> ProperField(fields[0]) && ProperFields(fields[1..])
  }

  predicate ProperField(f: Field) {
    Blank(f.before) && ProperString(f.key) && Blank(f.beforeColon) && Blank(f.afterColon) && Proper(f.value)
    && Blank(f.after)
  }

  function Quote(chars: seq<Spelling>): string
    requires ProperString(chars)
  {
    "\"" + StringBody(chars) + "\""
  }

  function Print(d: Syntax): string
    requires Proper(d)
  {
    match d
    case NullWord => "null"
    case TrueWord => "true"
    case FalseWord => "false"
    case Number(n) => NumeralText(n)
    case Text(chars) => Quote(chars)
    case List(gap, items) => "[" + (if items == [] then gap else PrintItems(items)) + "]"
    case Dict(gap, fields) => "{" + (if fields == [] then gap else PrintFields(fields)) + "}"
  }

  function PrintItem(i: Item): string
    requires ProperItem(i)
  {
    i.before + Print(i.value) + i.after
  }

  function PrintItems(items: seq<Item>): string
    requires ProperItems(items)
  {
    if items == [] then ""
    else PrintItem(items[0]) + (if |items| == 1 then "" else "," + PrintItems(items[1..]))
  }

  function PrintField(f: Field): string
    requires ProperField(f)
  {
    f.before + Quote(f.key) + f.beforeColon + ":" + f.afterColon + Print(f.value) + f.after
  }

  function PrintFields(fields: seq<Field>): string
    requires ProperFields(fields)
  {
    if fields == [] then ""
    else PrintField(fields[0]) + (if |fields| == 1 then "" else "," + PrintFields(fields[1..]))
  }

  function Meaning(d: Syntax): Value
    requires Proper(d)
  {
    match d
    case NullWord => Null
    case TrueWord => Bool(true)
    case FalseWord => Bool(false)
    case Number(n) => NumeralMeaning(n)
    case Text(chars) => Str(StringMeaning(chars))
    case List(_, items) => Arr(ItemMeanings(items))
    case Dict(_, fields) => Obj(FieldMeanings(fields, []))
  }

  function ItemMeanings(items: seq<Item>): seq<Value>
    requires ProperItems(items)
  {
    if items == [] then []
    else assert ProperItem(items[0]); [Meaning(items[0].value)] + ItemMeanings(items[1..])
  }

  /** The fields one after the other into an ordered map: of two equal keys the later one stays. */
  function FieldMeanings(fields: seq<Field>, before: seq<Entry<Value>>): seq<Entry<Value>>
    requires ProperFields(fields)
  {
    if fields == [] then before
    else
      assert ProperField(fields[0]);
      FieldMeanings(fields[1..], Insert(before, StringMeaning(fields[0].key), Meaning(fields[0].value)))
  }

  /** How deep values are nested as written, a value that a later one replaces included. */
  function Nesting(d: Syntax): nat {
    match d
    case List(_, items) => ItemsNesting(items)
    case Dict(_, fields) => FieldsNesting(fields)
    case _ => 0
  }

  function ItemsNesting(items: seq<Item>): nat {
    if items == [] then 0 else Max(1 + Nesting(items[0].value), ItemsNesting(items[1..]))
  }

  function FieldsNesting(fields: seq<Field>): nat {
    if fields == [] then 0 else Max(1 + Nesting(fields[0].value), FieldsNesting(fields[1..]))
  }
}
