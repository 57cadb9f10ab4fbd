/** JSON values, the text `render` prints for them, and the writer that builds that text. */
module Json {
  import opened Prelude
  import opened Utf8
  import opened Decimal

  const I64_MIN: int := -0x8000_0000_0000_0000
  const I64_MAX: int := 0x7FFF_FFFF_FFFF_FFFF
  type I64 = n: int | I64_MIN <= n <= I64_MAX

  /** `Float` carries the accepted literal: the value of an f64 literal is not modelled.
      `Obj` lists its entries in BTreeMap order. */
  datatype Value =
    | Null
    | Bool(b: bool)
    | Int(n: I64)
    | Float(literal: string)
    | Str(text: string)
    | Arr(items: seq<Value>)
    | Obj(fields: seq<Entry<Value>>)

  predicate FloatFree(v: Value) {
    match v
    case Float(_) => false
    case Arr(items) => forall i :: 0 <= i < |items| ==> FloatFree(items[i])
    case Obj(fields) => forall i :: 0 <= i < |fields| ==> FloatFree(fields[i].value)
    case _ => true
  }

  /** Every object in the value is a BTreeMap: keys strictly increasing. */
  ghost predicate WellFormed(v: Value) {
    match v
    case Arr(items) => forall i :: 0 <= i < |items| ==> WellFormed(items[i])
    case Obj(fields) => Sorted(fields) && forall i :: 0 <= i < |fields| ==> WellFormed(fields[i].value)
    case _ => true
  }

  /** How many containers enclose the deepest value. */
  function Depth(v: Value): nat {
    match v
    case Arr(items) => ItemsDepth(items)
    case Obj(fields) => FieldsDepth(fields)
    case _ => 0
  }

  function ItemsDepth(items: seq<Value>): nat {
    if items == [] then 0 else Max(1 + Depth(items[0]), ItemsDepth(items[1..]))
  }

  function FieldsDepth(fields: seq<Entry<Value>>): nat {
    if fields == [] then 0 else Max(1 + Depth(fields[0].value), FieldsDepth(fields[1..]))
  }

  function Max(a: nat, b: nat): nat { if a < b then b else a }

  // --- rendering ---------------------------------------------------------------

  function HexDigit(d: int): char
    requires 0 <= d < 16
  {
    if d < 10 then (48 + d) as char else (87 + d) as char
  }

  function EscapeChar(c: char): string {
    if c == '"' then "\\\""
    else if c == '\\' then "\\\\"
    else if c == '\n' then "\\n"
    else if c == '\r' then "\\r"
    else if c == '\t' then "\\t"
    else if (c as int) < 0x20 then "\\u00" + [HexDigit(c as int / 16), HexDigit(c as int % 16)]
    else [c]
  }

  function Escape(text: string): string {
    if text == [] then "" else EscapeChar(text[0]) + Escape(text[1..])
  }

  function Quoted(text: string): string { "\"" + Escape(text) + "\"" }

  function Render(v: Value): string
    requires FloatFree(v)
  {
    match v
    case Null => "null"
    case Bool(b) => if b then "true" else "false"
    case Int(n) => IntText(n)
    case Str(text) => Quoted(text)
    case Arr(items) => "[" + ItemsText(items) + "]"
    case Obj(fields) => "{" + FieldsText(fields) + "}"
  }

  function FieldText(field: Entry<Value>): string
    requires FloatFree(field.value)
  {
    Quoted(field.key) + ":" + Render(field.value)
  }

  function ItemsText(items: seq<Value>): string
    requires forall i :: 0 <= i < |items| ==> FloatFree(items[i])
  {
    if items == [] then "" else Render(items[0]) + ItemsTail(items[1..])
  }

  function FieldsText(fields: seq<Entry<Value>>): string
    requires forall i :: 0 <= i < |fields| ==> FloatFree(fields[i].value)
  {
    if fields == [] then "" else FieldText(fields[0]) + FieldsTail(fields[1..])
  }

  function ItemsTail(items: seq<Value>): string
    requires forall i :: 0 <= i < |items| ==> FloatFree(items[i])
  {
    if items == [] then "" else "," + Render(items[0]) + ItemsTail(items[1..])
  }

  function FieldsTail(fields: seq<Entry<Value>>): string
    requires forall i :: 0 <= i < |fields| ==> FloatFree(fields[i].value)
  {
    if fields == [] then ""
    else "," + FieldText(fields[0]) + FieldsTail(fields[1..])
  }

  /** The output `String` every writer appends to. */
  class Output {
    var text: string
    constructor () ensures text == "" { text := ""; }

    method Push(more: string)
      modifies this
      ensures text == old(text) + more
    {
      text := text + more;
    }

    method WriteString(s: string)
      modifies this
      ensures text == old(text) + Quoted(s)
    {
      text := text + "\"";
      ghost var start := text;
      var i := 0;
      while i < |s|
        invariant i <= |s|
        invariant text + Escape(s[i..]) == start + Escape(s)
      {
        assert s[i..][1..] == s[i + 1..];
        Regroup(text, EscapeChar(s[i]), Escape(s[i + 1..]), "");
        text := text + EscapeChar(s[i]);
        i := i + 1;
      }
      assert text == start + Escape(s);
      text := text + "\"";
      Regroup(old(text), "\"", Escape(s), "\"");
    }

    method WriteValue(v: Value)
      requires FloatFree(v)
      modifies this
      ensures text == old(text) + Render(v)
      decreases v
    {
      match v
      case Null => Push("null");
      case Bool(b) => Push(if b then "true" else "false");
      case Int(n) => Push(IntText(n));
      case Str(s) => WriteString(s);
      case Arr(items) => WriteItems(v);
      case Obj(fields) => WriteFields(v);
    }

    method WriteItems(v: Value)
      requires v.Arr? && FloatFree(v)
      modifies this
      ensures text == old(text) + Render(v)
      decreases v, 0
    {
      var items := v.items;
      text := text + "[";
      ghost var start, body := text, ItemsText(items);
      var i := 0;
      while i < |items|
        invariant 0 <= i <= |items|
        invariant i == 0 ==> text == start
        invariant i > 0 ==> text + ItemsTail(items[i..]) == start + body
      {
        ghost var before := text;
        if i > 0 { text := text + ","; }
        WriteValue(items[i]);
        ghost var item, tail := Render(items[i]), ItemsTail(items[i + 1..]);
        assert items[i..][1..] == items[i + 1..];
        Regroup(before, if i == 0 then "" else ",", item, tail);
        i := i + 1;
      }
      assert text == start + body;
      text := text + "]";
      Regroup(old(text), "[", body, "]");
    }

    method WriteFields(v: Value)
      requires v.Obj? && FloatFree(v)
      modifies this
      ensures text == old(text) + Render(v)
      decreases v, 0
    {
      var fields := v.fields;
      text := text + "{";
      ghost var start, body := text, FieldsText(fields);
      var i := 0;
      while i < |fields|
        invariant 0 <= i <= |fields|
        invariant i == 0 ==> text == start
        invariant i > 0 ==> text + FieldsTail(fields[i..]) == start + body
      {
        ghost var before := text;
        if i > 0 { text := text + ","; }
        ghost var comma := text;
        WriteString(fields[i].key);
        text := text + ":";
        WriteValue(fields[i].value);
        ghost var item, tail := FieldText(fields[i]), FieldsTail(fields[i + 1..]);
        Regroup(comma, Quoted(fields[i].key), ":", Render(fields[i].value));
        assert fields[i..][1..] == fields[i + 1..];
        Regroup(before, if i == 0 then "" else ",", item, tail);
        i := i + 1;
      }
      assert text == start + body;
      text := text + "}";
      Regroup(old(text), "{", body, "}");
    }
  }

  lemma Regroup(a: string, b: string, c: string, d: string)
    ensures a + b + c + d == a + (b + c + d)
    ensures a + (b + c + d) == a + b + (c + d)
    ensures b == "" ==> a + b == a
    ensures d == "" ==> a + b + c == a + (b + c)
  {
  }
}
