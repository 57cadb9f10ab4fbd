/** What the JSON parser accepts, as a function of the unread bytes. The positioned parser in
    JsonParser is proved against it. */
module JsonGrammar {
  import opened Prelude
  import opened Utf8
  import opened Decimal
  import opened Json

  const MAX_DEPTH: nat := 64

  /** One opaque failure, or a value and the bytes left after it. */
  datatype Parsed<+T> = Malformed | Parsed(value: T, rest: seq<Byte>)

  /** `u8::is_ascii_whitespace`. */
  predicate IsSpace(b: Byte) { b == 32 || b == 9 || b == 10 || b == 12 || b == 13 }

  function SkipSpace(s: seq<Byte>): (r: seq<Byte>)
    ensures |r| <= |s|
  {
    if s != [] && IsSpace(s[0]) then SkipSpace(s[1..]) else s
  }

  function DigitCount(s: seq<Byte>): (n: nat)
    ensures n <= |s|
    ensures forall i :: 0 <= i < n ==> IsDigit(s[i])
    ensures n < |s| ==> !IsDigit(s[n])
  {
    if s != [] && IsDigit(s[0]) then 1 + DigitCount(s[1..]) else 0
  }

  // --- numbers -------------------------------------------------------------------

  /** Where the parts of a number end: sign, integer digits, fraction, exponent. */
  datatype NumberShape = NumberShape(sign: nat, int_: nat, frac: nat, end: nat, expDigits: nat)

  function FracLength(t: seq<Byte>): (n: nat)
    ensures n <= |t|
  {
    if t != [] && t[0] == 46 then 1 + DigitCount(t[1..]) else 0
  }

  /** The letter and sign that start an exponent. */
  function ExpMark(t: seq<Byte>): (n: nat)
    ensures n <= |t|
  {
    if t == [] || (t[0] != 101 && t[0] != 69) then 0
    else if |t| > 1 && (t[1] == 43 || t[1] == 45) then 2
    else 1
  }

  function ExpDigits(t: seq<Byte>): (n: nat)
    ensures ExpMark(t) + n <= |t|
  {
    if ExpMark(t) == 0 then 0 else DigitCount(t[ExpMark(t)..])
  }

  function Shape(s: seq<Byte>): (r: NumberShape)
    ensures r.sign <= r.int_ <= r.frac <= r.end <= |s|
    ensures forall i :: r.sign <= i < r.int_ ==> IsDigit(s[i])
  {
    var sign: nat := if s != [] && s[0] == 45 then 1 else 0;
    var int_ := sign + DigitCount(s[sign..]);
    var frac := int_ + FracLength(s[int_..]);
    var mark, digits := ExpMark(s[frac..]), ExpDigits(s[frac..]);
    NumberShape(sign, int_, frac, frac + mark + digits, digits)
  }

  lemma ShapeOfParts(s: seq<Byte>, p: NumberShape)
    requires p.sign <= p.int_ <= p.frac <= p.end <= |s|
    requires p.sign == if s != [] && s[0] == 45 then 1 else 0
    requires p.int_ == p.sign + DigitCount(s[p.sign..])
    requires p.frac == p.int_ + FracLength(s[p.int_..])
    requires p.expDigits == ExpDigits(s[p.frac..]) && p.end == p.frac + ExpMark(s[p.frac..]) + p.expDigits
    ensures p == Shape(s)
  {
    hide DigitCount, FracLength, ExpMark, ExpDigits;
    if s != [] && s[0] == 45 {
      assert p.sign == 1;
    } else {
      assert p.sign == 0;
    }
  }

  /** The literals `f64::from_str` accepts among those of this shape. */
  predicate F64Accepts(p: NumberShape) {
    (p.sign < p.int_ || p.int_ + 1 < p.frac) && (p.frac < p.end ==> p.expDigits > 0)
  }

  function AsText(s: seq<Byte>): string { seq(|s|, i requires 0 <= i < |s| => s[i] as char) }

  function ParseNumber(s: seq<Byte>): (r: Parsed<Value>)
    requires s != [] && (s[0] == 45 || IsDigit(s[0]))
    ensures r.Parsed? ==> |r.rest| < |s|
  {
    var p := Shape(s);
    if p.int_ < p.end then
      if F64Accepts(p) then Parsed(Float(AsText(s[..p.end])), s[p.end..]) else Malformed
    else if p.sign == p.int_ then
      Malformed
    else
      Parsed(Integer(p.sign, s[p.sign..p.int_]), s[p.end..])
  }

  /** A literal without fraction or exponent: an i64 when it fits, else an f64. */
  function Integer(sign: nat, digits: seq<Byte>): Value
    requires forall i :: 0 <= i < |digits| ==> IsDigit(digits[i])
  {
    var size: int := NatOf(digits);
    var n := if sign == 1 then -size else size;
    if I64_MIN <= n <= I64_MAX then Int(n)
    else Float((if sign == 1 then "-" else "") + AsText(digits))
  }

  // --- strings -------------------------------------------------------------------

  function HexValue(b: Byte): Option<nat> {
    if 48 <= b < 58 then Some(b - 48)
    else if 97 <= b < 103 then Some(b - 87)
    else if 65 <= b < 71 then Some(b - 55)
    else None
  }

  function HexRun(s: seq<Byte>, acc: nat): Option<nat> {
    if s == [] then Some(acc)
    else match HexValue(s[0])
      case None => None
      case Some(d) => HexRun(s[1..], acc * 16 + d)
  }

  /** `u32::from_str_radix(_, 16)` on four bytes: a leading plus sign is accepted. */
  function Hex4(s: seq<Byte>): Option<nat>
    requires |s| == 4
  {
    if s[0] == 43 then HexRun(s[1..], 0) else HexRun(s, 0)
  }

  /** `char::from_u32`: surrogates are not characters. */
  function FromCode(code: nat): Option<char> {
    if code < 0xD800 || 0xE000 <= code < 0x11_0000 then Some(code as char) else None
  }

  function SimpleEscape(b: Byte): Option<char> {
    if b == 34 then Some('"')
    else if b == 92 then Some('\\')
    else if b == 47 then Some('/')
    else if b == 98 then Some('\U{8}')
    else if b == 102 then Some('\U{C}')
    else if b == 110 then Some('\n')
    else if b == 114 then Some('\r')
    else if b == 116 then Some('\t')
    else None
  }

  /** One character of a string body, escaped or raw; None is a malformed one. */
  function StringChar(s: seq<Byte>): (r: Parsed<char>)
    requires s != [] && s[0] != 34
    ensures r.Parsed? ==> |r.rest| < |s|
  {
    if s[0] == 92 then
      if |s| < 2 then Malformed
      else if s[1] == 117 then
        if |s| < 6 then Malformed
        else match Hex4(s[2..6])
          case None => Malformed
          case Some(code) =>
            match FromCode(code)
            case None => Malformed
            case Some(c) => Parsed(c, s[6..])
      else match SimpleEscape(s[1])
        case None => Malformed
        case Some(c) => Parsed(c, s[2..])
    else if s[0] < 32 || Decode(s).None? then Malformed
    else
      var step := DecodeStep(s);
      assert step.Good?;
      Parsed(step.c, s[step.len..])
  }

  /** The body after the opening quote, appended to the characters read so far. */
  function ParseString(s: seq<Byte>, read: string): (r: Parsed<string>)
    ensures r.Parsed? ==> |r.rest| < |s|
    decreases |s|
  {
    if s == [] then Malformed
    else if s[0] == 34 then Parsed(read, s[1..])
    else match StringChar(s)
      case Malformed => Malformed
      case Parsed(c, rest) => ParseString(rest, read + [c])
  }

  // --- values --------------------------------------------------------------------

  function Literal(s: seq<Byte>, word: string, v: Value): (r: Parsed<Value>)
    requires word != ""
    ensures r.Parsed? ==> |r.rest| < |s|
  {
    var w := Bytes(word);
    if |w| <= |s| && s[..|w|] == w then Parsed(v, s[|w|..]) else Malformed
  }

  function ParseValue(s: seq<Byte>, depth: nat): (r: Parsed<Value>)
    ensures r.Parsed? ==> |r.rest| < |s|
    decreases |s|, 0
  {
    if depth > MAX_DEPTH || s == [] then Malformed
    else if s[0] == 123 then ParseObject(s[1..], depth)
    else if s[0] == 91 then ParseArray(s[1..], depth)
    else if s[0] == 34 then
      match ParseString(s[1..], "")
      case Malformed => Malformed
      case Parsed(text, rest) => Parsed(Str(text), rest)
    else if s[0] == 116 then Literal(s, "true", Bool(true))
    else if s[0] == 102 then Literal(s, "false", Bool(false))
    else if s[0] == 110 then Literal(s, "null", Null)
    else if s[0] == 45 || IsDigit(s[0]) then ParseNumber(s)
    else Malformed
  }

  function ParseArray(s: seq<Byte>, depth: nat): (r: Parsed<Value>)
    ensures r.Parsed? ==> |r.rest| < |s|
    decreases |s|, 2
  {
    var t := SkipSpace(s);
    if t != [] && t[0] == 93 then Parsed(Arr([]), t[1..]) else ParseItems(t, depth, [])
  }

  function ParseItems(s: seq<Byte>, depth: nat, items: seq<Value>): (r: Parsed<Value>)
    ensures r.Parsed? ==> |r.rest| < |s|
    decreases |s|, 1
  {
    match ParseValue(SkipSpace(s), depth + 1)
    case Malformed => Malformed
    case Parsed(v, after) =>
      var t := SkipSpace(after);
      if t == [] then Malformed
      else if t[0] == 44 then ParseItems(t[1..], depth, items + [v])
      else if t[0] == 93 then Parsed(Arr(items + [v]), t[1..])
      else Malformed
  }

  function ParseObject(s: seq<Byte>, depth: nat): (r: Parsed<Value>)
    ensures r.Parsed? ==> |r.rest| < |s|
    decreases |s|, 2
  {
    var t := SkipSpace(s);
    if t != [] && t[0] == 125 then Parsed(Obj([]), t[1..]) else ParseFields(t, depth, [])
  }

  /** A key, its colon, and the position of its value. */
  function ParseKey(s: seq<Byte>): (r: Parsed<string>)
    ensures r.Parsed? ==> |r.rest| < |s|
  {
    var t := SkipSpace(s);
    if t == [] || t[0] != 34 then Malformed
    else match ParseString(t[1..], "")
      case Malformed => Malformed
      case Parsed(key, after) =>
        var u := SkipSpace(after);
        if u == [] || u[0] != 58 then Malformed else Parsed(key, SkipSpace(u[1..]))
  }

  function ParseFields(s: seq<Byte>, depth: nat, fields: seq<Entry<Value>>): (r: Parsed<Value>)
    ensures r.Parsed? ==> |r.rest| < |s|
    decreases |s|, 1
  {
    match ParseKey(s)
    case Malformed => Malformed
    case Parsed(key, at) =>
      match ParseValue(at, depth + 1)
      case Malformed => Malformed
      case Parsed(v, after) =>
        var t := SkipSpace(after);
        if t == [] then Malformed
        else if t[0] == 44 then ParseFields(t[1..], depth, Insert(fields, key, v))
        else if t[0] == 125 then Parsed(Obj(Insert(fields, key, v)), t[1..])
        else Malformed
  }

  /** `parse`: one document, surrounding whitespace allowed, nothing after it. */
  function Parse(text: string): Option<Value> {
    match ParseValue(SkipSpace(Bytes(text)), 0)
    case Malformed => None
    case Parsed(v, rest) => if SkipSpace(rest) == [] then Some(v) else None
  }
}
