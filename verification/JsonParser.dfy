/** The byte-positioned recursive-descent parser, proved against JsonGrammar: it terminates,
    never reads past the end, and answers what the grammar answers. */
module JsonParser {
  import opened Prelude
  import opened Utf8
  import opened Decimal
  import opened Json
  import opened JsonGrammar

  class Parser {
    const bytes: seq<Byte>
    var pos: nat

    constructor (bytes: seq<Byte>)
      ensures this.bytes == bytes && pos == 0
    {
      this.bytes := bytes;
      pos := 0;
    }

    ghost predicate Valid()
      reads this
    {
      pos <= |bytes|
    }

    /** The bytes not read yet. */
    ghost function Rest(): seq<Byte>
      requires Valid()
      reads this
    {
      bytes[pos..]
    }

    /** A method's answer and new position are those of a grammar function. */
    ghost predicate Answers<T>(r: Option<T>, spec: Parsed<T>)
      reads this
    {
      Valid() && match spec
      case Malformed => r == None
      case Parsed(v, rest) => r == Some(v) && Rest() == rest
    }

    method SkipWs()
      requires Valid()
      modifies `pos
      ensures Valid() && old(pos) <= pos && Rest() == SkipSpace(old(Rest()))
    {
      while pos < |bytes| && IsSpace(bytes[pos])
        invariant old(pos) <= pos <= |bytes|
        invariant SkipSpace(bytes[pos..]) == SkipSpace(old(Rest()))
      {
        assert bytes[pos..][1..] == bytes[pos + 1..];
        pos := pos + 1;
      }
    }

    method Peek() returns (r: Option<Byte>)
      requires Valid()
      ensures r == if Rest() == [] then None else Some(Rest()[0])
    {
      r := if pos < |bytes| then Some(bytes[pos]) else None;
    }

    method Digits()
      requires Valid()
      modifies `pos
      ensures Valid() && pos == old(pos) + DigitCount(old(Rest()))
    {
      while pos < |bytes| && IsDigit(bytes[pos])
        invariant old(pos) <= pos <= |bytes|
        invariant pos + DigitCount(bytes[pos..]) == old(pos) + DigitCount(old(Rest()))
      {
        assert bytes[pos..][1..] == bytes[pos + 1..];
        pos := pos + 1;
      }
    }

    method Lit(word: string, v: Value) returns (r: Option<Value>)
      requires Valid() && word != ""
      modifies `pos
      ensures Answers(r, Literal(old(Rest()), word, v))
      ensures r.Some? ==> old(pos) < pos
    {
      var w := Bytes(word);
      if |w| <= |bytes| - pos && bytes[pos..pos + |w|] == w {
        assert bytes[pos..][..|w|] == w && bytes[pos..][|w|..] == bytes[pos + |w|..];
        pos := pos + |w|;
        r := Some(v);
      } else {
        assert |w| <= |bytes| - pos ==> bytes[pos..][..|w|] == bytes[pos..pos + |w|];
        r := None;
      }
    }

    method Fraction()
      requires Valid()
      modifies `pos
      ensures Valid() && pos == old(pos) + FracLength(old(Rest()))
    {
      if pos < |bytes| && bytes[pos] == 46 {
        assert bytes[pos..][1..] == bytes[pos + 1..];
        pos := pos + 1;
        Digits();
      }
    }

    method Exponent() returns (digits: nat)
      requires Valid()
      modifies `pos
      ensures Valid() && pos == old(pos) + ExpMark(old(Rest())) + digits && digits == ExpDigits(old(Rest()))
    {
      digits := 0;
      if pos < |bytes| && (bytes[pos] == 101 || bytes[pos] == 69) {
        ghost var t := Rest();
        var start := pos;
        pos := pos + 1;
        if pos < |bytes| && (bytes[pos] == 43 || bytes[pos] == 45) { pos := pos + 1; }
        assert t[ExpMark(t)..] == bytes[start + ExpMark(t)..];
        var mark := pos;
        Digits();
        digits := pos - mark;
      }
    }

    /** Advances over a number, noting where its parts end. */
    method Scan() returns (shape: NumberShape)
      requires Valid() && Rest() != []
      modifies `pos
      ensures Valid() && shape == Shape(old(Rest())) && pos == old(pos) + shape.end
    {
      hide Shape, DigitCount, FracLength, ExpMark, ExpDigits;
      var start := pos;
      ghost var s := Rest();
      if bytes[pos] == 45 { pos := pos + 1; }
      var sign := pos - start;
      assert bytes[pos..] == s[sign..];
      Digits();
      var whole := pos - start;
      assert bytes[pos..] == s[whole..];
      Fraction();
      var frac := pos - start;
      assert bytes[pos..] == s[frac..];
      var expDigits := Exponent();
      shape := NumberShape(sign, whole, frac, pos - start, expDigits);
      ShapeOfParts(s, shape);
    }

    method Number() returns (r: Option<Value>)
      requires Valid() && Rest() != [] && (Rest()[0] == 45 || IsDigit(Rest()[0]))
      modifies `pos
      ensures Answers(r, ParseNumber(old(Rest())))
      ensures r.Some? ==> old(pos) < pos
    {
      hide Shape, AsText, Integer;
      var start := pos;
      ghost var s := Rest();
      var shape := Scan();
      var text := bytes[start..pos];
      assert text == s[..shape.end] && bytes[pos..] == s[shape.end..];
      if shape.int_ < shape.end {
        r := if F64Accepts(shape) then Some(Float(AsText(text))) else None;
      } else if shape.sign == shape.int_ {
        r := None;
      } else {
        var digits := bytes[start + shape.sign..pos];
        assert digits == s[shape.sign..shape.int_];
        r := Some(Integer(shape.sign, digits));
      }
    }

    /** One character of a string body: an escape, or a raw UTF-8 character. */
    method Char() returns (r: Option<char>)
      requires Valid() && Rest() != [] && Rest()[0] != 34
      modifies `pos
      ensures Answers(r, StringChar(old(Rest())))
      ensures r.Some? ==> old(pos) < pos
    {
      ghost var s := Rest();
      if bytes[pos] == 92 {
        pos := pos + 1;
        if pos == |bytes| { return None; }
        var esc := bytes[pos];
        pos := pos + 1;
        if esc == 117 {
          if pos + 4 > |bytes| { return None; }
          assert bytes[pos..pos + 4] == s[2..6] && bytes[pos + 4..] == s[6..];
          match Hex4(bytes[pos..pos + 4]) {
            case None => r := None;
            case Some(code) => pos := pos + 4; r := FromCode(code);
          }
        } else {
          assert bytes[pos..] == s[2..];
          r := SimpleEscape(esc);
        }
      } else if bytes[pos] < 32 {
        r := None;
      } else {
        match Decode(bytes[pos..]) {
          case None => r := None;
          case Some(text) =>
            var step := DecodeStep(bytes[pos..]);
            assert bytes[pos + step.len..] == s[step.len..];
            pos := pos + step.len;
            r := Some(text[0]);
        }
      }
    }

    method String() returns (r: Option<string>)
      requires Valid() && Rest() != [] && Rest()[0] == 34
      modifies `pos
      ensures Answers(r, ParseString(old(Rest())[1..], ""))
      ensures r.Some? ==> old(pos) < pos
    {
      hide StringChar;
      ghost var goal := ParseString(Rest()[1..], "");
      assert bytes[pos..][1..] == bytes[pos + 1..];
      pos := pos + 1;
      var out := "";
      while true
        invariant old(pos) < pos <= |bytes|
        invariant ParseString(Rest(), out) == goal
        decreases |bytes| - pos
      {
        if pos == |bytes| { return None; }
        if bytes[pos] == 34 {
          assert bytes[pos..][1..] == bytes[pos + 1..];
          pos := pos + 1;
          return Some(out);
        }
        var c := Char();
        if c == None { return None; }
        out := out + [c.value];
      }
    }

    method Value(depth: nat) returns (r: Option<Json.Value>)
      requires Valid()
      modifies `pos
      ensures Answers(r, ParseValue(old(Rest()), depth))
      ensures r.Some? ==> old(pos) < pos
      decreases |bytes| - pos, 0
    {
      hide ParseObject, ParseArray, ParseNumber, ParseString, Literal;
      if depth > MAX_DEPTH { return None; }
      var head := Peek();
      if head == None { return None; }
      var b := head.value;
      assert bytes[pos..][1..] == bytes[pos + 1..];
      if b == 123 {
        r := Object(depth);
      } else if b == 91 {
        r := Array(depth);
      } else if b == 34 {
        var text := String();
        r := if text == None then None else Some(Str(text.value));
      } else if b == 116 {
        r := Lit("true", Bool(true));
      } else if b == 102 {
        r := Lit("false", Bool(false));
      } else if b == 110 {
        r := Lit("null", Null);
      } else if b == 45 || IsDigit(b) {
        r := Number();
      } else {
        r := None;
      }
    }

    method Array(depth: nat) returns (r: Option<Json.Value>)
      requires Valid() && Rest() != []
      modifies `pos
      ensures Answers(r, ParseArray(old(Rest())[1..], depth))
      ensures r.Some? ==> old(pos) < pos
      decreases |bytes| - pos - 1, 2
    {
      hide ParseItems;
      assert bytes[pos..][1..] == bytes[pos + 1..];
      pos := pos + 1;
      SkipWs();
      if pos < |bytes| && bytes[pos] == 93 {
        assert bytes[pos..][1..] == bytes[pos + 1..];
        pos := pos + 1;
        r := Some(Arr([]));
      } else {
        r := Items(depth);
      }
    }

    /** The comma-separated items up to the closing bracket. */
    method Items(depth: nat) returns (r: Option<Json.Value>)
      requires Valid()
      modifies `pos
      ensures Answers(r, ParseItems(old(Rest()), depth, []))
      ensures r.Some? ==> old(pos) < pos
      decreases |bytes| - pos, 1
    {
      hide ParseValue, SkipSpace;
      ghost var goal := ParseItems(Rest(), depth, []);
      var items := [];
      while true
        invariant old(pos) <= pos <= |bytes|
        invariant ParseItems(Rest(), depth, items) == goal
        decreases |bytes| - pos
      {
        SkipWs();
        var item := Value(depth + 1);
        if item == None { return None; }
        items := items + [item.value];
        SkipWs();
        if pos == |bytes| { return None; }
        assert bytes[pos..][1..] == bytes[pos + 1..];
        var b := bytes[pos];
        pos := pos + 1;
        if b == 93 { return Some(Arr(items)); }
        if b != 44 { return None; }
      }
    }

    /** A key, its colon, and the whitespace around them. */
    method Key() returns (r: Option<string>)
      requires Valid()
      modifies `pos
      ensures Answers(r, ParseKey(old(Rest())))
      ensures r.Some? ==> old(pos) < pos
    {
      hide ParseString, SkipSpace;
      SkipWs();
      if pos == |bytes| || bytes[pos] != 34 { return None; }
      var key := String();
      if key == None { return None; }
      SkipWs();
      if pos == |bytes| || bytes[pos] != 58 { return None; }
      assert bytes[pos..][1..] == bytes[pos + 1..];
      pos := pos + 1;
      SkipWs();
      r := key;
    }

    method Object(depth: nat) returns (r: Option<Json.Value>)
      requires Valid() && Rest() != []
      modifies `pos
      ensures Answers(r, ParseObject(old(Rest())[1..], depth))
      ensures r.Some? ==> old(pos) < pos
      decreases |bytes| - pos - 1, 2
    {
      hide ParseFields;
      assert bytes[pos..][1..] == bytes[pos + 1..];
      pos := pos + 1;
      SkipWs();
      if pos < |bytes| && bytes[pos] == 125 {
        assert bytes[pos..][1..] == bytes[pos + 1..];
        pos := pos + 1;
        r := Some(Obj([]));
      } else {
        r := Fields(depth);
      }
    }

    /** The comma-separated entries up to the closing brace; a repeated key replaces its entry. */
    method Fields(depth: nat) returns (r: Option<Json.Value>)
      requires Valid()
      modifies `pos
      ensures Answers(r, ParseFields(old(Rest()), depth, []))
      ensures r.Some? ==> old(pos) < pos
      decreases |bytes| - pos, 1
    {
      hide ParseValue, ParseKey, SkipSpace, Insert;
      ghost var goal := ParseFields(Rest(), depth, []);
      var fields: seq<Entry<Json.Value>> := [];
      while true
        invariant old(pos) <= pos <= |bytes|
        invariant ParseFields(Rest(), depth, fields) == goal
        decreases |bytes| - pos
      {
        var key := Key();
        if key == None { return None; }
        var item := Value(depth + 1);
        if item == None { return None; }
        fields := Insert(fields, key.value, item.value);
        SkipWs();
        if pos == |bytes| { return None; }
        assert bytes[pos..][1..] == bytes[pos + 1..];
        var b := bytes[pos];
        pos := pos + 1;
        if b == 125 { return Some(Obj(fields)); }
        if b != 44 { return None; }
      }
    }
  }

  /** `parse`. */
  method ParseText(text: string) returns (r: Option<Value>)
    ensures r == Parse(text)
  {
    var bytes := Bytes(text);
    var parser := new Parser(bytes);
    assert bytes[0..] == bytes;
    parser.SkipWs();
    r := parser.Value(0);
    if r.Some? {
      parser.SkipWs();
      if parser.pos != |bytes| { r := None; }
    }
  }
}
