/** Decimal text of integers, as `to_string` and `strconv.FormatInt` print it. */
module Decimal {
  import opened Utf8

  predicate IsDigit(b: Byte) { 48 <= b < 58 }

  function Digits(n: nat): (r: string)
    ensures |r| >= 1
    ensures forall i :: 0 <= i < |r| ==> '0' <= r[i] <= '9'
  {
    if n < 10 then [(48 + n) as char] else Digits(n / 10) + [(48 + n % 10) as char]
  }

  function IntText(n: int): string {
    if n < 0 then "-" + Digits(-n) else Digits(n)
  }

  /** The number a run of digits denotes; leading zeros are allowed. */
  function NatOf(s: seq<Byte>): nat
    requires forall i :: 0 <= i < |s| ==> IsDigit(s[i])
  {
    if s == [] then 0
    else
      var last: int := s[|s| - 1];
      assert IsDigit(last);
      NatOf(s[..|s| - 1]) * 10 + (last - 48)
  }

  lemma {:induction false} NatOfDigits(n: nat)
    ensures |Bytes(Digits(n))| == |Digits(n)|
    ensures forall i :: 0 <= i < |Bytes(Digits(n))| ==> IsDigit(Bytes(Digits(n))[i])
    ensures NatOf(Bytes(Digits(n))) == n
  {
    AsciiBytes(Digits(n));
    if n < 10 {
      assert Bytes(Digits(n)) == [48 + n];
      assert NatOf([48 + n]) == NatOf([]) * 10 + n;
    } else {
      NatOfDigits(n / 10);
      var last := [(48 + n % 10) as char];
      AsciiBytes(last);
      BytesConcat(Digits(n / 10), last);
      var b := Bytes(Digits(n));
      assert b == Bytes(Digits(n / 10)) + [48 + n % 10];
      assert b[..|b| - 1] == Bytes(Digits(n / 10));
    }
  }

  /** No zero stands in front, except as the whole number. */
  lemma {:induction false} NoLeadingZero(n: nat)
    ensures Digits(n)[0] == '0' <==> n == 0
    ensures n == 0 ==> Digits(n) == "0"
  {
    if n >= 10 { NoLeadingZero(n / 10); }
  }

  /** Different integers print differently. */
  lemma IntTextInjective(a: int, b: int)
    requires IntText(a) == IntText(b)
    ensures a == b
  {
    NatOfDigits(if a < 0 then -a else a);
    NatOfDigits(if b < 0 then -b else b);
    assert a < 0 <==> IntText(a)[0] == '-';
    assert b < 0 <==> IntText(b)[0] == '-';
    assert a < 0 ==> IntText(a)[1..] == Digits(-a);
    assert b < 0 ==> IntText(b)[1..] == Digits(-b);
  }
}
