/** C#'s 32-bit `int`, its `ToString()` and `int.TryParse`, with '-' and '+'
    as the signs. */
module Numerals {
  import opened Wrappers

  const Int32Min: int := -0x8000_0000
  const Int32Max: int := 0x7FFF_FFFF

  /** C#'s `int` (System.Int32). */
  type Int32 = x: int | -0x8000_0000 <= x <= 0x7FFF_FFFF

  predicate IsDigit(c: char) {
    '0' <= c <= '9'
  }

  predicate AllDigits(s: string) {
    forall i :: 0 <= i < |s| ==> IsDigit(s[i])
  }

  function DigitChar(d: nat): (c: char)
    requires d < 10
    ensures IsDigit(c) && c as int - '0' as int == d
  {
    ('0' as int + d) as char
  }

  /** The number a string of decimal digits denotes (leading zeros allowed). */
  function DigitsValue(s: string): nat
    requires AllDigits(s)
  {
    if s == [] then 0 else DigitsValue(s[..|s| - 1]) * 10 + (s[|s| - 1] as int - '0' as int)
  }

  /** The shortest decimal numeral of `n`. */
  function NatToDecimal(n: nat): (s: string)
    ensures |s| >= 1 && AllDigits(s)
    ensures s[0] == '0' ==> n == 0 && |s| == 1
  {
    if n < 10 then [DigitChar(n)] else NatToDecimal(n / 10) + [DigitChar(n % 10)]
  }

  /** `order.ToString()`: a leading '-' for negatives, then the shortest numeral. */
  function FormatInt32(i: Int32): (s: string)
    ensures |s| >= 1 && (s[0] == '-' <==> i < 0)
    ensures i < 0 ==> |s| >= 2 && AllDigits(s[1..]) && DigitsValue(s[1..]) == -(i as int)
    ensures i >= 0 ==> AllDigits(s) && DigitsValue(s) == i
  {
    DecimalDenotes(if i < 0 then -(i as int) else i as int);
    if i < 0 then "-" + NatToDecimal(-(i as int)) else NatToDecimal(i)
  }

  /** `int.TryParse` with an optional '+' or '-' sign, decimal digits and a
      range check against the 32-bit bounds; `None` when it returns false. */
  function TryParseInt32(s: string): (r: Option<Int32>)
    ensures r.Some? ==> |s| > 0
    ensures r.Some? && AllDigits(s) ==> r.value == DigitsValue(s)
    ensures r.Some? && s[0] == '+' ==> |s| > 1 && AllDigits(s[1..]) && r.value == DigitsValue(s[1..])
    ensures r.Some? && s[0] == '-' ==> |s| > 1 && AllDigits(s[1..]) && r.value == -(DigitsValue(s[1..]) as int)
    ensures r.Some? && s[0] != '+' && s[0] != '-' ==> AllDigits(s)
  {
    var signed := |s| > 0 && (s[0] == '-' || s[0] == '+');
    var digits := if signed then s[1..] else s;
    if |digits| == 0 || !AllDigits(digits) then None
    else
      var v: int := if signed && s[0] == '-' then 0 - DigitsValue(digits) as int else DigitsValue(digits);
      if Int32Min <= v <= Int32Max then Some(v) else None
  }

  /** A '+' before a numeral leaves its value. */
  lemma ParsePlus(d: string)
    requires |d| > 0 && AllDigits(d)
    ensures TryParseInt32("+" + d) == if DigitsValue(d) <= Int32Max then Some(DigitsValue(d)) else None
  {
    var s := "+" + d;
    assert s[1..] == d;
  }

  /** A '-' before a numeral negates its value. */
  lemma ParseMinus(d: string)
    requires |d| > 0 && AllDigits(d)
    ensures TryParseInt32("-" + d) == if DigitsValue(d) <= -Int32Min then Some(-(DigitsValue(d) as int)) else None
  {
    var s := "-" + d;
    assert s[1..] == d;
  }

  /** Every numeral within range parses, with or without a sign, to the value
      it denotes; a numeral out of range does not parse. */
  lemma ParseAccepts(d: string)
    requires |d| > 0 && AllDigits(d)
    ensures TryParseInt32(d) == TryParseInt32("+" + d)
    ensures TryParseInt32(d) == if DigitsValue(d) <= Int32Max then Some(DigitsValue(d)) else None
    ensures TryParseInt32("-" + d) == if DigitsValue(d) <= -Int32Min then Some(-(DigitsValue(d) as int)) else None
  {
    assert IsDigit(d[0]);
    ParsePlus(d);
    ParseMinus(d);
  }

  lemma {:induction false} DecimalDenotes(n: nat)
    ensures DigitsValue(NatToDecimal(n)) == n
  {
    if n >= 10 {
      var s := NatToDecimal(n);
      assert s[..|s| - 1] == NatToDecimal(n / 10);
      DecimalDenotes(n / 10);
    }
  }

  /** Formatting then parsing gives the number back: the round trip the
      orderer relies on when it reads the value the discoverer wrote. */
  lemma FormatThenParse(i: Int32)
    ensures TryParseInt32(FormatInt32(i)) == Some(i)
  {
    var s := FormatInt32(i);
    if i < 0 {
      var n: nat := -(i as int);
      var d := NatToDecimal(n);
      assert s == "-" + d && s[1..] == d;
      DecimalDenotes(n);
      assert DigitsValue(s[1..]) == n;
    } else {
      var d := NatToDecimal(i);
      assert s == d;
      assert d[0] != '-' && d[0] != '+';
      DecimalDenotes(i);
    }
  }

  /** Distinct numbers are formatted as distinct strings. */
  lemma FormatIsInjective(i: Int32, j: Int32)
    requires FormatInt32(i) == FormatInt32(j)
    ensures i == j
  {
    FormatThenParse(i);
    FormatThenParse(j);
  }

  /** Text that is not a signed numeral is refused. */
  lemma ParseRefuses()
    ensures TryParseInt32("") == None
    ensures TryParseInt32("-") == None
    ensures TryParseInt32("12a") == None
  {
    assert !AllDigits("12a") by { assert !IsDigit("12a"[2]); }
  }
}
