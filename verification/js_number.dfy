/**
 * Conversions between integral JavaScript Numbers and their decimal text:
 * `String(n)` (also what a template literal `${n}` produces) and `Number(s)`.
 * Only integers are modelled; JavaScript's floating point is not.
 */
module JsNumber {

  predicate IsDigit(c: char) {
    '0' <= c <= '9'
  }

  predicate AllDigits(s: string) {
    forall i :: 0 <= i < |s| ==> IsDigit(s[i])
  }

  function DigitChar(d: nat): (c: char)
    requires d < 10
    ensures IsDigit(c)
  {
    ('0' as int + d) as char
  }

  function DigitValue(c: char): (d: nat)
    requires IsDigit(c)
    ensures d < 10
  {
    c as int - '0' as int
  }

  /** Decimal digits of `n`, most significant first, without leading zeros. */
  function NatToDigits(n: nat): (s: string)
    ensures |s| > 0 && AllDigits(s)
    ensures s[0] == '0' ==> n == 0
    decreases n
  {
    if n < 10 then [DigitChar(n)] else NatToDigits(n / 10) + [DigitChar(n % 10)]
  }

  /** The value of a string of decimal digits (the empty string is worth 0). */
  function DigitsValue(s: string): nat
    requires AllDigits(s)
  {
    if s == [] then 0 else DigitsValue(s[..|s| - 1]) * 10 + DigitValue(s[|s| - 1])
  }

  /** `String(n)` for an integral Number. */
  function IntToString(n: int): (s: string)
    ensures |s| > 0
    ensures s[0] == '-' <==> n < 0
    ensures n >= 0 ==> AllDigits(s)
    ensures n < 0 ==> AllDigits(s[1..]) && |s| > 1
  {
    if n < 0 then "-" + NatToDigits(-n) else NatToDigits(n)
  }

  /** The outcome of `Number(s)`: an integer, or NaN. */
  datatype Num = Int(value: int) | NaN

  /** The decimal integer literals `Number` accepts here: an optional sign, then digits. */
  predicate IsDecimalLiteral(s: string) {
    || (|s| > 0 && AllDigits(s))
    || (|s| > 1 && (s[0] == '-' || s[0] == '+') && AllDigits(s[1..]))
  }

  /**
   * `Number(s)` on the strings this model meets: the empty string is 0, a decimal
   * literal is its value, anything else is NaN.
   */
  function ToNumber(s: string): (r: Num)
    ensures r.Int? <==> s == "" || IsDecimalLiteral(s)
    ensures r.Int? && r.value < 0 ==> s != "" && s[0] == '-'
  {
    if s == "" then Int(0)
    else if AllDigits(s) then Int(DigitsValue(s))
    else if |s| > 1 && s[0] == '-' && AllDigits(s[1..]) then Int(-(DigitsValue(s[1..]) as int))
    else if |s| > 1 && s[0] == '+' && AllDigits(s[1..]) then Int(DigitsValue(s[1..]))
    else NaN
  }

  lemma DigitRoundTrip(d: nat)
    requires d < 10
    ensures DigitValue(DigitChar(d)) == d
  {
  }

  /** Reading back the digits of `n` gives `n`. */
  lemma {:induction false} DigitsRoundTrip(n: nat)
    ensures DigitsValue(NatToDigits(n)) == n
    decreases n
  {
    if n < 10 {
      DigitRoundTrip(n);
      assert NatToDigits(n)[..0] == [];
    } else {
      var s := NatToDigits(n);
      var prefix := NatToDigits(n / 10);
      assert s == prefix + [DigitChar(n % 10)];
      assert s[..|s| - 1] == prefix;
      DigitsRoundTrip(n / 10);
      DigitRoundTrip(n % 10);
    }
  }

  /** `Number(String(n)) === n` for every integer `n`. */
  lemma NumberOfString(n: int)
    ensures ToNumber(IntToString(n)) == Int(n)
  {
    var s := IntToString(n);
    if n < 0 {
      assert s[1..] == NatToDigits(-n);
      assert !IsDigit(s[0]);
      DigitsRoundTrip(-n);
    } else {
      DigitsRoundTrip(n);
    }
  }

  /** Distinct integers have distinct decimal strings. */
  lemma StringOfIntInjective(a: int, b: int)
    requires IntToString(a) == IntToString(b)
    ensures a == b
  {
    NumberOfString(a);
    NumberOfString(b);
  }

  /** `strings.map(Number)` */
  function MapToNumber(strings: seq<string>): (r: seq<Num>)
    ensures |r| == |strings|
    ensures forall i :: 0 <= i < |strings| ==> r[i] == ToNumber(strings[i])
  {
    seq(|strings|, i requires 0 <= i < |strings| => ToNumber(strings[i]))
  }

  /** `ids.map(String)` */
  function MapToString(ids: seq<int>): (r: seq<string>)
    ensures |r| == |ids|
    ensures forall i :: 0 <= i < |ids| ==> r[i] == IntToString(ids[i])
  {
    seq(|ids|, i requires 0 <= i < |ids| => IntToString(ids[i]))
  }

  /** Converting ids to strings and back with `Number` gives the same ids, in order. */
  lemma NumbersOfStrings(ids: seq<int>)
    ensures MapToNumber(MapToString(ids)) == seq(|ids|, i requires 0 <= i < |ids| => Int(ids[i]))
  {
    forall i | 0 <= i < |ids|
      ensures MapToNumber(MapToString(ids))[i] == Int(ids[i])
    {
      NumberOfString(ids[i]);
    }
  }
}
