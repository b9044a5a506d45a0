/**
 * The small part of the JavaScript runtime that the modelled snippets lean on:
 * the `undefined` / `null` distinction, numbers that can be NaN,
 * `Array.prototype.indexOf`, and the conversion of an integral number to its
 * decimal string (as `'(' + x + ...` performs it), with a parser as its inverse.
 */
module JsRuntime {

  datatype Option<T> = None | Some(value: T)

  datatype Result<T, E> = Success(value: T) | Failure(error: E)

  /** A JavaScript slot that may hold `undefined`, `null` or a proper value. */
  datatype JsValue<T> = Undefined | Null | Defined(value: T)

  /** A JavaScript number restricted to integral values, plus NaN. */
  datatype Number = Int(value: int) | NaN

  /** `Number(v)` for a slot holding an integer: `undefined` is NaN, `null` is 0. */
  function ToNumber(v: JsValue<int>): Number {
    match v
    case Undefined => NaN
    case Null => Int(0)
    case Defined(n) => Int(n)
  }

  /** Numeric `+`: NaN is absorbing. */
  function Plus(a: Number, b: Number): (r: Number)
    ensures r.NaN? <==> a.NaN? || b.NaN?
    ensures a.Int? && b.Int? ==> r.value == a.value + b.value
  {
    if a.Int? && b.Int? then Int(a.value + b.value) else NaN
  }

  /**
   * `s.indexOf(x)`: the index of the first element strictly equal to `x`,
   * or -1 when there is none.
   */
  function IndexOf<T(==)>(s: seq<T>, x: T): (i: int)
    ensures -1 <= i < |s|
    ensures i == -1 <==> x !in s
    ensures 0 <= i ==> s[i] == x && x !in s[..i]
  {
    if s == [] then -1
    else if s[0] == x then 0
    else
      var j := IndexOf(s[1..], x);
      if j == -1 then -1
      else
        assert s[1..][..j] == s[1..j + 1];
        j + 1
  }

  /** The first occurrence is the only index `IndexOf` can return. */
  lemma IndexOfFirst<T>(s: seq<T>, x: T, k: nat)
    requires k < |s| && s[k] == x && x !in s[..k]
    ensures IndexOf(s, x) == k
  {
    assert s[..k + 1][k] == x;
  }

  // ---------------------------------------------------------------------------
  // Integral numbers as decimal strings

  predicate IsDigit(c: char) {
    '0' <= c <= '9'
  }

  function DigitChar(d: nat): (c: char)
    requires d < 10
    ensures IsDigit(c)
  {
    ('0' as int + d) as char
  }

  function DigitValue(c: char): (d: nat)
    requires IsDigit(c)
    ensures d < 10 && DigitChar(d) == c
  {
    c as int - '0' as int
  }

  /** The decimal digits of `n`, most significant first, without leading zeros. */
  function NatToString(n: nat): (s: string)
    ensures |s| >= 1
    ensures forall i :: 0 <= i < |s| ==> IsDigit(s[i])
    ensures (s[0] == '0') <==> n == 0
    ensures n == 0 ==> s == "0"
  {
    if n < 10 then [DigitChar(n)] else NatToString(n / 10) + [DigitChar(n % 10)]
  }

  /**
   * `String(n)` for an integral `n` below 1e21 in magnitude: a minus sign, then
   * the digits of `|n|` (larger numbers are written in exponent form, which is
   * not modelled).
   */
  function IntToString(n: int): (s: string)
    ensures |s| >= 1
    ensures (s[0] == '-') <==> n < 0
    ensures ',' !in s && ')' !in s
  {
    if n < 0 then "-" + NatToString(-n) else NatToString(n)
  }

  predicate AllDigits(s: string) {
    forall i :: 0 <= i < |s| ==> IsDigit(s[i])
  }

  /** The value of a string of digits, read most significant first. */
  function DigitsValue(s: string): nat
    requires forall i :: 0 <= i < |s| ==> IsDigit(s[i])
  {
    if s == [] then 0 else DigitsValue(s[..|s| - 1]) * 10 + DigitValue(s[|s| - 1])
  }

  /**
   * Reads the canonical decimal text of an integer: an optional minus sign
   * followed by at least one digit, with no leading zero and no `-0`.
   */
  function ParseInt(s: string): Option<int> {
    var negative := |s| > 0 && s[0] == '-';
    var digits := if negative then s[1..] else s;
    if digits == [] || !AllDigits(digits) then None
    else if |digits| > 1 && digits[0] == '0' then None
    else
      var magnitude: int := DigitsValue(digits);
      if negative && magnitude == 0 then None
      else Some(if negative then -magnitude else magnitude)
  }

  lemma {:induction false} NatToStringRoundTrip(n: nat)
    ensures DigitsValue(NatToString(n)) == n
  {
    if n >= 10 {
      var s := NatToString(n);
      assert s[..|s| - 1] == NatToString(n / 10);
      NatToStringRoundTrip(n / 10);
    }
  }

  /** Every integer's decimal string reads back as that integer. */
  lemma IntToStringRoundTrip(n: int)
    ensures ParseInt(IntToString(n)) == Some(n)
  {
    var s := IntToString(n);
    if n < 0 {
      assert s[1..] == NatToString(-n);
      NatToStringRoundTrip(-n);
    } else {
      NatToStringRoundTrip(n);
    }
  }

  /** Digits without a leading zero denote a positive number. */
  lemma {:induction false} DigitsValuePositive(p: string)
    requires |p| >= 1 && p[0] != '0'
    requires forall i :: 0 <= i < |p| ==> IsDigit(p[i])
    ensures DigitsValue(p) > 0
    decreases |p|
  {
    if |p| > 1 {
      DigitsValuePositive(p[..|p| - 1]);
    }
  }

  /** Digits without a leading zero are exactly the decimal string of their value. */
  lemma {:induction false} DigitsRoundTrip(d: string)
    requires |d| >= 1 && (|d| == 1 || d[0] != '0')
    requires forall i :: 0 <= i < |d| ==> IsDigit(d[i])
    ensures NatToString(DigitsValue(d)) == d
    decreases |d|
  {
    if |d| > 1 {
      var p := d[..|d| - 1];
      DigitsValuePositive(p);
      DigitsRoundTrip(p);
      var v := DigitsValue(d);
      assert v / 10 == DigitsValue(p) && v % 10 == DigitValue(d[|d| - 1]);
      assert d == p + [d[|d| - 1]];
    }
  }

  /** The only text `ParseInt` reads as `n` is the decimal string of `n`. */
  lemma ParseIntCanonical(s: string, n: int)
    requires ParseInt(s) == Some(n)
    ensures s == IntToString(n)
  {
    var negative := |s| > 0 && s[0] == '-';
    var digits := if negative then s[1..] else s;
    DigitsRoundTrip(digits);
    if negative {
      assert s == "-" + digits;
    }
  }
}
