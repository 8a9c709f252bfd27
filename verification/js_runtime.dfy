/**
 * The few pieces of JavaScript arithmetic and string conversion that the
 * focus timer relies on, restricted to integer-valued Numbers:
 * the truncating `%` operator, `Number.prototype.toString()` in base 10
 * and `String.prototype.padStart`. `DigitsValue` reads a digit string back
 * as a number; it is the inverse used to state the round trips.
 */
module JsRuntime {

  /** A value that may be absent (`null` or a missing key). */
  datatype Option<T> = None | Some(value: T) {
    function GetOr(default: T): T {
      match this
      case Some(v) => v
      case None => default
    }
  }

  function Abs(x: int): nat {
    if x < 0 then -x else x
  }

  /** JavaScript `a % b` on integers: the remainder of truncating division.
      It differs from the dividend by a multiple of the divisor, is smaller
      than the divisor in magnitude and takes the sign of the dividend
      (Dafny's own `%` is Euclidean and never negative). */
  function JsRem(a: int, b: int): (r: int)
    requires b != 0
    ensures exists q :: a == q * Abs(b) + r
    ensures a >= 0 ==> 0 <= r < Abs(b)
    ensures a < 0 ==> -(Abs(b) as int) < r <= 0
  {
    if a >= 0 then
      assert a == (a / Abs(b)) * Abs(b) + a % Abs(b);
      a % Abs(b)
    else
      assert a == -((-a) / Abs(b)) * Abs(b) + -((-a) % Abs(b));
      -((-a) % Abs(b))
  }

  predicate IsDigit(c: char) {
    '0' <= c <= '9'
  }

  predicate IsDigits(s: string) {
    forall i :: 0 <= i < |s| ==> IsDigit(s[i])
  }

  function DigitChar(d: nat): (c: char)
    requires d < 10
    ensures IsDigit(c) && (c as int) - ('0' as int) == d
  {
    ('0' as int + d) as char
  }

  /** The base-10 digits of `n`, most significant first, without leading
      zeros: what `n.toString()` yields for a non-negative integer. */
  function DecimalDigits(n: nat): (r: string)
    ensures |r| >= 1 && IsDigits(r)
    ensures r[0] == '0' ==> n == 0 && r == "0"
    ensures n < 10 <==> |r| == 1
    ensures 10 <= n < 100 <==> |r| == 2
  {
    if n < 10 then [DigitChar(n)] else DecimalDigits(n / 10) + [DigitChar(n % 10)]
  }

  /** `x.toString()` (and `String(x)`) for an integer-valued Number: the
      digits of a non-negative number, and a minus sign before the digits of
      the magnitude of a negative one. `NumberReadBack` shows that the
      digits read back as the magnitude. */
  function NumberToString(x: int): (r: string)
    ensures x >= 0 ==> r == DecimalDigits(x)
    ensures x < 0 ==> |r| >= 2 && r[0] == '-' && r[1..] == DecimalDigits(-x)
  {
    if x < 0 then
      assert ("-" + DecimalDigits(-x))[1..] == DecimalDigits(-x);
      "-" + DecimalDigits(-x)
    else DecimalDigits(x)
  }

  /** `s.padStart(width, [fill])`: prepends copies of `fill` until `s` has at
      least `width` characters; a longer string is returned unchanged. */
  function PadStart(s: string, width: nat, fill: char): (r: string)
    ensures |r| == if |s| >= width then |s| else width
    ensures r[|r| - |s|..] == s
    ensures forall i :: 0 <= i < |r| - |s| ==> r[i] == fill
  {
    if |s| >= width then s else seq(width - |s|, _ => fill) + s
  }

  /** The number a string of decimal digits denotes (leading zeros allowed). */
  function DigitsValue(s: string): nat
    requires IsDigits(s)
  {
    if s == [] then 0
    else DigitsValue(s[..|s| - 1]) * 10 + ((s[|s| - 1] as int) - ('0' as int))
  }

  /** Reading back what `toString` wrote gives the number again. */
  lemma {:induction false} DecimalRoundTrip(n: nat)
    ensures DigitsValue(DecimalDigits(n)) == n
  {
    if n >= 10 {
      var r := DecimalDigits(n);
      assert r[..|r| - 1] == DecimalDigits(n / 10);
      DecimalRoundTrip(n / 10);
    }
  }

  /** What `toString()` writes reads back as the number: its digits for a
      non-negative one, and for a negative one the digits after the minus
      sign give the magnitude. */
  lemma NumberReadBack(x: int)
    ensures x >= 0 ==> IsDigits(NumberToString(x)) && DigitsValue(NumberToString(x)) == x
    ensures x < 0 ==> IsDigits(NumberToString(x)[1..]) && DigitsValue(NumberToString(x)[1..]) == -x
  {
    DecimalRoundTrip(Abs(x));
  }

  /** One leading zero does not change the value of a digit string. */
  lemma {:induction false} LeadingZeroValue(s: string)
    requires IsDigits(s)
    ensures IsDigits("0" + s) && DigitsValue("0" + s) == DigitsValue(s)
  {
    if s != [] {
      var z := "0" + s;
      assert z[..|z| - 1] == "0" + s[..|s| - 1];
      LeadingZeroValue(s[..|s| - 1]);
    }
  }

  /** Padding a digit string with zeros keeps its value. */
  lemma {:induction false} ZeroPadValue(s: string, width: nat)
    requires IsDigits(s)
    ensures IsDigits(PadStart(s, width, '0'))
    ensures DigitsValue(PadStart(s, width, '0')) == DigitsValue(s)
    decreases width - |s|
  {
    if |s| < width {
      var p := PadStart(s, width, '0');
      LeadingZeroValue(s);
      ZeroPadValue("0" + s, width);
      assert p == PadStart("0" + s, width, '0');
    }
  }
}
