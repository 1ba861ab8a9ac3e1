/**
 * The graduation-year field is text. The validators read it through
 * JavaScript's number coercion (`isNaN(y)`, `y < 1950`), the submit handlers
 * through `parseInt(y)`, and the edit screen fills it back in with
 * `toString()`. This module models those three conversions on decimal
 * integers, and the year guard the register and edit screens share.
 */
module Numbers {
  import opened Wrappers
  import Strings

  predicate IsDigit(c: char) {
    '0' <= c <= '9'
  }

  predicate AllDigits(s: string) {
    forall i :: 0 <= i < |s| ==> IsDigit(s[i])
  }

  function DigitValue(c: char): nat
    requires IsDigit(c)
  {
    c as int - '0' as int
  }

  function DigitChar(d: nat): (c: char)
    requires d < 10
    ensures IsDigit(c) && DigitValue(c) == d
  {
    ('0' as int + d) as char
  }

  /** The value of a string of decimal digits, most significant first. */
  function DecimalValue(s: string): nat
    requires AllDigits(s)
  {
    if s == [] then 0 else DecimalValue(s[..|s| - 1]) * 10 + DigitValue(s[|s| - 1])
  }

  /** `n.toString()` for a non-negative integer: its decimal digits, no leading zero. */
  function ShowNat(n: nat): (r: string)
    ensures r != [] && AllDigits(r)
  {
    if n < 10 then [DigitChar(n)] else ShowNat(n / 10) + [DigitChar(n % 10)]
  }

  /**
   * `i.toString()` for an integer: a minus sign exactly for a negative
   * integer, followed by the digits of its magnitude.
   */
  function ShowInt(i: int): (r: string)
    ensures r != [] && (r[0] == '-' <==> i < 0)
  {
    if i < 0 then "-" + ShowNat(-i) else ShowNat(i)
  }

  /** `toString()` writes a non-empty digit string that reads back as the number it came from. */
  lemma {:induction false} ShowNatRoundTrip(n: nat)
    ensures ShowNat(n) != [] && AllDigits(ShowNat(n))
    ensures DecimalValue(ShowNat(n)) == n
  {
    if n >= 10 {
      ShowNatRoundTrip(n / 10);
      var p := ShowNat(n / 10);
      var s := p + [DigitChar(n % 10)];
      assert s[..|s| - 1] == p;
    }
  }

  /**
   * A sign followed by at least one digit, and nothing else: the integer
   * forms of ECMAScript's StrDecimalLiteral.
   */
  function SignedDecimal(t: string): Option<int> {
    if t != [] && (t[0] == '+' || t[0] == '-') then
      if |t| > 1 && AllDigits(t[1..]) then
        var v: int := DecimalValue(t[1..]);
        Some(if t[0] == '-' then -v else v)
      else None
    else if t != [] && AllDigits(t) then Some(DecimalValue(t))
    else None
  }

  /**
   * `Number(s)`, the coercion behind `isNaN(s)` and `s < 1950`: white space
   * around the text is ignored, a blank string is 0, and anything that is
   * not a signed decimal integer is NaN (`None`).
   */
  function NumberValue(s: string): (r: Option<int>)
    ensures Strings.AllWhiteSpace(s) ==> r == Some(0)
    ensures r.Some? && !Strings.AllWhiteSpace(s) ==> IsDigit(Strings.Trim(s)[|Strings.Trim(s)| - 1])
  {
    var t := Strings.Trim(s);
    Strings.TrimEmptyIff(s);
    if t == [] then Some(0)
    else if |t| > 1 && (t[0] == '+' || t[0] == '-') then
      assert t[1..][|t| - 2] == t[|t| - 1];
      SignedDecimal(t)
    else SignedDecimal(t)
  }

  /** The longest run of digits at the start of `s`. */
  function DigitPrefix(s: string): (r: string)
    ensures AllDigits(r) && |r| <= |s| && r == s[..|r|]
    ensures |r| == |s| || !IsDigit(s[|r|])
  {
    if s != [] && IsDigit(s[0]) then [s[0]] + DigitPrefix(s[1..]) else []
  }

  /**
   * `parseInt(s)`: leading white space is skipped, then an optional sign,
   * then as many digits as there are; with no digit at all the result is NaN.
   */
  function ParseInt(s: string): (r: Option<int>)
    ensures Strings.AllWhiteSpace(s) ==> r.None?
  {
    SignedDigitPrefix(Strings.TrimStart(s))
  }

  /** `parseInt` once the leading white space is gone. */
  function SignedDigitPrefix(u: string): Option<int> {
    var negative := u != [] && u[0] == '-';
    var rest := if u != [] && (u[0] == '+' || u[0] == '-') then u[1..] else u;
    var d := DigitPrefix(rest);
    var v: int := DecimalValue(d);
    if d == [] then None else Some(if negative then -v else v)
  }

  /** The digit run at the start of digits-then-a-non-digit is exactly those digits. */
  lemma {:induction false} DigitPrefixStops(d: string, w: string)
    requires AllDigits(d)
    requires w == [] || !IsDigit(w[0])
    ensures DigitPrefix(d + w) == d
  {
    if d != [] {
      assert (d + w)[1..] == d[1..] + w;
      DigitPrefixStops(d[1..], w);
    }
  }

  /**
   * Wherever the coercion `Number(s)` gives a number and the text is not
   * blank, `parseInt(s)` gives that same number: the value a validator
   * checked is the value the submit handler sends.
   */
  lemma ParseIntAgreesWithNumber(s: string)
    requires Strings.Trim(s) != [] && NumberValue(s).Some?
    ensures ParseInt(s) == NumberValue(s)
  {
    var t := Strings.Trim(s);
    var u := Strings.TrimStart(s);
    Strings.TrimStartSplits(s);
    var w := u[|t|..];
    assert w == [] || !IsDigit(w[0]) by {
      if w != [] { assert Strings.IsWhiteSpace(w[0]); }
    }
    assert u == t + w;
    SignedDigitPrefixStops(t, w);
  }

  lemma SignedDigitPrefixStops(t: string, w: string)
    requires SignedDecimal(t).Some?
    requires w == [] || !IsDigit(w[0])
    ensures SignedDigitPrefix(t + w) == SignedDecimal(t)
  {
    assert (t + w)[0] == t[0];
    if t[0] == '+' || t[0] == '-' {
      assert (t + w)[1..] == t[1..] + w;
      DigitPrefixStops(t[1..], w);
    } else {
      DigitPrefixStops(t, w);
    }
  }

  /** Coercing or parsing what `toString()` wrote gives back the integer. */
  lemma ShowIntReadsBack(i: int)
    ensures NumberValue(ShowInt(i)) == Some(i)
    ensures ParseInt(ShowInt(i)) == Some(i)
    ensures Strings.Trim(ShowInt(i)) == ShowInt(i) != []
  {
    var n: nat := if i < 0 then -i else i;
    ShowNatRoundTrip(n);
    var s := ShowInt(i);
    assert !Strings.IsWhiteSpace(s[0]);
    assert !Strings.IsWhiteSpace(s[|s| - 1]);
    Strings.TrimOfTrimmed(s);
    if i < 0 {
      assert s[1..] == ShowNat(n);
    }
    ParseIntAgreesWithNumber(s);
  }

  /** The lowest graduation year either screen accepts. */
  const MinYear := 1950

  /**
   * The year guard of the register and edit screens, with the upper bound
   * each passes: the field is not empty, coerces to a number, and that
   * number lies in [1950, upper]. An accepted year is one `parseInt` reads
   * as the very number the guard checked.
   */
  function YearAccepted(y: string, upper: int): (ok: bool)
    ensures ok ==> NumberValue(y).Some? && ParseInt(y) == NumberValue(y) && MinYear <= NumberValue(y).value <= upper
  {
    var ok := y != [] && NumberValue(y).Some? && MinYear <= NumberValue(y).value <= upper;
    if ok then
      ParseIntAgreesWithNumber(y);
      ok
    else ok
  }

  /** A year written by `toString()` passes the guard exactly when it lies in [1950, upper]. */
  lemma ShownYearAccepted(v: int, upper: int)
    ensures YearAccepted(ShowInt(v), upper) <==> MinYear <= v <= upper
  {
    ShowIntReadsBack(v);
  }

  /** Both bounds are inclusive: 1950 and `upper` pass, 1949 and `upper + 1` do not. */
  lemma YearBoundsInclusive(upper: int)
    requires upper >= MinYear
    ensures YearAccepted(ShowInt(MinYear), upper)
    ensures !YearAccepted(ShowInt(MinYear - 1), upper)
    ensures YearAccepted(ShowInt(upper), upper)
    ensures !YearAccepted(ShowInt(upper + 1), upper)
  {
    ShowIntReadsBack(MinYear);
    ShowIntReadsBack(MinYear - 1);
    ShowIntReadsBack(upper);
    ShowIntReadsBack(upper + 1);
  }
}
