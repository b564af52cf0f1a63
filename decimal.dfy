/** Kotlin's `String.toInt()` on decimal text, and the decimal rendering of a
    natural number that it inverts. */
module Decimal {
  import opened Wrappers

  const INT_MIN: int := -0x8000_0000
  const INT_MAX: int := 0x7FFF_FFFF

  predicate IsDigit(c: char) { '0' <= c <= '9' }

  predicate AllDigits(s: string) {
    forall i :: 0 <= i < |s| ==> IsDigit(s[i])
  }

  /** The value of a run of decimal digits, most significant first. */
  function DigitsValue(s: string): nat
    requires AllDigits(s)
  {
    if |s| == 0 then 0
    else DigitsValue(s[..|s| - 1]) * 10 + (s[|s| - 1] as int - '0' as int)
  }

  /** `s.toInt()`: an optional `+` or `-`, then at least one digit, and a value
      inside the 32-bit range; anything else throws NumberFormatException. */
  function ToInt(s: string): (r: Result<int>)
    ensures r.Ok? ==> INT_MIN <= r.value <= INT_MAX
    ensures |s| == 0 ==> r.Fail?
    ensures r.Fail? ==> r == Fail(NumberFormat)
  {
    if |s| == 0 then Fail(NumberFormat)
    else
      var negative := s[0] == '-';
      var digits := if s[0] == '-' || s[0] == '+' then s[1..] else s;
      if |digits| == 0 || !AllDigits(digits) then Fail(NumberFormat)
      else
        var magnitude: int := DigitsValue(digits);
        var v := if negative then 0 - magnitude else magnitude;
        if v < INT_MIN || v > INT_MAX then Fail(NumberFormat) else Ok(v)
  }

  function DigitChar(d: nat): char
    requires d < 10
  {
    ('0' as int + d) as char
  }

  /** `n.toString()` for a natural number. */
  function Render(n: nat): (r: string)
    ensures |r| > 0 && AllDigits(r)
  {
    if n < 10 then [DigitChar(n)] else Render(n / 10) + [DigitChar(n % 10)]
  }

  lemma {:induction false} RenderValue(n: nat)
    ensures DigitsValue(Render(n)) == n
  {
    if n >= 10 {
      var r := Render(n);
      assert r[..|r| - 1] == Render(n / 10);
      RenderValue(n / 10);
    }
  }

  /** `n.toString().toInt() == n` for every natural number in the Int range. */
  lemma ToIntRender(n: nat)
    requires n <= INT_MAX
    ensures ToInt(Render(n)) == Ok(n)
  {
    RenderValue(n);
  }
}
