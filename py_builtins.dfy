/** The three Python built-ins the scraper leans on, restricted to ASCII text:
    `int(text)` and `float(text)` on a stripped table cell, and the decimal
    rendering `str(n)` that an f-string applies to an integer.
    `int` accepts an optional sign followed by one or more ASCII digits;
    `float` accepts an optional sign, digits and at most one decimal point,
    and yields the exact decimal value (binary rounding is not modelled). */
module PyBuiltins {
  import opened Wrappers

  predicate IsDigit(c: char) { '0' <= c <= '9' }

  predicate AllDigits(s: string) { forall i :: 0 <= i < |s| ==> IsDigit(s[i]) }

  function DigitChar(d: nat): (c: char)
    requires d < 10
    ensures IsDigit(c) && c as int - '0' as int == d
  {
    ('0' as int + d) as char
  }

  function Pow10(k: nat): (r: nat)
    ensures r >= 1
  {
    if k == 0 then 1 else 10 * Pow10(k - 1)
  }

  /** Value of a string of decimal digits, read most significant first. */
  function DigitsValue(s: string): nat
    requires AllDigits(s)
  {
    if s == [] then 0
    else DigitsValue(s[..|s| - 1]) * 10 + (s[|s| - 1] as int - '0' as int)
  }

  /** Python `int(text)` on stripped ASCII text; `None` is the ValueError. */
  function ParseInt(s: string): Option<int>
  {
    if |s| > 0 && (s[0] == '-' || s[0] == '+') then
      var body := s[1..];
      if |body| > 0 && AllDigits(body) then
        Some(if s[0] == '-' then -(DigitsValue(body) as int) else DigitsValue(body))
      else None
    else if |s| > 0 && AllDigits(s) then Some(DigitsValue(s))
    else None
  }

  /** Python `str(n)` for a natural number: no sign, no leading zero. */
  function ShowNat(n: nat): (r: string)
    ensures |r| > 0 && AllDigits(r)
    ensures |r| > 1 ==> r[0] != '0'
  {
    if n < 10 then [DigitChar(n)] else ShowNat(n / 10) + [DigitChar(n % 10)]
  }

  /** Python `str(n)` (and `f'{n}'`) for any integer. */
  function ShowInt(n: int): (r: string)
    ensures |r| > 0
    ensures n < 0 <==> r[0] == '-'
  {
    if n < 0 then "-" + ShowNat(-n) else ShowNat(n)
  }

  lemma {:induction false} DigitsValueOfShowNat(n: nat)
    ensures DigitsValue(ShowNat(n)) == n
  {
    if n >= 10 {
      DigitsValueOfShowNat(n / 10);
      var s := ShowNat(n);
      assert s[..|s| - 1] == ShowNat(n / 10);
    }
  }

  /** `int(str(n)) == n`: rendering an integer and parsing it back is the identity. */
  lemma ParseShowInt(n: int)
    ensures ParseInt(ShowInt(n)) == Some(n)
  {
    if n < 0 {
      DigitsValueOfShowNat(-n);
      assert ShowInt(n)[1..] == ShowNat(-n);
    } else {
      DigitsValueOfShowNat(n);
    }
  }

  /** `str` is injective on integers, which makes page numbers recoverable from a URL. */
  lemma ShowIntInjective(m: int, n: int)
    requires ShowInt(m) == ShowInt(n)
    ensures m == n
  {
    ParseShowInt(m);
    ParseShowInt(n);
  }

  /** Index of the first '.' in `s`, or `|s|` when there is none. */
  function DotIndex(s: string): (i: nat)
    ensures i <= |s|
    ensures i < |s| ==> s[i] == '.'
    ensures forall j :: 0 <= j < i ==> s[j] != '.'
  {
    if s == [] then 0
    else if s[0] == '.' then 0
    else 1 + DotIndex(s[1..])
  }

  /** Value of an unsigned decimal literal `whole[.frac]`, if it is one. */
  function UnsignedDecimal(body: string): Option<real>
  {
    var i := DotIndex(body);
    if i == |body| then
      if |body| > 0 && AllDigits(body) then Some(DigitsValue(body) as real) else None
    else
      var whole, frac := body[..i], body[i + 1..];
      if |whole| + |frac| > 0 && AllDigits(whole) && AllDigits(frac) then
        Some(DigitsValue(whole) as real + DigitsValue(frac) as real / Pow10(|frac|) as real)
      else None
  }

  /** Python `float(text)` on stripped ASCII text, without exponents,
      `inf`/`nan` or underscores; `None` is the ValueError. */
  function ParseFloat(s: string): Option<real>
  {
    if |s| > 0 && (s[0] == '-' || s[0] == '+') then
      var v :- UnsignedDecimal(s[1..]);
      Some(if s[0] == '-' then -v else v)
    else UnsignedDecimal(s)
  }

  /** Every text `int()` accepts, `float()` accepts with the same value. */
  lemma IntTextIsFloatText(s: string)
    requires ParseInt(s).Some?
    ensures ParseFloat(s) == Some(ParseInt(s).value as real)
  {
    var body := if s[0] == '-' || s[0] == '+' then s[1..] else s;
    assert AllDigits(body);
    assert DotIndex(body) == |body|;
  }

  /** Neither parser accepts the site's missing-value marker. */
  lemma SentinelIsNotANumber()
    ensures ParseInt("--") == None && ParseFloat("--") == None
  {
    assert "--"[1..] == "-" && !IsDigit("-"[0]);
    assert "-"[..0] == [] && "-"[0] == '-';
  }
}
