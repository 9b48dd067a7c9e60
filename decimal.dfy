/**
 * Decimal text for non-negative integers (what `'Object ' + (i + 1)` and
 * `index + 1` as text content produce) and `Number.parseInt(s, 10)` on the
 * values the routing code can see.
 */
module Decimal {
  import opened Wrappers
  import opened Text

  predicate IsDigit(c: char) {
    '0' <= c <= '9'
  }

  predicate AllDigits(s: string) {
    forall i :: 0 <= i < |s| ==> IsDigit(s[i])
  }

  /** Decimal text as JavaScript prints a non-negative integer: no leading
      zero unless the number is zero itself. */
  predicate IsCanonical(s: string) {
    |s| >= 1 && AllDigits(s) && (|s| > 1 ==> s[0] != '0')
  }

  function DigitChar(d: nat): (c: char)
    requires d < 10
    ensures IsDigit(c)
  {
    ('0' as int + d) as char
  }

  function DigitValue(c: char): (d: nat)
    requires IsDigit(c)
    ensures d < 10 && DigitChar(d) == c
  {
    c as int - '0' as int
  }

  /** `String(n)` for a non-negative integer `n`. */
  function NatToDecimal(n: nat): (r: string)
    ensures IsCanonical(r)
    ensures n < 10 <==> |r| == 1
  {
    if n < 10 then [DigitChar(n)]
    else
      var r := NatToDecimal(n / 10) + [DigitChar(n % 10)];
      assert r[0] == NatToDecimal(n / 10)[0];
      r
  }

  /** The number a run of decimal digits denotes. */
  function DecimalValue(s: string): nat
    requires AllDigits(s)
  {
    if s == [] then 0 else 10 * DecimalValue(s[..|s| - 1]) + DigitValue(s[|s| - 1])
  }

  /** Reading back the printed number gives the number. */
  lemma {:induction false} DecimalValueOfNatToDecimal(n: nat)
    ensures DecimalValue(NatToDecimal(n)) == n
  {
    if n >= 10 {
      var r := NatToDecimal(n);
      assert r[..|r| - 1] == NatToDecimal(n / 10);
      DecimalValueOfNatToDecimal(n / 10);
    }
  }

  /** Printing the number a canonical digit string denotes gives that string. */
  lemma {:induction false} NatToDecimalOfDecimalValue(s: string)
    requires IsCanonical(s)
    ensures NatToDecimal(DecimalValue(s)) == s
    decreases |s|
  {
    if |s| > 1 {
      var p := s[..|s| - 1];
      assert IsCanonical(p);
      NatToDecimalOfDecimalValue(p);
      LeadingDigitBound(p);
      var n := DecimalValue(s);
      assert n / 10 == DecimalValue(p) && n % 10 == DigitValue(s[|s| - 1]);
      assert s == p + [s[|s| - 1]];
    }
  }

  /** A canonical string of two or more digits denotes at least 10. */
  lemma {:induction false} LeadingDigitBound(s: string)
    requires IsCanonical(s)
    ensures |s| > 1 ==> DecimalValue(s) >= 10
    ensures |s| == 1 ==> DecimalValue(s) >= 1 || s == "0"
    decreases |s|
  {
    if |s| > 2 {
      LeadingDigitBound(s[..|s| - 1]);
    } else if |s| == 2 {
      assert DigitValue(s[0]) >= 1;
      assert s[..1] == [s[0]];
    }
  }

  /** Different numbers print differently. */
  lemma NatToDecimalInjective(m: nat, n: nat)
    requires NatToDecimal(m) == NatToDecimal(n)
    ensures m == n
  {
    DecimalValueOfNatToDecimal(m);
    DecimalValueOfNatToDecimal(n);
  }

  /** The end of the run of digits that starts at index `i`. */
  function DigitRunEnd(s: string, i: nat): (r: nat)
    requires i <= |s|
    ensures i <= r <= |s|
    ensures forall k :: i <= k < r ==> IsDigit(s[k])
    ensures r < |s| ==> !IsDigit(s[r])
    decreases |s| - i
  {
    if i == |s| || !IsDigit(s[i]) then i else DigitRunEnd(s, i + 1)
  }

  /** A run of digits ends at the first character that is not one. */
  lemma {:induction false} DigitRunEndStops(s: string, i: nat, m: nat)
    requires i <= m <= |s|
    requires forall k :: i <= k < m ==> IsDigit(s[k])
    requires m == |s| || !IsDigit(s[m])
    ensures DigitRunEnd(s, i) == m
    decreases m - i
  {
    if i < m {
      DigitRunEndStops(s, i + 1, m);
    }
  }

  /** `t` has a digit at its start. */
  predicate StartsWithDigit(t: string) {
    t != [] && IsDigit(t[0])
  }

  /** The number the longest leading run of digits of `t` denotes, `None`
      when `t` does not start with a digit. */
  function ParseDigits(t: string): (r: Option<int>)
    ensures r.Some? <==> StartsWithDigit(t)
    ensures r.Some? ==> r.value >= 0
  {
    var end := DigitRunEnd(t, 0);
    if end == 0 then None else Some(DecimalValue(t[..end]))
  }

  /** Printed digits followed by anything that does not start with a digit
      read back as the printed number. */
  lemma ParseDigitsOfDecimal(n: nat, rest: string)
    requires rest == [] || !IsDigit(rest[0])
    ensures ParseDigits(NatToDecimal(n) + rest) == Some(n)
  {
    var d := NatToDecimal(n);
    var s := d + rest;
    assert forall k :: 0 <= k < |d| ==> s[k] == d[k];
    assert |d| < |s| ==> s[|d|] == rest[0];
    DigitRunEndStops(s, 0, |d|);
    assert s[..|d|] == d;
    DecimalValueOfNatToDecimal(n);
  }

  function Negate(r: Option<int>): Option<int>
  {
    match r
    case None => None
    case Some(v) => Some(-v)
  }

  /** `t` without its sign character, if it starts with one. */
  function AfterSign(t: string): string
  {
    if |t| > 0 && (t[0] == '-' || t[0] == '+') then t[1..] else t
  }

  /** `Number.parseInt(s, 10)`: skip leading whitespace, read an optional
      sign, then the longest run of digits; `None` stands for `NaN`. The
      result is a number exactly when a digit follows the optional sign, and
      it is negative only after a minus sign. */
  function ParseInt(s: string): (r: Option<int>)
    ensures r.Some? <==> StartsWithDigit(AfterSign(TrimStart(s)))
    ensures r.Some? && r.value < 0 ==> TrimStart(s) != [] && TrimStart(s)[0] == '-'
  {
    var t := TrimStart(s);
    if |t| > 0 && t[0] == '-' then Negate(ParseDigits(t[1..]))
    else if |t| > 0 && t[0] == '+' then ParseDigits(t[1..])
    else ParseDigits(t)
  }

  /** The digits JavaScript prints for `n`, followed by anything that does
      not start with a digit, parse back to `n`. */
  lemma ParseIntOfDecimal(n: nat, rest: string)
    requires rest == [] || !IsDigit(rest[0])
    ensures ParseInt(NatToDecimal(n) + rest) == Some(n)
  {
    var s := NatToDecimal(n) + rest;
    assert s[0] == NatToDecimal(n)[0];
    TrimStartKeeps(s);
    ParseDigitsOfDecimal(n, rest);
  }

  /** A minus sign in front of printed digits parses to the negative value. */
  lemma ParseIntOfNegative(n: nat)
    ensures ParseInt("-" + NatToDecimal(n)) == Some(-(n as int))
  {
    var d := NatToDecimal(n);
    var s := "-" + d;
    TrimStartKeeps(s);
    assert s[1..] == d + [];
    ParseDigitsOfDecimal(n, []);
    assert ParseDigits(s[1..]) == Some(n);
  }

  /** `parseInt` skips any whitespace in front of the number. */
  lemma ParseIntSkipsBlanks(p: string, s: string)
    requires AllSpace(p)
    ensures ParseInt(p + s) == ParseInt(s)
  {
    TrimStartAbsorbs(p, s);
  }

  /** Text whose first non-blank character is neither a digit nor a sign is
      `NaN`. */
  lemma ParseIntNaN(s: string)
    requires var t := TrimStart(s); t == [] || (!IsDigit(t[0]) && t[0] != '-' && t[0] != '+')
    ensures ParseInt(s) == None
  {
  }
}
