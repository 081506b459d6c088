/** Decimal digit strings, compared without ever becoming numbers. */
module Decimal {

  predicate IsDigit(c: char) { '0' <= c <= '9' }

  /** `bytes.isdigit`: at least one character, all ASCII digits. */
  predicate IsDigits(s: string) {
    s != "" && forall i | 0 <= i < |s| :: IsDigit(s[i])
  }

  function Digit(c: char): nat
    requires IsDigit(c)
  {
    c as int - '0' as int
  }

  /** The number a digit string denotes. */
  function Value(s: string): nat
    requires forall i | 0 <= i < |s| :: IsDigit(s[i])
  {
    if s == "" then 0 else 10 * Value(s[..|s| - 1]) + Digit(s[|s| - 1])
  }

  function DigitChar(d: nat): char
    requires d < 10
  {
    ('0' as int + d) as char
  }

  /** `str(n)`. */
  function ToDecimal(n: nat): string {
    if n < 10 then [DigitChar(n)] else ToDecimal(n / 10) + [DigitChar(n % 10)]
  }

  function StripZeros(s: string): string {
    if s != "" && s[0] == '0' then StripZeros(s[1..]) else s
  }

  function Normalized(s: string): string {
    if StripZeros(s) == "" then "0" else StripZeros(s)
  }

  predicate LexGreater(a: string, b: string) {
    if a == "" then false
    else if b == "" then true
    else a[0] > b[0] || (a[0] == b[0] && LexGreater(a[1..], b[1..]))
  }

  /** The limiter's comparison: by length, then character by character. */
  predicate Exceeds(length: string, limit: nat) {
    var n, ceiling := Normalized(length), ToDecimal(limit);
    |n| > |ceiling| || (|n| == |ceiling| && LexGreater(n, ceiling))
  }

  // ---------- what the comparison means ----------

  function Pow10(n: nat): (p: nat)
    ensures p >= 1
  {
    if n == 0 then 1 else 10 * Pow10(n - 1)
  }

  lemma {:induction false} Pow10Mono(m: nat, n: nat)
    requires m <= n
    ensures Pow10(m) <= Pow10(n)
  {
    if m < n { Pow10Mono(m, n - 1); }
  }

  lemma {:induction false} ValueBound(s: string)
    requires forall i | 0 <= i < |s| :: IsDigit(s[i])
    ensures Value(s) < Pow10(|s|)
  {
    if s != "" { ValueBound(s[..|s| - 1]); }
  }

  lemma {:induction false} ValueByHead(s: string)
    requires IsDigits(s)
    ensures Value(s) == Digit(s[0]) * Pow10(|s| - 1) + Value(s[1..])
  {
    var init, t, d := s[..|s| - 1], s[1..], Digit(s[0]);
    if init != "" {
      ValueByHead(init);
      assert t[..|t| - 1] == init[1..] && t[|t| - 1] == s[|s| - 1];
      var p, v := Pow10(|init| - 1), Value(init[1..]);
      assert Value(s) == 10 * (d * p + v) + Digit(s[|s| - 1]);
      MulTen(d, p);
    }
  }

  lemma MulTen(d: nat, p: nat)
    ensures 10 * (d * p) == d * (10 * p)
  {}

  lemma {:induction false} StripKeepsValue(s: string)
    requires forall i | 0 <= i < |s| :: IsDigit(s[i])
    ensures forall i | 0 <= i < |StripZeros(s)| :: IsDigit(StripZeros(s)[i])
    ensures Value(StripZeros(s)) == Value(s)
    ensures StripZeros(s) != "" ==> StripZeros(s)[0] != '0'
  {
    if s != "" && s[0] == '0' {
      StripKeepsValue(s[1..]);
      ValueByHead(s);
    }
  }

  /** No leading zero, except in "0" itself. */
  predicate Canonical(s: string) {
    IsDigits(s) && (|s| > 1 ==> s[0] != '0')
  }

  lemma NormalizedIsCanonical(s: string)
    requires IsDigits(s)
    ensures Canonical(Normalized(s)) && Value(Normalized(s)) == Value(s)
  {
    StripKeepsValue(s);
    assert Value("0") == 0;
  }

  /** `str` gives the one canonical numeral of its argument. */
  lemma {:induction false} ToDecimalIsCanonical(n: nat)
    ensures Canonical(ToDecimal(n)) && Value(ToDecimal(n)) == n && (n > 0 ==> ToDecimal(n)[0] != '0')
  {
    if n >= 10 {
      ToDecimalIsCanonical(n / 10);
      var s := ToDecimal(n);
      assert s[..|s| - 1] == ToDecimal(n / 10);
    } else {
      assert ToDecimal(n)[..0] == "";
    }
  }

  lemma {:induction false} MulGe(x: nat, p: nat)
    requires x >= 1
    ensures x * p >= p
  {
    if x > 1 {
      MulGe(x - 1, p);
      MulSplit(x, x - 1, p);
    }
  }

  lemma MulSplit(x: nat, y: nat, p: nat)
    requires x >= y
    ensures x * p == y * p + (x - y) * p
  {}

  lemma LongerIsGreater(a: string, b: string)
    requires Canonical(a) && Canonical(b) && |a| > |b|
    ensures Value(a) > Value(b)
  {
    ValueByHead(a);
    ValueBound(b);
    Pow10Mono(|b|, |a| - 1);
    MulGe(Digit(a[0]), Pow10(|a| - 1));
  }

  lemma HeadDecides(x: nat, y: nat, p: nat, r: nat, t: nat)
    requires x > y && t < p
    ensures x * p + r > y * p + t
  {
    MulGe(x - y, p);
    MulSplit(x, y, p);
  }

  lemma {:induction false} LexIsValue(a: string, b: string)
    requires |a| == |b| && (forall i | 0 <= i < |a| :: IsDigit(a[i]) && IsDigit(b[i]))
    ensures LexGreater(a, b) <==> Value(a) > Value(b)
  {
    if a != "" {
      ValueByHead(a);
      ValueByHead(b);
      LexIsValue(a[1..], b[1..]);
      ValueBound(a[1..]);
      ValueBound(b[1..]);
      var x, y, p := Digit(a[0]), Digit(b[0]), Pow10(|a| - 1);
      if x > y {
        HeadDecides(x, y, p, Value(a[1..]), Value(b[1..]));
      } else if y > x {
        HeadDecides(y, x, p, Value(b[1..]), Value(a[1..]));
      }
    }
  }

  /** For digit strings of any length, with any leading zeros, the comparison is the numeric one. */
  lemma ExceedsIsNumeric(length: string, limit: nat)
    requires IsDigits(length)
    ensures Exceeds(length, limit) <==> Value(length) > limit
  {
    var n, ceiling := Normalized(length), ToDecimal(limit);
    NormalizedIsCanonical(length);
    ToDecimalIsCanonical(limit);
    if |n| > |ceiling| {
      LongerIsGreater(n, ceiling);
    } else if |n| < |ceiling| {
      LongerIsGreater(ceiling, n);
    } else {
      LexIsValue(n, ceiling);
    }
  }
}
