/** Positional numerals: printed by %d and %X, read back by the decoders. */
module Numerals {
  import opened Options

  function DigitChar(d: nat): char
    requires d < 16
  {
    "0123456789ABCDEF"[d]
  }

  function DigitValue(c: char): Option<nat> {
    if '0' <= c <= '9' then Some(c as int - '0' as int)
    else if 'A' <= c <= 'F' then Some(c as int - 'A' as int + 10)
    else if 'a' <= c <= 'f' then Some(c as int - 'a' as int + 10)
    else None
  }

  predicate IsDigit(c: char, base: nat) {
    DigitValue(c).Some? && DigitValue(c).value < base
  }

  predicate IsNumeral(s: string, base: nat) {
    forall i :: 0 <= i < |s| ==> IsDigit(s[i], base)
  }

  function Value(s: string, base: nat): nat
    requires IsNumeral(s, base)
  {
    if s == [] then 0 else Value(s[..|s| - 1], base) * base + DigitValue(s[|s| - 1]).value
  }

  lemma DigitRoundTrip(d: nat, base: nat)
    requires d < base <= 16
    ensures IsDigit(DigitChar(d), base) && DigitValue(DigitChar(d)) == Some(d)
    ensures DigitChar(d) == '0' <==> d == 0
  {
  }

  lemma Quotient(n: nat, base: nat)
    requires 2 <= base <= n
    ensures 0 < n / base < n && n / base * base + n % base == n && n % base < base
  {
  }

  /** The shortest numeral of n. */
  function Print(n: nat, base: nat): (s: string)
    requires 2 <= base <= 16
    ensures IsNumeral(s, base) && |s| > 0 && Value(s, base) == n
    ensures s[0] != '0' || n == 0
    decreases n
  {
    if n < base then
      DigitRoundTrip(n, base);
      [DigitChar(n)]
    else
      Quotient(n, base);
      DigitRoundTrip(n % base, base);
      AppendDigit(Print(n / base, base), n % base, base);
      Print(n / base, base) + [DigitChar(n % base)]
  }

  lemma AppendDigit(s: string, d: nat, base: nat)
    requires IsNumeral(s, base) && d < base <= 16
    ensures IsNumeral(s + [DigitChar(d)], base)
    ensures Value(s + [DigitChar(d)], base) == Value(s, base) * base + d
  {
    DigitRoundTrip(d, base);
    var t := s + [DigitChar(d)];
    assert t[..|t| - 1] == s;
  }

  function Power(base: nat, e: nat): nat {
    if e == 0 then 1 else base * Power(base, e - 1)
  }

  lemma QuotientBelow(n: nat, base: nat, m: nat)
    requires 1 <= base && n < base * m
    ensures n / base < m
  {
  }

  /** n < base^e prints in at most e digits. */
  lemma {:induction false} PrintLength(n: nat, base: nat, e: nat)
    requires 2 <= base <= 16 && e >= 1 && n < Power(base, e)
    ensures |Print(n, base)| <= e
    decreases e
  {
    if e == 1 {
      assert Power(base, 1) == base * Power(base, 0) == base;
    } else if n >= base {
      QuotientBelow(n, base, Power(base, e - 1));
      Quotient(n, base);
      PrintLength(n / base, base, e - 1);
    }
  }

  /** %0wd: zeros in front up to the width. */
  function Padded(s: string, width: nat): (r: string)
    decreases width - |s|
  {
    if |s| >= width then s else Padded("0" + s, width)
  }

  lemma {:induction false} PaddedValue(s: string, width: nat, base: nat)
    requires 2 <= base && IsNumeral(s, base)
    ensures IsNumeral(Padded(s, width), base)
    ensures Value(Padded(s, width), base) == Value(s, base)
    ensures |Padded(s, width)| >= width
    decreases width - |s|
  {
    if |s| < width {
      ZeroInFront(s, base);
      PaddedValue("0" + s, width, base);
    }
  }

  lemma {:induction false} ZeroInFront(s: string, base: nat)
    requires 2 <= base && IsNumeral(s, base)
    ensures IsNumeral("0" + s, base) && Value("0" + s, base) == Value(s, base)
  {
    var z := "0" + s;
    if s == [] {
      assert z[..|z| - 1] == [];
    } else {
      ZeroInFront(s[..|s| - 1], base);
      assert z[..|z| - 1] == "0" + s[..|s| - 1];
    }
  }
}
