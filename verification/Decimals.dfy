/** Decimal numerals as Python's str() and format() write them. */
module Decimals {
  import opened Names

  function DigitValue(c: char): (v: nat)
    requires IsDigit(c)
    ensures v < 10
  {
    c as int - '0' as int
  }

  function DigitOf(v: nat): (c: char)
    requires v < 10
    ensures IsDigit(c) && DigitValue(c) == v
  {
    ('0' as int + v) as char
  }

  predicate AllDigits(s: string) {
    forall i | 0 <= i < |s| :: IsDigit(s[i])
  }

  function Digits(n: nat): (s: string)
    ensures AllDigits(s) && s != ""
  {
    if n < 10 then [DigitOf(n)] else Digits(n / 10) + [DigitOf(n % 10)]
  }

  function Value(s: string): nat
    requires AllDigits(s)
  {
    if s == "" then 0 else 10 * Value(s[..|s| - 1]) + DigitValue(s[|s| - 1])
  }

  lemma {:induction false} DigitsHaveValue(n: nat)
    ensures Value(Digits(n)) == n
  {
    if n >= 10 {
      DigitsHaveValue(n / 10);
      assert Digits(n)[..|Digits(n)| - 1] == Digits(n / 10);
    } else {
      assert Digits(n)[..0] == "";
    }
  }

  lemma DigitsAreInjective(m: nat, n: nat)
    requires Digits(m) == Digits(n)
    ensures m == n
  {
    DigitsHaveValue(m);
    DigitsHaveValue(n);
  }

  function Padded(s: string, width: nat): (p: string)
    ensures AllDigits(s) ==> AllDigits(p)
    ensures |p| >= |s|
    decreases width - |s|
  {
    if |s| >= width then s else Padded("0" + s, width)
  }

  lemma {:induction false} LeadingZero(s: string)
    requires AllDigits(s)
    ensures Value("0" + s) == Value(s)
    decreases |s|
  {
    if s == "" {
      assert ("0" + s)[..0] == "";
    } else {
      LeadingZero(s[..|s| - 1]);
      assert ("0" + s)[..|s|] == "0" + s[..|s| - 1];
    }
  }

  lemma {:induction false} PaddingKeepsValue(s: string, width: nat)
    requires AllDigits(s)
    ensures Value(Padded(s, width)) == Value(s)
    decreases width - |s|
  {
    if |s| < width {
      LeadingZero(s);
      PaddingKeepsValue("0" + s, width);
    }
  }

  /** The format `:03d`; the sign takes part of the width. */
  function ThreeDigits(n: int): string {
    if n >= 0 then Padded(Digits(n), 3) else "-" + Padded(Digits(-n), 2)
  }

  lemma PaddedIsInjective(m: nat, n: nat, width: nat)
    requires Padded(Digits(m), width) == Padded(Digits(n), width)
    ensures m == n
  {
    PaddingKeepsValue(Digits(m), width);
    PaddingKeepsValue(Digits(n), width);
    DigitsHaveValue(m);
    DigitsHaveValue(n);
  }

  lemma SignOfThreeDigits(n: int)
    ensures ThreeDigits(n) != "" && (ThreeDigits(n)[0] == '-' <==> n < 0)
    ensures n < 0 ==> ThreeDigits(n)[1..] == Padded(Digits(-n), 2)
  {}

  lemma ThreeDigitsAreInjective(m: int, n: int)
    requires ThreeDigits(m) == ThreeDigits(n)
    ensures m == n
  {
    SignOfThreeDigits(m);
    SignOfThreeDigits(n);
    if m < 0 {
      PaddedIsInjective(-m, -n, 2);
    } else {
      PaddedIsInjective(m, n, 3);
    }
  }

  lemma {:induction false} NoLeadingZero(n: nat)
    requires n > 0
    ensures Digits(n)[0] != '0'
  {
    if n >= 10 {
      NoLeadingZero(n / 10);
    } else {
      assert DigitValue(Digits(n)[0]) == n;
    }
  }

  lemma {:induction false} PaddedLength(s: string, width: nat)
    ensures |Padded(s, width)| == if |s| >= width then |s| else width
    decreases width - |s|
  {
    if |s| < width {
      PaddedLength("0" + s, width);
    }
  }

  /** A number that is not negative is written with its digits, filled up with zeros to three. */
  lemma ThreeDigitsMean(n: nat)
    ensures AllDigits(ThreeDigits(n)) && Value(ThreeDigits(n)) == n
    ensures |ThreeDigits(n)| == if |Digits(n)| >= 3 then |Digits(n)| else 3
  {
    PaddingKeepsValue(Digits(n), 3);
    DigitsHaveValue(n);
    PaddedLength(Digits(n), 3);
  }
}
