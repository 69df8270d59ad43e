/** Decimal text of natural numbers: what `str(n)` prints and `int(s)` reads. */
module Decimal {
  import opened Ascii

  function Abs(n: int): nat { if n < 0 then -n else n }

  function DigitChar(d: nat): char
    requires d < 10
  {
    (d + '0' as int) as char
  }

  function DigitValue(c: char): nat
    requires IsDigit(c)
  {
    c as int - '0' as int
  }

  predicate AllDigits(s: string) {
    forall i | 0 <= i < |s| :: IsDigit(s[i])
  }

  function Print(n: nat): (s: string)
    ensures s != "" && AllDigits(s)
  {
    if n < 10 then [DigitChar(n)] else Print(n / 10) + [DigitChar(n % 10)]
  }

  function Parse(s: string): nat
    requires AllDigits(s)
  {
    if s == "" then 0 else 10 * Parse(s[..|s| - 1]) + DigitValue(s[|s| - 1])
  }

  lemma {:induction false} ParsePrint(n: nat)
    ensures Parse(Print(n)) == n
  {
    if n >= 10 {
      ParsePrint(n / 10);
      assert Print(n)[..|Print(n)| - 1] == Print(n / 10);
    }
  }

  /** Different numbers print differently. */
  lemma PrintIsInjective(m: nat, n: nat)
    ensures Print(m) == Print(n) <==> m == n
  {
    ParsePrint(m);
    ParsePrint(n);
  }

  /** Leading zeros to a fixed width, as `{:010d}` writes them. */
  function Padded(n: nat, width: nat): (s: string)
    ensures |s| == width && AllDigits(s)
  {
    if width == 0 then "" else Padded(n / 10, width - 1) + [DigitChar(n % 10)]
  }

  function Power10(k: nat): nat {
    if k == 0 then 1 else 10 * Power10(k - 1)
  }

  /** Leading zeros do not change a number that fits. */
  lemma {:induction false} ParsePadded(n: nat, width: nat)
    requires n < Power10(width)
    ensures Parse(Padded(n, width)) == n
  {
    if width > 0 {
      ParsePadded(n / 10, width - 1);
      assert Padded(n, width)[..width - 1] == Padded(n / 10, width - 1);
    }
  }

  lemma {:induction false} PrintWidth(n: nat)
    ensures n < Power10(|Print(n)|)
    ensures Print(n) == Padded(n, |Print(n)|)
    ensures |Print(n)| > 1 ==> Power10(|Print(n)| - 1) <= n
  {
    if n < 10 {
      assert Padded(n, 1) == Padded(n / 10, 0) + [DigitChar(n % 10)];
      assert Power10(1) == 10 * Power10(0);
    } else {
      PrintWidth(n / 10);
      assert |Print(n)| == |Print(n / 10)| + 1;
    }
  }

  lemma {:induction false} PowerPositive(k: nat)
    ensures Power10(k) > 0
  {
    if k > 0 { PowerPositive(k - 1); }
  }

  /** A number without its last `k` digits. */
  function LeadingDigits(n: nat, k: nat): nat {
    if k == 0 then n else LeadingDigits(n / 10, k - 1)
  }

  /** A wide number is its leading digits followed by its trailing ones. */
  lemma {:induction false} PaddedSplits(n: nat, width: nat, k: nat)
    requires k <= width
    ensures Padded(n, width) == Padded(LeadingDigits(n, k), width - k) + Padded(n, k)
    decreases k
  {
    if k == 0 {
      assert Padded(n, width) + "" == Padded(n, width);
    } else {
      PaddedSplits(n / 10, width - 1, k - 1);
    }
  }

  lemma {:induction false} LeadingDigitsFit(n: nat, width: nat, k: nat)
    requires n < Power10(width + k)
    ensures LeadingDigits(n, k) < Power10(width)
    decreases k
  {
    if k > 0 {
      assert Power10(width + k) == 10 * Power10(width + k - 1);
      LeadingDigitsFit(n / 10, width, k - 1);
    }
  }
}
