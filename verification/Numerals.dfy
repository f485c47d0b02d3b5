/** Decimal numerals: how a number is printed, and what a run of digits is worth. */
module Numerals {
  predicate IsDigit(c: char) {
    '0' <= c <= '9'
  }

  predicate AllDigits(s: string) {
    forall i | 0 <= i < |s| :: IsDigit(s[i])
  }

  function DigitChar(d: nat): (c: char)
    requires d < 10
    ensures IsDigit(c) && DigitValue(c) == d
  {
    '0' + d as char
  }

  function DigitValue(c: char): nat
    requires IsDigit(c)
  {
    (c - '0') as nat
  }

  /** The number in base ten, without leading zeros. */
  function Digits(n: nat): (s: string)
    ensures s != "" && AllDigits(s)
  {
    if n < 10 then [DigitChar(n)] else Digits(n / 10) + [DigitChar(n % 10)]
  }

  /** What a string of digits is worth; leading zeros do not matter. */
  function Worth(s: string): nat
    requires AllDigits(s)
  {
    if s == "" then 0 else 10 * Worth(s[..|s| - 1]) + DigitValue(s[|s| - 1])
  }

  lemma {:induction false} WorthOfDigits(n: nat)
    ensures Worth(Digits(n)) == n
  {
    if 10 <= n {
      WorthOfDigits(n / 10);
      assert Digits(n)[..|Digits(n)| - 1] == Digits(n / 10);
    }
  }

  /** Different numbers print differently. */
  lemma DigitsInjective(m: nat, n: nat)
    requires Digits(m) == Digits(n)
    ensures m == n
  {
    WorthOfDigits(m);
    WorthOfDigits(n);
  }

  function Pow10(k: nat): nat {
    if k == 0 then 1 else 10 * Pow10(k - 1)
  }

  lemma TimesTen(w: int, p: int)
    ensures w * (10 * p) == 10 * (w * p)
  {
  }

  lemma {:induction false} WorthAppend(a: string, b: string)
    requires AllDigits(a) && AllDigits(b)
    ensures AllDigits(a + b)
    ensures Worth(a + b) == Worth(a) * Pow10(|b|) + Worth(b)
    decreases |b|
  {
    if b == "" {
      assert a + b == a;
    } else {
      var c := b[..|b| - 1];
      assert (a + b)[..|a + b| - 1] == a + c;
      WorthAppend(a, c);
      var last := DigitValue(b[|b| - 1]);
      assert (a + b)[|a + b| - 1] == b[|b| - 1];
      assert Worth(a + b) == 10 * Worth(a + c) + last;
      TimesTen(Worth(a), Pow10(|c|));
      assert Pow10(|b|) == 10 * Pow10(|c|);
    }
  }

  function Zeros(k: nat): (s: string)
    ensures |s| == k && AllDigits(s)
  {
    seq(k, _ => '0')
  }

  lemma {:induction false} WorthOfZeros(k: nat)
    ensures Worth(Zeros(k)) == 0
    decreases k
  {
    if k != 0 {
      assert Zeros(k)[..k - 1] == Zeros(k - 1);
      WorthOfZeros(k - 1);
    }
  }
}
