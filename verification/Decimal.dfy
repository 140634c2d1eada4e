/** Decimal digit strings and the numbers they denote. */
module Decimal {
  predicate IsDigit(c: char) {
    '0' <= c <= '9'
  }

  predicate AllDigits(s: string) {
    forall i :: 0 <= i < |s| ==> IsDigit(s[i])
  }

  function NatOf(s: string): nat
    requires AllDigits(s)
  {
    if s == "" then 0 else 10 * NatOf(s[..|s| - 1]) + (s[|s| - 1] - '0') as nat
  }

  function DigitChar(d: nat): (c: char)
    requires d < 10
    ensures IsDigit(c) && (c - '0') as nat == d
  {
    '0' + d as char
  }

  /** The shortest decimal form. */
  function Digits(n: nat): (s: string)
    ensures AllDigits(s) && s != "" && NatOf(s) == n
  {
    if n < 10 then [DigitChar(n)] else
      var front := Digits(n / 10);
      var s := front + [DigitChar(n % 10)];
      assert s[..|s| - 1] == front;
      s
  }

  function Pow10(k: nat): (p: nat)
    ensures p > 0
  {
    if k == 0 then 1 else 10 * Pow10(k - 1)
  }

  /** Exactly k digits, with leading zeros. */
  function FixedDigits(n: nat, k: nat): (s: string)
    requires n < Pow10(k)
    ensures AllDigits(s) && |s| == k && NatOf(s) == n
  {
    if k == 0 then "" else
      var front := FixedDigits(n / 10, k - 1);
      var s := front + [DigitChar(n % 10)];
      assert s[..|s| - 1] == front;
      s
  }

  lemma {:induction false} DigitsShort(n: nat, k: nat)
    requires n < Pow10(k) && k > 0
    ensures |Digits(n)| <= k
  {
    if n >= 10 {
      DigitsShort(n / 10, k - 1);
    }
  }

  lemma AppendDigit(x: nat, p: nat, y: nat, d: nat)
    ensures 10 * (x * p + y) + d == x * (10 * p) + (10 * y + d)
  {
  }

  lemma {:induction false} NatOfConcat(a: string, b: string)
    requires AllDigits(a) && AllDigits(b)
    ensures AllDigits(a + b) && NatOf(a + b) == NatOf(a) * Pow10(|b|) + NatOf(b)
  {
    if b == "" {
      assert a + b == a;
    } else {
      var n := |b| - 1;
      NatOfConcat(a, b[..n]);
      assert (a + b)[..|a| + n] == a + b[..n];
      AppendDigit(NatOf(a), Pow10(n), NatOf(b[..n]), (b[n] - '0') as nat);
    }
  }

  /** %d */
  function PrintInt(v: int): (s: string)
    ensures s != ""
  {
    if v < 0 then "-" + Digits(-v) else Digits(v)
  }

  lemma PrintIntInjective(v: int, w: int)
    requires PrintInt(v) == PrintInt(w)
    ensures v == w
  {
    if v < 0 {
      assert PrintInt(v)[1..] == Digits(-v);
    }
    if w < 0 {
      assert PrintInt(w)[1..] == Digits(-w);
    }
    assert v >= 0 ==> IsDigit(PrintInt(v)[0]);
    assert w >= 0 ==> IsDigit(PrintInt(w)[0]);
  }
}
