/** Decimal digits: what a digit string stands for, and how a number is written. */
module Digits {
  predicate IsDigit(c: char) { '0' <= c <= '9' }

  predicate AllDigits(s: string) { forall i | 0 <= i < |s| :: IsDigit(s[i]) }

  function DigitValue(c: char): (v: nat)
    requires IsDigit(c)
    ensures v < 10
  {
    (c as int) - ('0' as int)
  }

  function DigitOf(v: nat): (c: char)
    requires v < 10
    ensures IsDigit(c) && DigitValue(c) == v
  {
    (v + ('0' as int)) as char
  }

  function Value(s: string): nat
    requires AllDigits(s)
  {
    if s == "" then 0 else 10 * Value(s[..|s| - 1]) + DigitValue(s[|s| - 1])
  }

  function ToString(n: nat): (s: string)
    ensures AllDigits(s) && s != "" && Value(s) == n
    ensures n == 0 ==> s == "0"
    ensures n > 0 ==> s[0] != '0'
  {
    if n < 10 then
      assert [DigitOf(n)][..0] == "";
      [DigitOf(n)]
    else
      var front := ToString(n / 10);
      assert (front + [DigitOf(n % 10)])[..|front|] == front;
      front + [DigitOf(n % 10)]
  }

  function Zeros(n: nat): (s: string)
    ensures |s| == n && AllDigits(s)
  {
    seq(n, _ => '0')
  }

  function Power10(n: nat): (p: nat)
    ensures p > 0
  {
    if n == 0 then 1 else 10 * Power10(n - 1)
  }

  lemma TenTimes(a: nat, p: nat, v: nat, d: nat)
    ensures 10 * (a * p + v) + d == a * (10 * p) + (10 * v + d)
  {
    assert 10 * (a * p) == a * (10 * p);
  }

  lemma {:induction false} ValueConcat(s: string, t: string)
    requires AllDigits(s) && AllDigits(t)
    ensures AllDigits(s + t) && Value(s + t) == Value(s) * Power10(|t|) + Value(t)
  {
    if t == "" {
      assert s + t == s;
    } else {
      var front, d := t[..|t| - 1], DigitValue(t[|t| - 1]);
      ValueConcat(s, front);
      assert (s + t)[..|s + t| - 1] == s + front && (s + t)[|s + t| - 1] == t[|t| - 1];
      TenTimes(Value(s), Power10(|front|), Value(front), d);
    }
  }

  lemma {:induction false} ValueZeros(n: nat)
    ensures Value(Zeros(n)) == 0
  {
    if n > 0 {
      ValueZeros(n - 1);
      assert Zeros(n)[..n - 1] == Zeros(n - 1);
    }
  }

  lemma {:induction false} ValueBound(s: string)
    requires AllDigits(s)
    ensures Value(s) < Power10(|s|)
    ensures s != "" && s[0] != '0' ==> Value(s) >= Power10(|s| - 1)
  {
    if s != "" {
      ValueBound(s[..|s| - 1]);
    }
  }

  // Digit strings of one length are told apart by their value.
  lemma {:induction false} ValueInjective(s: string, t: string)
    requires AllDigits(s) && AllDigits(t) && |s| == |t| && Value(s) == Value(t)
    ensures s == t
  {
    if s != "" {
      var n := |s| - 1;
      ValueInjective(s[..n], t[..n]);
      assert s == s[..n] + [s[n]] && t == t[..n] + [t[n]];
      assert s[n] == DigitOf(DigitValue(s[n])) && t[n] == DigitOf(DigitValue(t[n]));
    }
  }

  lemma {:induction false} ToStringLength(n: nat, k: nat)
    requires 0 < k && n < Power10(k)
    ensures |ToString(n)| <= k
  {
    if n >= 10 {
      assert Power10(k) == 10 * Power10(k - 1);
      ToStringLength(n / 10, k - 1);
    }
  }

  lemma {:induction false} PowerMonotone(m: nat, n: nat)
    ensures m <= n ==> Power10(m) <= Power10(n)
  {
    if m < n {
      PowerMonotone(m, n - 1);
    }
  }

}
