/** Decimal numerals, as `toString` prints them. */
module Decimal {

  predicate IsDigit(c: char) {
    '0' <= c <= '9'
  }

  predicate AllDigits(s: string) {
    forall i :: 0 <= i < |s| ==> IsDigit(s[i])
  }

  function Digit(d: nat): (c: char)
    requires d < 10
    ensures IsDigit(c)
  {
    d as char + '0'
  }

  function DigitValue(c: char): nat
    requires IsDigit(c)
  {
    (c - '0') as nat
  }

  function Digits(n: nat): (s: string)
    ensures s != [] && AllDigits(s)
  {
    if n < 10 then [Digit(n)] else Digits(n / 10) + [Digit(n % 10)]
  }

  function Value(s: string): nat
    requires AllDigits(s)
  {
    if s == [] then 0 else 10 * Value(s[..|s| - 1]) + DigitValue(s[|s| - 1])
  }

  function Pow10(k: nat): (p: nat)
    ensures p >= 1
  {
    if k == 0 then 1 else 10 * Pow10(k - 1)
  }

  /** Reading back a printed number. */
  lemma {:induction false} ValueOfDigits(n: nat)
    ensures Value(Digits(n)) == n
  {
    if n >= 10 {
      ValueOfDigits(n / 10);
      var s := Digits(n);
      assert s[..|s| - 1] == Digits(n / 10);
    }
  }

  lemma {:induction false} ValueBound(s: string)
    requires AllDigits(s)
    ensures Value(s) < Pow10(|s|)
    ensures s != [] && s[0] != '0' ==> Value(s) >= Pow10(|s| - 1)
  {
    if s != [] {
      ValueBound(s[..|s| - 1]);
    }
  }

  /** Printing back a numeral without a leading zero. */
  lemma {:induction false} DigitsOfValue(s: string)
    requires AllDigits(s) && s != [] && s[0] != '0'
    ensures Digits(Value(s)) == s
  {
    var front, d := s[..|s| - 1], DigitValue(s[|s| - 1]);
    if front == [] {
      assert s == [s[0]];
    } else {
      DigitsOfValue(front);
      ValueBound(front);
      assert Value(s) / 10 == Value(front) && Value(s) % 10 == d;
      assert s == front + [s[|s| - 1]];
    }
  }

  /** The last digit of a numeral is the remainder by ten, and what stands before it is the quotient's. */
  lemma DigitsAppend(m: nat, d: nat)
    requires d < 10
    ensures Digits(10 * m + d) == (if m == 0 then [] else Digits(m)) + ["0123456789"[d]]
  {
    assert (10 * m + d) / 10 == m && (10 * m + d) % 10 == d;
    assert Digit(d) == "0123456789"[d];
  }

  lemma {:induction false} NoLeadingZero(n: nat)
    ensures |Digits(n)| > 1 ==> Digits(n)[0] != '0'
    ensures |Digits(n)| == 1 ==> n < 10
  {
    if n >= 10 {
      NoLeadingZero(n / 10);
    }
  }

  /** A number below a power of ten has no more digits than its exponent. */
  lemma {:induction false} DigitsBound(n: nat, k: nat)
    requires n < Pow10(k) && k >= 1
    ensures |Digits(n)| <= k
  {
    if n >= 10 {
      DigitsBound(n / 10, k - 1);
    }
  }

  lemma {:induction false} Pow10Grows(a: nat, b: nat)
    requires a <= b
    ensures Pow10(a) <= Pow10(b)
    decreases b
  {
    if a < b {
      Pow10Grows(a, b - 1);
    }
  }

  lemma {:induction false} ValueOfOneAnd(s: string)
    requires AllDigits(s)
    ensures Value("1" + s) == Pow10(|s|) + Value(s)
  {
    if s == [] {
      assert "1" + s == ['1'];
    } else {
      var front := s[..|s| - 1];
      ValueOfOneAnd(front);
      assert ("1" + s)[..|s|] == "1" + front;
    }
  }

  /** The length of the longest prefix of digits. */
  function DigitRun(s: string): (n: nat)
    ensures n <= |s| && AllDigits(s[..n])
    ensures n < |s| ==> !IsDigit(s[n])
  {
    if s == [] || !IsDigit(s[0]) then 0 else DigitRun(s[1..]) + 1
  }

  lemma {:induction false} DigitRunOfPrefix(a: string, b: string)
    requires AllDigits(a)
    ensures DigitRun(a + b) == |a| + DigitRun(b)
  {
    if a == [] {
      assert a + b == b;
    } else {
      DigitRunOfPrefix(a[1..], b);
      assert (a + b)[1..] == a[1..] + b;
    }
  }
}
