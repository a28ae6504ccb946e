/** Greatest common divisors, with what the leaf loop needs of them: exact division and Euclid's lemma. */
module GreatestCommonDivisor {
  import opened Arith

  /** `gcd` on unsigned integers; the divisor of anything and zero is the other number. */
  function Gcd(a: nat, b: nat): (g: nat)
    ensures g == 0 <==> a == 0 && b == 0
    decreases b
  {
    if b == 0 then a else Gcd(b, a % b)
  }

  /** The gcd divides both arguments and is an integer combination of them. */
  lemma {:induction false} Bezout(a: nat, b: nat) returns (p: nat, q: nat, x: int, y: int)
    ensures Gcd(a, b) * p == a && Gcd(a, b) * q == b
    ensures a * x + b * y == Gcd(a, b)
    decreases b
  {
    if b == 0 {
      p, q, x, y := 1, 0, 1, 0;
    } else {
      var k, m := DivideWithRemainder(a, b);
      var p', q', x', y' := Bezout(b, m);
      var g := Gcd(b, m);
      p, q, x, y := UnwindEuclid(a, b, g, k, m, p', q', x', y');
    }
  }

  lemma DivideWithRemainder(a: nat, b: nat) returns (k: nat, m: nat)
    requires b >= 1
    ensures a == b * k + m && m < b && m == a % b
  {
    k, m := a / b, a % b;
  }

  /** One round of Euclid's algorithm undone. */
  lemma UnwindEuclid(a: nat, b: nat, g: nat, k: nat, m: nat, p': nat, q': nat, x': int, y': int)
      returns (p: nat, q: nat, x: int, y: int)
    requires a == b * k + m
    requires g * p' == b && g * q' == m && b * x' + m * y' == g
    ensures g * p == a && g * q == b && a * x + b * y == g
  {
    Associate(g, p', k);
    Distribute(g, p' * k, q');
    assert m * y' == a * y' - b * k * y' by {
      Distribute(y', a, b * k);
    }
    Associate(b, k, y');
    Distribute(b, x', k * y');
    var pk := p' * k;
    p, q, x, y := pk + q', p', y', x' - k * y';
  }

  /** Every common divisor divides the gcd, so no common divisor exceeds it. */
  lemma GcdIsGreatest(a: nat, b: nat, d: nat, p: nat, q: nat) returns (k: int)
    requires d * p == a && d * q == b
    ensures d * k == Gcd(a, b)
  {
    var _, _, x, y := Bezout(a, b);
    k := p * x + q * y;
    Associate(d, p, x);
    Associate(d, q, y);
    Distribute(d, p * x, q * y);
  }

  /** `a` and `b` divided by their gcd have no common factor left. */
  lemma Reduce(a: nat, b: nat) returns (g: nat, p: nat, q: nat, x: int, y: int)
    requires b >= 1
    ensures g == Gcd(a, b) && g >= 1 && g * p == a && g * q == b && q >= 1
    ensures p * x + q * y == 1
  {
    p, q, x, y := Bezout(a, b);
    g := Gcd(a, b);
    Associate(g, p, x);
    Associate(g, q, y);
    Distribute(g, p * x, q * y);
    CancelFactor(g, p * x + q * y, 1);
  }

  /** Euclid's lemma: `q` is coprime to `p` and divides `p * n`, so it divides `n`. */
  lemma Euclid(c: nat, p: nat, n: nat, q: nat, x: int, y: int) returns (t: nat)
    requires q >= 1 && c * q == p * n && p * x + q * y == 1
    ensures q * t == n && p * t == c
  {
    var s := c * x + n * y;
    assert q * s == n by {
      Distribute(q, c * x, n * y);
      EuclidTerms(c, p, n, q, x, y);
      Distribute(n, p * x, q * y);
    }
    if s < 0 {
      StrictlyMonotone(q, s, 0);
    }
    t := s;
    Associate(p, q, t);
    Associate(q, p, t);
    assert q * (p * t) == q * c by {
      assert q * (p * t) == p * (q * t);
    }
    CancelFactor(q, p * t, c);
  }

  lemma EuclidTerms(c: nat, p: nat, n: nat, q: nat, x: int, y: int)
    requires c * q == p * n
    ensures q * (c * x) == n * (p * x) && q * (n * y) == n * (q * y)
  {
    Associate(q, c, x);
    Associate(n, p, x);
    Associate(q, n, y);
    Associate(n, q, y);
  }

  /**
   * The step of the leaf loop: when `c * d == r * n`, cancelling the gcd of `r` and `d` leaves a divisor of `n`, and
   * the two quotients multiply to `c`.
   */
  lemma CancelThenDivide(c: nat, r: nat, n: nat, d: nat)
    requires d >= 1 && c * d == r * n
    ensures var g := Gcd(r, d); g >= 1 && r % g == 0 && d % g == 0 && d / g >= 1
    ensures var g := Gcd(r, d); n % (d / g) == 0 && (r / g) * (n / (d / g)) == c
  {
    var g, p, q, x, y := Reduce(r, d);
    QuotientIs(r, g, p);
    QuotientIs(d, g, q);
    assert c * q == p * n by {
      Associate(g, c, q);
      Associate(c, g, q);
      Associate(g, p, n);
      CancelFactor(g, c * q, p * n);
    }
    var t := Euclid(c, p, n, q, x, y);
    QuotientIs(n, q, t);
  }
}
