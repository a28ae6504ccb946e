/** Small facts about products, kept apart so that no larger proof needs non-linear search. */
module Arith {

  lemma Distribute(a: int, b: int, c: int)
    ensures a * (b + c) == a * b + a * c
    ensures a * (b - c) == a * b - a * c
  {
  }

  lemma Associate(a: int, b: int, c: int)
    ensures (a * b) * c == a * (b * c)
    ensures (a * b) * c == (a * c) * b
  {
  }

  lemma Monotone(g: int, a: int, b: int)
    requires g >= 0 && a <= b
    ensures g * a <= g * b
    ensures a * g <= b * g
  {
  }

  lemma StrictlyMonotone(g: int, a: int, b: int)
    requires g >= 1 && a < b
    ensures g * a + g <= g * b
  {
    Monotone(g, a + 1, b);
    Distribute(g, a, 1);
  }

  lemma CancelFactor(g: int, a: int, b: int)
    requires g >= 1 && g * a == g * b
    ensures a == b
  {
    if a < b {
      StrictlyMonotone(g, a, b);
    } else if a > b {
      StrictlyMonotone(g, b, a);
    }
  }

  lemma QuotientIs(a: int, g: int, q: int)
    requires g >= 1 && g * q == a
    ensures a / g == q && a % g == 0
  {
    var k := a / g;
    assert g * k + a % g == a;
    if k < q {
      StrictlyMonotone(g, k, q);
    } else if q < k {
      StrictlyMonotone(g, q, k);
    }
  }

  lemma QuotientIsSmaller(a: nat, g: nat)
    requires g >= 1
    ensures 0 <= a / g <= a
  {
    var k := a / g;
    assert g * k + a % g == a;
    if k > a {
      StrictlyMonotone(g, a, k);
      Monotone(a, 1, g);
    }
  }
}
