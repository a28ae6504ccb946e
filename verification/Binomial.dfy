/** Binomial coefficients: the combinatorial meaning that the leaf counter of a transfer address is measured against. */
module Binomial {
  import opened Arith

  /** Pascal's triangle. */
  function Choose(n: nat, k: nat): (c: nat)
    ensures c == 0 <==> k > n
  {
    if k == 0 then 1
    else if n == 0 then 0
    else Choose(n - 1, k - 1) + Choose(n - 1, k)
  }

  /** The recurrence along a row, which is what one round of the leaf loop computes. */
  lemma {:induction false} Absorption(n: nat, k: nat)
    requires k >= 1
    ensures Choose(n, k) * k == Choose(n, k - 1) * (n - k + 1)
  {
    if n == 0 {
    } else if k == 1 {
      Absorption(n - 1, 1);
    } else {
      Absorption(n - 1, k);
      Absorption(n - 1, k - 1);
      AbsorptionStep(Choose(n - 1, k - 2), Choose(n - 1, k - 1), Choose(n - 1, k), n, k);
    }
  }

  lemma AbsorptionStep(a: nat, b: nat, c: nat, n: nat, k: nat)
    requires c * k == b * (n - k)
    requires b * (k - 1) == a * (n - k + 1)
    ensures (b + c) * k == (a + b) * (n - k + 1)
  {
    Distribute(k, b, c);
    Distribute(b, k, n - k);
    Distribute(b, k - 1, n - k + 1);
    Distribute(n - k + 1, a, b);
  }

  lemma {:induction false} ChooseAll(n: nat)
    ensures Choose(n, n) == 1
  {
    if n > 0 {
      ChooseAll(n - 1);
    }
  }

  lemma ChooseOne(n: nat)
    ensures Choose(n, 1) == n
  {
    Absorption(n, 1);
  }

  /** Choosing the members is the same as choosing the members left out. */
  lemma {:induction false} Symmetry(n: nat, k: nat)
    requires k <= n
    ensures Choose(n, k) == Choose(n, n - k)
  {
    if k == 0 || k == n {
      ChooseAll(n);
    } else {
      Symmetry(n - 1, k - 1);
      Symmetry(n - 1, k);
    }
  }

  /** A row does not fall up to its middle and does not rise after it. */
  lemma RowStep(n: nat, k: nat)
    requires 1 <= k
    ensures 2 * k <= n + 1 ==> Choose(n, k - 1) <= Choose(n, k)
    ensures 2 * k >= n + 1 ==> Choose(n, k - 1) >= Choose(n, k)
  {
    Absorption(n, k);
    RowStepUp(Choose(n, k - 1), Choose(n, k), n, k);
    RowStepDown(Choose(n, k - 1), Choose(n, k), n, k);
  }

  lemma RowStepUp(a: nat, b: nat, n: nat, k: nat)
    requires 1 <= k && b * k == a * (n - k + 1)
    ensures 2 * k <= n + 1 ==> a <= b
  {
    if 2 * k <= n + 1 {
      Monotone(a, k, n - k + 1);
      if a > b {
        StrictlyMonotone(k, b, a);
      }
    }
  }

  lemma RowStepDown(a: nat, b: nat, n: nat, k: nat)
    requires 1 <= k && b * k == a * (n - k + 1)
    ensures 2 * k >= n + 1 ==> a >= b
  {
    if 2 * k >= n + 1 {
      Monotone(a, n - k + 1, k);
      if a < b {
        StrictlyMonotone(k, a, b);
      }
    }
  }

  /** The largest entry of row `n` among positions `0..k`. */
  function Peak(n: nat, k: nat): nat {
    Choose(n, if k <= n / 2 then k else n / 2)
  }

  lemma {:induction false} Rising(n: nat, j: nat, k: nat)
    requires j <= k <= n / 2
    ensures Choose(n, j) <= Choose(n, k)
    decreases k - j
  {
    if j < k {
      Rising(n, j, k - 1);
      RowStep(n, k);
    }
  }

  lemma {:induction false} Falling(n: nat, j: nat, k: nat)
    requires n / 2 <= j <= k
    ensures Choose(n, k) <= Choose(n, j)
    decreases k - j
  {
    if j < k {
      Falling(n, j, k - 1);
      RowStep(n, k);
    }
  }

  /** `Peak` bounds every entry up to `k`, and is one of them. */
  lemma PeakIsMaximum(n: nat, k: nat, d: nat)
    requires d <= k
    ensures Choose(n, d) <= Peak(n, k)
    ensures exists m: nat :: m <= k && Choose(n, m) == Peak(n, k)
  {
    var m := if k <= n / 2 then k else n / 2;
    assert Choose(n, m) == Peak(n, k);
    if d <= m {
      Rising(n, d, m);
    } else {
      Falling(n, m, d);
    }
  }

  lemma {:induction false} ColumnGrows(n: nat, m: nat, k: nat)
    requires n <= m
    ensures Choose(n, k) <= Choose(m, k)
    decreases m - n
  {
    if n < m {
      ColumnGrows(n, m - 1, k);
    }
  }

  /** The largest entry of a row grows with the row. */
  lemma {:induction false} MiddleGrows(n: nat, m: nat)
    requires n <= m
    ensures Choose(n, n / 2) <= Choose(m, m / 2)
  {
    ColumnGrows(n, m, n / 2);
    Rising(m, n / 2, m / 2);
  }

  /** The beginning of row `n`, known only through the recurrence along it. */
  ghost predicate RunsAlong(row: seq<nat>, n: nat) {
    && |row| >= 1 && row[0] == 1
    && forall k :: 1 <= k < |row| ==> row[k] * k == row[k - 1] * (n - k + 1)
  }

  lemma RowOf(n: nat, m: nat) returns (row: seq<nat>)
    ensures |row| == m && forall k :: 0 <= k < m ==> row[k] == Choose(n, k)
    ensures m >= 1 ==> RunsAlong(row, n)
  {
    row := seq(m, k requires 0 <= k => Choose(n, k));
    forall k | 1 <= k < m
      ensures row[k] * k == row[k - 1] * (n - k + 1)
    {
      Absorption(n, k);
    }
  }

  lemma FirstThirdOfRow67(row: seq<nat>)
    requires |row| > 11 && RunsAlong(row, 67)
    ensures row[11] == 1285063345176
  {
    assert row[1] == 67; assert row[2] == 2211; assert row[3] == 47905; assert row[4] == 766480;
    assert row[5] == 9657648; assert row[6] == 99795696; assert row[7] == 869648208; assert row[8] == 6522361560;
    assert row[9] == 42757703560; assert row[10] == 247994680648; assert row[11] == 1285063345176;
  }

  lemma SecondThirdOfRow67(row: seq<nat>)
    requires |row| > 22 && RunsAlong(row, 67) && row[11] == 1285063345176
    ensures row[22] == 271250494550621040
  {
    assert row[12] == 5996962277488; assert row[13] == 25371763481680; assert row[14] == 97862516286480;
    assert row[15] == 345780890878896; assert row[16] == 1123787895356412; assert row[17] == 3371363686069236;
    assert row[18] == 9364899127970100; assert row[19] == 24151581961607100; assert row[20] == 57963796707857040;
    assert row[21] == 129728497393775280; assert row[22] == 271250494550621040;
  }

  lemma LastThirdOfRow67(row: seq<nat>)
    requires |row| > 33 && RunsAlong(row, 67) && row[22] == 271250494550621040
    ensures row[33] == 14226520737620288370
  {
    assert row[23] == 530707489338171600; assert row[24] == 972963730453314600; assert row[25] == 1673497616379701112;
    assert row[26] == 2703342303382594104; assert row[27] == 4105075349580976232;
    assert row[28] == 5864393356544251760; assert row[29] == 7886597962249166160;
    assert row[30] == 9989690752182277136; assert row[31] == 11923179284862717872;
    assert row[32] == 13413576695470557606; assert row[33] == 14226520737620288370;
  }

  lemma MiddleOfRow67(row: seq<nat>)
    requires |row| == 34 && RunsAlong(row, 67)
    ensures row[|row| - 1] == 14226520737620288370
  {
    FirstThirdOfRow67(row);
    SecondThirdOfRow67(row);
    LastThirdOfRow67(row);
  }

  lemma MiddleOfRow18(row: seq<nat>)
    requires |row| == 10 && RunsAlong(row, 18)
    ensures row[|row| - 2] == 43758 && row[|row| - 1] == 48620
  {
    assert row[1] == 18; assert row[2] == 153; assert row[3] == 816; assert row[4] == 3060;
    assert row[5] == 8568; assert row[6] == 18564; assert row[7] == 31824; assert row[8] == 43758;
    assert row[9] == 48620;
  }

  // In the next four lemmas the column is given relative to the row, so that the verifier does not try to evaluate
  // `Choose` on constants.

  lemma Row67(n: nat, k: nat)
    requires n == 67 && 2 * k + 1 == n
    ensures Choose(n, k) == 14226520737620288370
  {
    var row := RowOf(n, k + 1);
    MiddleOfRow67(row);
  }

  lemma Row68(n: nat, k: nat)
    requires n == 68 && 2 * k == n
    ensures Choose(n, k) == 28453041475240576740
  {
    Row67(n - 1, k - 1);
    Symmetry(n - 1, k - 1);
  }

  lemma Row18(n: nat, k: nat)
    requires n == 18 && 2 * k == n
    ensures Choose(n, k - 1) == 43758 && Choose(n, k) == 48620
  {
    var row := RowOf(n, k + 1);
    MiddleOfRow18(row);
  }

  lemma Row19(n: nat, k: nat)
    requires n == 19 && 2 * k + 1 == n
    ensures Choose(n, k) == 92378
  {
    Row18(n - 1, k);
  }
}
