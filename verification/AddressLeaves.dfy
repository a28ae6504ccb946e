/**
 * The number of leaves of an m-of-n transfer address, as native/src/transfer_transaction/mod.rs computes it with
 * 64-bit unsigned arithmetic, and the parameters that native/src/transfer_transaction/builder_options.rs hands to it.
 *
 * `checked` is whether the build checks arithmetic for overflow; the build of package.json does not, and wraps.
 */
module AddressLeaves {
  import opened Arith
  import opened Binomial
  import opened GreatestCommonDivisor
  import opened SharedTypes
  import opened Subsets

  const U16_SIZE := 0x1_0000

  type u16 = x: nat | x < U16_SIZE

  /** `Panics`: an operation overflowed in a checked build, or divided by zero. */
  datatype Outcome = Count(leaves: u16) | Panics

  /** The exact condition under which the leaf loop stays inside u64. */
  predicate LoopFits(totalSigners: nat, requiredSigners: nat) {
    requiredSigners <= totalSigners && Peak(totalSigners, requiredSigners) < U64_SIZE
  }

  /** The cast to u16. */
  function Truncate(x: nat): (w: u16)
    ensures w == x <==> x < U16_SIZE
  {
    x % 0x1_0000
  }

  /** What is left of a number in 64 bits. */
  function Wrap(x: nat): (w: u64)
    ensures x < U64_SIZE ==> w == x
  {
    x % 0x1_0000_0000_0000_0000
  }

  /** One less, in 64 bits. */
  function Decrement(x: u64): u64 {
    if x == 0 then U64_SIZE - 1 else x - 1
  }

  /** Division of unsigned numbers. */
  function Quotient(a: nat, b: nat): (q: nat)
    requires b >= 1
    ensures q <= a
  {
    QuotientIsSmaller(a, b);
    a / b
  }

  lemma GcdDivides(a: nat, b: nat)
    requires b >= 1
    ensures Gcd(a, b) >= 1 && Quotient(b, Gcd(a, b)) >= 1
  {
    var g, p, q, x, y := Reduce(a, b);
    QuotientIs(b, g, q);
  }

  /** What one round makes of `result`, before it is reduced to 64 bits. */
  function RoundProduct(n: nat, d: nat, result: nat): nat
    requires d >= 1
  {
    GcdDivides(result, d);
    var g := Gcd(result, d);
    Quotient(result, g) * Quotient(n, Quotient(d, g))
  }

  /** No operation of the round leaves u64. */
  predicate Fits(n: nat, d: nat, result: nat)
    requires d >= 1
  {
    RoundProduct(n, d, result) < U64_SIZE && d + 1 < U64_SIZE && n > 0
  }

  /** The loop from a given state on; counting up past u64 leads to a division by zero. */
  function Loop(checked: bool, n: u64, d: u64, result: u64, requiredSigners: u64): Outcome
    decreases if d == 0 || d > requiredSigners then 0 else requiredSigners + 1 - d
  {
    if d > requiredSigners then Count(Truncate(result))
    else if d == 0 || (checked && !Fits(n, d, result)) then Panics
    else Loop(checked, Decrement(n), Wrap(d + 1), Wrap(RoundProduct(n, d, result)), requiredSigners)
  }

  /** The number of `requiredSigners`-element sets of signers, truncated to 16 bits, whenever the loop fits. */
  function Leaves(checked: bool, totalSigners: u64, requiredSigners: u64): Outcome {
    if LoopFits(totalSigners, requiredSigners) then Count(Truncate(Choose(totalSigners, requiredSigners)))
    else if checked then Panics
    else Loop(false, totalSigners, 1, 1, requiredSigners)
  }

  method TransferAddressLeaves(checked: bool, totalSigners: u64, requiredSigners: u64) returns (r: Outcome)
    ensures r == Leaves(checked, totalSigners, requiredSigners)
  {
    LoopCountsLeaves(checked, totalSigners, requiredSigners, totalSigners, 1, 1);
    var n: u64, d: u64, result: u64 := totalSigners, 1, 1;
    while d <= requiredSigners
      invariant Loop(checked, n, d, result, requiredSigners) == Leaves(checked, totalSigners, requiredSigners)
      decreases if d == 0 || d > requiredSigners then 0 else requiredSigners + 1 - d, d
    {
      var g := Gcd(result, d);
      if g == 0 {
        return Panics;
      }
      var q := Quotient(d, g);
      if q == 0 {
        DivisionByZero(result, d);
        return Panics;
      }
      var product := Quotient(result, g) * Quotient(n, q);
      if checked && (product >= U64_SIZE || d + 1 >= U64_SIZE || n == 0) {
        return Panics;
      }
      result, d, n := Wrap(product), Wrap(d + 1), Decrement(n);
    }
    r := Count(Truncate(result));
  }

  /** Before round `d` no operation has left u64, and `result` is an entry of the row. */
  ghost predicate Exact(totalSigners: nat, requiredSigners: nat, n: nat, d: nat, result: nat) {
    && 1 <= d <= requiredSigners + 1 && d <= totalSigners + 1 && n == totalSigners - d + 1
    && result == Choose(totalSigners, d - 1)
    && forall m: nat :: m < d ==> Choose(totalSigners, m) < U64_SIZE
  }

  lemma ExactRound(totalSigners: u64, requiredSigners: u64, n: u64, d: u64, result: u64)
    requires Exact(totalSigners, requiredSigners, n, d, result) && d <= requiredSigners
    ensures if Fits(n, d, result)
      then Exact(totalSigners, requiredSigners, n - 1, d + 1, RoundProduct(n, d, result))
      else !LoopFits(totalSigners, requiredSigners)
  {
    OneRound(totalSigners, d);
    assert RoundProduct(n, d, result) == Choose(totalSigners, d);
    if !Fits(n, d, result) {
      LeavesRange(totalSigners, requiredSigners, d);
    }
  }

  /** As long as nothing overflows, the loop is on its way to the binomial coefficient. */
  lemma {:induction false} LoopCountsLeaves(
      checked: bool, totalSigners: u64, requiredSigners: u64, n: u64, d: u64, result: u64)
    requires Exact(totalSigners, requiredSigners, n, d, result)
    ensures LoopFits(totalSigners, requiredSigners) ==>
      Loop(checked, n, d, result, requiredSigners) == Count(Truncate(Choose(totalSigners, requiredSigners)))
    ensures !LoopFits(totalSigners, requiredSigners) && checked ==>
      Loop(checked, n, d, result, requiredSigners) == Panics
    decreases requiredSigners + 1 - d
  {
    if d > requiredSigners {
      ExactAtTheEnd(totalSigners, requiredSigners, n, d, result);
    } else {
      ExactRound(totalSigners, requiredSigners, n, d, result);
      if Fits(n, d, result) {
        var product := RoundProduct(n, d, result);
        StepFits(n, d, product);
        LoopCountsLeaves(checked, totalSigners, requiredSigners, n - 1, d + 1, product);
      }
    }
  }

  lemma ExactAtTheEnd(totalSigners: u64, requiredSigners: u64, n: nat, d: nat, result: nat)
    requires Exact(totalSigners, requiredSigners, n, d, result) && d > requiredSigners
    ensures LoopFits(totalSigners, requiredSigners) && result == Choose(totalSigners, requiredSigners)
  {
    FitsExactly(totalSigners, requiredSigners);
  }

  lemma DivisionByZero(result: nat, d: nat)
    requires Gcd(result, d) >= 1 && Quotient(d, Gcd(result, d)) == 0
    ensures d == 0
  {
    if d > 0 {
      GcdDivides(result, d);
    }
  }

  /** A round leaves u64 only where the whole loop does not fit. */
  lemma LeavesRange(totalSigners: u64, requiredSigners: u64, d: nat)
    requires 1 <= d <= requiredSigners && d <= totalSigners + 1
    requires Choose(totalSigners, d) >= U64_SIZE || d + 1 >= U64_SIZE || totalSigners - d + 1 == 0
    ensures !LoopFits(totalSigners, requiredSigners)
  {
    if d + 1 >= U64_SIZE {
      SecondEntryOverflows(totalSigners, requiredSigners);
    } else if d <= totalSigners {
      PeakIsMaximum(totalSigners, requiredSigners, d);
    }
  }

  /** A step of the loop that stays inside u64 is the same with wrapping. */
  lemma StepFits(n: nat, d: nat, product: nat)
    requires product < U64_SIZE && d + 1 < U64_SIZE && 1 <= n < U64_SIZE
    ensures Wrap(product) == product && Wrap(d + 1) == d + 1 && Decrement(n) == n - 1
  {
  }

  /** One round of the loop divides without remainder and takes one entry of the row to the next. */
  lemma OneRound(totalSigners: nat, d: nat)
    requires 1 <= d <= totalSigners + 1
    ensures var (r, n) := (Choose(totalSigners, d - 1), totalSigners - d + 1);
      var g := Gcd(r, d);
      && g >= 1 && r % g == 0 && d % g == 0 && d / g >= 1 && n % (d / g) == 0
      && 0 <= r / g <= r && 0 <= n / (d / g) <= n
      && (r / g) * (n / (d / g)) == Choose(totalSigners, d)
  {
    var r, n := Choose(totalSigners, d - 1), totalSigners - d + 1;
    Absorption(totalSigners, d);
    CancelThenDivide(Choose(totalSigners, d), r, n, d);
    QuotientIsSmaller(r, Gcd(r, d));
    QuotientIsSmaller(n, d / Gcd(r, d));
  }

  /** No entry up to the required one leaves u64 exactly when the largest of them does not. */
  lemma FitsExactly(totalSigners: nat, requiredSigners: nat)
    ensures Peak(totalSigners, requiredSigners) < U64_SIZE
       <==> forall m: nat :: m <= requiredSigners ==> Choose(totalSigners, m) < U64_SIZE
  {
    forall m: nat | m <= requiredSigners
      ensures Choose(totalSigners, m) <= Peak(totalSigners, requiredSigners)
    {
      PeakIsMaximum(totalSigners, requiredSigners, m);
    }
    PeakIsMaximum(totalSigners, requiredSigners, 0);
  }

  lemma SecondEntryOverflows(totalSigners: nat, requiredSigners: nat)
    requires requiredSigners >= U64_SIZE - 1
    ensures !LoopFits(totalSigners, requiredSigners)
  {
    if requiredSigners <= totalSigners {
      Absorption(totalSigners, 2);
      ChooseOne(totalSigners);
      Monotone(totalSigners, 4, totalSigners - 1);
      FitsExactly(totalSigners, requiredSigners);
      assert Choose(totalSigners, 2) >= U64_SIZE;
    }
  }

  /** What an untruncated count means: one leaf for each way to pick the required signers. */
  lemma LeavesAreSignerSets<Key(!new)>(signers: set<Key>, requiredSigners: nat)
    ensures Choose(|signers|, requiredSigners) == |SubsetsOfSize(signers, requiredSigners)|
    ensures requiredSigners <= |signers| ==>
      |SubsetsOfSize(signers, requiredSigners)| == |SubsetsOfSize(signers, |signers| - requiredSigners)|
  {
    CountSubsets(signers, requiredSigners);
    if requiredSigners <= |signers| {
      CountSubsets(signers, |signers| - requiredSigners);
      Symmetry(|signers|, requiredSigners);
    }
  }

  lemma MiddleIsLargest(n: nat, d: nat)
    ensures Choose(n, d) <= Choose(n, n / 2)
  {
    PeakIsMaximum(n, if d <= n then n else d, d);
  }

  /** u64 suffices for every number of required signers exactly up to 67 signers. */
  lemma U64Bound(totalSigners: nat)
    ensures (forall required: nat :: required <= totalSigners ==> LoopFits(totalSigners, required))
       <==> totalSigners <= 67
  {
    if totalSigners <= 67 {
      forall required: nat | required <= totalSigners
        ensures LoopFits(totalSigners, required)
      {
        MiddleIsLargest(totalSigners, if required <= totalSigners / 2 then required else totalSigners / 2);
        var widest: nat := 67;
        MiddleGrows(totalSigners, widest);
        Row67(widest, widest / 2);
      }
    } else {
      var narrowest: nat := 68;
      MiddleGrows(narrowest, totalSigners);
      Row68(narrowest, narrowest / 2);
      assert !LoopFits(totalSigners, totalSigners);
    }
  }

  /** The cast to u16 keeps the count for every number of required signers exactly up to 18 signers. */
  lemma U16Bound(totalSigners: nat)
    ensures (forall required: nat :: required <= totalSigners ==>
               Truncate(Choose(totalSigners, required)) == Choose(totalSigners, required))
       <==> totalSigners <= 18
  {
    if totalSigners <= 18 {
      forall required: nat | required <= totalSigners
        ensures Choose(totalSigners, required) < U16_SIZE
      {
        var widest: nat := 18;
        MiddleIsLargest(totalSigners, required);
        MiddleGrows(totalSigners, widest);
        Row18(widest, widest / 2);
      }
    } else {
      var narrowest: nat := 19;
      MiddleGrows(narrowest, totalSigners);
      Row19(narrowest, narrowest / 2);
      assert Choose(totalSigners, totalSigners / 2) >= U16_SIZE;
    }
  }

  // ----- When the loop overflows in a build that wraps

  /** Wrapping and truncating forget multiples of the size, and nothing else. */
  lemma WrapsAround(x: nat)
    ensures Wrap(x + 0x1_0000_0000_0000_0000) == Wrap(x) && (x < 0x1_0000_0000_0000_0000 ==> Wrap(x) == x)
    ensures Truncate(x + 0x1_0000) == Truncate(x) && (x < 0x1_0000 ==> Truncate(x) == x)
    ensures Truncate(Wrap(x)) == Truncate(x)
  {
  }

  /** When only the last round leaves u64, the wrapped loop still returns the binomial coefficient modulo 2^16. */
  lemma LastRoundMayWrap(totalSigners: u64, requiredSigners: u64)
    requires 1 <= requiredSigners <= totalSigners && requiredSigners < U64_SIZE - 1
    requires LoopFits(totalSigners, requiredSigners - 1)
    ensures Loop(false, totalSigners, 1, 1, requiredSigners) == Count(Truncate(Choose(totalSigners, requiredSigners)))
  {
    FitsExactly(totalSigners, requiredSigners - 1);
    LastRoundFrom(totalSigners, requiredSigners, totalSigners, 1, 1);
  }

  lemma {:induction false} LastRoundFrom(totalSigners: u64, requiredSigners: u64, n: u64, d: u64, result: u64)
    requires Exact(totalSigners, requiredSigners, n, d, result)
    requires d <= requiredSigners <= totalSigners && requiredSigners < U64_SIZE - 1
    requires forall m: nat :: m < requiredSigners ==> Choose(totalSigners, m) < U64_SIZE
    ensures Loop(false, n, d, result, requiredSigners) == Count(Truncate(Choose(totalSigners, requiredSigners)))
    decreases requiredSigners - d
  {
    OneRound(totalSigners, d);
    var product := RoundProduct(n, d, result);
    assert product == Choose(totalSigners, d);
    StepFits(n, d, 0);
    if d < requiredSigners {
      StepFits(n, d, product);
      LastRoundFrom(totalSigners, requiredSigners, n - 1, d + 1, product);
    } else {
      WrapsAround(product);
    }
  }

  lemma ZeroProduct(n: nat, d: nat, result: nat)
    requires d >= 1 && (n == 0 || result == 0)
    ensures RoundProduct(n, d, result) == 0
  {
    GcdDivides(result, d);
    var a, t := Quotient(result, Gcd(result, d)), Quotient(n, Quotient(d, Gcd(result, d)));
    assert a == 0 || t == 0;
    assert a * t == 0;
  }

  lemma {:induction false} ZeroStays(n: u64, d: u64, requiredSigners: u64)
    requires 1 <= d <= requiredSigners + 1 && requiredSigners < U64_SIZE - 1
    ensures Loop(false, n, d, 0, requiredSigners) == Count(0)
    decreases requiredSigners + 1 - d
  {
    if d <= requiredSigners {
      ZeroProduct(n, d, 0);
      ZeroStays(Decrement(n), d + 1, requiredSigners);
    }
  }

  /** Asking for more signers than there are, the wrapped loop returns zero. */
  lemma {:induction false} MoreThanAll(totalSigners: u64, requiredSigners: u64, d: u64, result: u64)
    requires 1 <= d <= totalSigners + 1 <= requiredSigners < U64_SIZE - 1
    ensures Loop(false, totalSigners - d + 1, d, result, requiredSigners) == Count(0)
    decreases totalSigners + 1 - d
  {
    var n := totalSigners - d + 1;
    if n == 0 {
      ZeroProduct(n, d, result);
      ZeroStays(Decrement(n), d + 1, requiredSigners);
    } else {
      StepFits(n, d, 0);
      MoreThanAll(totalSigners, requiredSigners, d + 1, Wrap(RoundProduct(n, d, result)));
    }
  }

  // ----- As written: both parameters are the number of required signers

  /** The address parameters of an input, as the caller gives them. */
  datatype AddressParams = AddressParams(requiredSigners: u64, totalSigners: u64)

  /** As written, the property `requiredSigners` is read for both fields. */
  function ParseAddressParams(params: AddressParams): AddressParams {
    AddressParams(params.requiredSigners, params.requiredSigners)
  }

  /** One leaf up to 67 required signers; from 68 on the wrapped loop ends at zero. */
  function LeafCount(params: AddressParams): u16 {
    if params.requiredSigners <= 67 then 1 else 0
  }

  /** Whether a count is recorded at all. */
  predicate Records(checked: bool, params: AddressParams) {
    params.requiredSigners <= 67 || (!checked && params.requiredSigners < U64_SIZE - 1)
  }

  function RecordedLeaves(checked: bool, params: AddressParams): Outcome {
    if Records(checked, params) then Count(LeafCount(params)) else Panics
  }

  /** What the builder of a transfer transaction records for an input, end to end. */
  method InputLeaves(checked: bool, params: AddressParams) returns (r: Outcome)
    ensures r == RecordedLeaves(checked, params)
  {
    var parsed := ParseAddressParams(params);
    r := TransferAddressLeaves(checked, parsed.totalSigners, parsed.requiredSigners);
    AllRequired(checked, parsed.requiredSigners);
  }

  lemma AllRequired(checked: bool, n: u64)
    ensures Leaves(checked, n, n) == RecordedLeaves(checked, AddressParams(n, n))
  {
    MiddleFits(n);
    if n <= 67 {
      ChooseAll(n);
    } else if !checked {
      WrappedAllRequired(n);
    }
  }

  lemma WrappedAllRequired(n: u64)
    requires n >= 68
    ensures Loop(false, n, 1, 1, n) == if n == U64_SIZE - 1 then Panics else Count(0)
  {
    if n == U64_SIZE - 1 {
      NeverEnds(n, 1, 1);
    } else {
      Vanishes(n, 1, 1);
    }
  }

  lemma MiddleFits(n: nat)
    ensures Choose(n, n / 2) < U64_SIZE <==> n <= 67
    ensures Peak(n, n) == Choose(n, n / 2)
  {
    if n <= 67 {
      var widest: nat := 67;
      MiddleGrows(n, widest);
      Row67(widest, widest / 2);
    } else {
      var narrowest: nat := 68;
      MiddleGrows(narrowest, n);
      Row68(narrowest, narrowest / 2);
    }
  }

  /** With the largest 64-bit number for both parameters, `d` never passes it. */
  lemma {:induction false} NeverEnds(n: u64, d: u64, result: u64)
    ensures Loop(false, n, d, result, U64_SIZE - 1) == Panics
    decreases if d == 0 then 0 else U64_SIZE - d
  {
    if d > 0 {
      NeverEnds(Decrement(n), Wrap(d + 1), Wrap(RoundProduct(n, d, result)));
    }
  }

  /**
   * From 68 signers on, all required, the wrapped loop ends at zero: the middle entry of the row exceeds every 64-bit
   * number, nothing wraps in the second half, and there `result` falls at least as fast as the row does.
   */
  lemma {:induction false} Vanishes(total: u64, d: u64, result: u64)
    requires 68 <= total < U64_SIZE - 1 && 1 <= d <= total + 1 && Below(total, d, result)
    ensures Loop(false, total - d + 1, d, result, total) == Count(0)
    decreases total + 1 - d
  {
    if d == total + 1 {
      BelowAtTheEnd(total, result);
    } else {
      var next := StaysBelow(total, d, result);
      Vanishes(total, d + 1, next);
    }
  }

  /** In the second half of the row, `result` is less than the entry. */
  ghost predicate Below(total: nat, d: nat, result: nat)
    requires d >= 1
  {
    2 * d >= total + 1 ==> result < Choose(total, d - 1)
  }

  lemma BelowAtTheEnd(total: nat, result: nat)
    requires Below(total, total + 1, result)
    ensures result == 0
  {
    ChooseAll(total);
  }

  lemma StaysBelow(total: u64, d: u64, result: u64) returns (next: u64)
    requires 68 <= total < U64_SIZE - 1 && 1 <= d <= total && Below(total, d, result)
    ensures Loop(false, total - d + 1, d, result, total) == Loop(false, total - d, d + 1, next, total)
    ensures Below(total, d + 1, next)
  {
    StepFits(total - d + 1, d, 0);
    next := Wrap(RoundProduct(total - d + 1, d, result));
    BelowAfterRound(total, d, result);
  }

  lemma BelowAfterRound(total: u64, d: u64, result: u64)
    requires 68 <= total && 1 <= d <= total && Below(total, d, result)
    ensures Below(total, d + 1, Wrap(RoundProduct(total - d + 1, d, result)))
  {
    var n := total - d + 1;
    if 2 * d >= total + 1 {
      Absorption(total, d);
      Shrinks(n, d, result, Choose(total, d - 1), Choose(total, d));
    } else if 2 * (d + 1) >= total + 1 {
      assert d == total / 2;
      MiddleFits(total);
    }
  }

  /** A round multiplies by at most `n / d`, so it keeps `result` below an entry that is multiplied by `n / d`. */
  lemma Shrinks(n: nat, d: nat, result: nat, entry: nat, next: nat)
    requires 1 <= n <= d && result < entry && next * d == entry * n
    ensures RoundProduct(n, d, result) <= result && RoundProduct(n, d, result) < next
  {
    var product := RoundProduct(n, d, result);
    RoundIsAtMost(n, d, result);
    Monotone(result, n, d);
    if product > result {
      StrictlyMonotone(d, result, product);
    }
    StrictlyMonotone(n, result, entry);
    if product >= next {
      Monotone(d, next, product);
    }
  }

  lemma RoundIsAtMost(n: nat, d: nat, result: nat)
    requires d >= 1
    ensures RoundProduct(n, d, result) * d <= result * n
  {
    var g, p, q, x, y := Reduce(result, d);
    QuotientIs(result, g, p);
    QuotientIs(d, g, q);
    var t: nat := n / q;
    assert RoundProduct(n, d, result) == p * t;
    assert q * t <= n by {
      assert q * t + n % q == n;
    }
    Monotone(result, q * t, n);
    assert (p * t) * d == result * (q * t) by {
      Associate(p, t, d);
      Associate(g, p, q * t);
      FourFactors(p, t, g, q);
    }
  }

  lemma FourFactors(p: int, t: int, g: int, q: int)
    ensures (p * t) * (g * q) == (g * p) * (q * t)
  {
    Associate(p, t, g * q);
    Associate(t, g, q);
    Associate(g, p, q * t);
    Associate(p, g, t * q);
    assert t * (g * q) == g * (t * q);
  }

  /**
   * The recorded count is the intended one exactly when all signers are required and there are at most 67 of them,
   * whether or not the build checks for overflow.
   */
  lemma RecordedCountIsIntended(checked: bool, params: AddressParams)
    requires 1 <= params.requiredSigners <= params.totalSigners
    ensures var r := RecordedLeaves(checked, params);
      r.Count? && r.leaves == Choose(params.totalSigners, params.requiredSigners)
      <==> params.requiredSigners == params.totalSigners <= 67
  {
    OneExactlyWhenAll(params.totalSigners, params.requiredSigners);
  }

  lemma OneExactlyWhenAll(n: nat, k: nat)
    requires 1 <= k <= n
    ensures Choose(n, k) == 1 <==> k == n
  {
    ChooseAll(n);
    if k < n {
      Rising(n, 1, if k <= n / 2 then k else n / 2);
      ChooseOne(n);
      if k > n / 2 {
        Falling(n, k, n - 1);
        Symmetry(n, 1);
      }
    }
  }

  /** Two inputs with a wrong count: one of two signers, and all of 68 signers. */
  lemma WrongCounts(checked: bool)
    ensures RecordedLeaves(checked, AddressParams(1, 2)) == Count(1) && Choose(2, 1) == 2
    ensures RecordedLeaves(checked, AddressParams(68, 68)) == if checked then Panics else Count(0)
    ensures Choose(68, 68) == 1
  {
    var n: nat := 68;
    ChooseAll(n);
    ChooseOne(2);
  }
}
