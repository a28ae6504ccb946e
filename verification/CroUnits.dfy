/**
 * Conversion between CRO and its basic unit (lib/src/utils/utils.ts). Amounts are decimal numbers without bound on
 * their digits; only division rounds, half up, to 20 decimal places.
 */
module CroUnits {
  import opened Wrappers
  import opened SharedTypes

  const CRO_DECIMAL: int := 100_000_000
  const MAX_CRO: int := 100_000_000_000
  const DIVISION_SCALE: int := 100_000_000_000_000_000_000

  /** A BigNumber; zero has a sign too. */
  datatype BigNumber = NaN | Infinite(positive: bool) | Finite(negative: bool, magnitude: real)

  datatype Unit = BasicUnit | CRO

  datatype Error = TooManyDecimals | Negative | ExceedsSupply

  predicate WellFormed(v: BigNumber) {
    v.Finite? ==> v.magnitude >= 0.0
  }

  predicate IsInteger(x: real) {
    x == x.Floor as real
  }

  function Times(v: BigNumber, k: int): BigNumber
    requires k > 0
  {
    match v
    case Finite(negative, x) => Finite(negative, x * (k as real))
    case _ => v
  }

  /** Rounding a magnitude half up to 20 decimal places. */
  function Round(x: real): real {
    (x * (DIVISION_SCALE as real) + 0.5).Floor as real / (DIVISION_SCALE as real)
  }

  function DividedBy(v: BigNumber, k: int): BigNumber
    requires k > 0
  {
    match v
    case Finite(negative, x) => Finite(negative, Round(x / (k as real)))
    case _ => v
  }

  function VerifyCRO(v: BigNumber): Result<(), Error> {
    var scaled := Times(v, CRO_DECIMAL);
    if !(scaled.Finite? && IsInteger(scaled.magnitude)) then Err(TooManyDecimals)
    else if v.negative then Err(Negative)
    else if v.magnitude > MAX_CRO as real then Err(ExceedsSupply)
    else Ok(())
  }

  function ToCRO(v: BigNumber, fromUnit: Unit): Result<BigNumber, Error> {
    var cro := match fromUnit
               case BasicUnit => DividedBy(v, CRO_DECIMAL)
               case CRO => v;
    match VerifyCRO(cro)
    case Err(e) => Err(e)
    case Ok(_) => Ok(cro)
  }

  function FromCRO(v: BigNumber, toUnit: Unit): Result<BigNumber, Error> {
    match VerifyCRO(v)
    case Err(e) => Err(e)
    case Ok(_) =>
      match toUnit
      case BasicUnit => Ok(Times(v, CRO_DECIMAL))
      case CRO => Ok(v)
  }

  /** A whole number of basic units. */
  function Coin(n: nat): BigNumber {
    Finite(false, n as real)
  }

  /** The same amount in CRO. */
  function InCRO(n: nat): BigNumber {
    Finite(false, n as real / (CRO_DECIMAL as real))
  }

  lemma FloorOf(x: real, k: int)
    requires k as real <= x < k as real + 1.0
    ensures x.Floor == k
  {
  }

  /** Dividing a whole number of basic units is exact: rounding to 20 places changes nothing. */
  lemma CoinDivisionIsExact(n: nat)
    ensures DividedBy(Coin(n), CRO_DECIMAL) == InCRO(n)
  {
    var q := n as real / (CRO_DECIMAL as real);
    var k := n * 1_000_000_000_000;
    assert q * (DIVISION_SCALE as real) == k as real;
    FloorOf(q * (DIVISION_SCALE as real) + 0.5, k);
  }

  /** Which values `verifyCRO` accepts: the amounts of a coin, and nothing else. */
  lemma VerifyAcceptsCoins(v: BigNumber)
    requires WellFormed(v)
    ensures VerifyCRO(v).Ok? <==> exists n: nat :: n <= MAX_COIN && v == InCRO(n)
  {
    if VerifyCRO(v).Ok? {
      var n := (v.magnitude * (CRO_DECIMAL as real)).Floor;
      assert v.magnitude == n as real / (CRO_DECIMAL as real);
      assert n <= MAX_COIN;
      assert v == InCRO(n);
    }
    if n: nat :| n <= MAX_COIN && v == InCRO(n) {
      CoinIsVerified(n);
    }
  }

  lemma CoinIsVerified(n: nat)
    ensures VerifyCRO(InCRO(n)) == if n <= MAX_COIN then Ok(()) else Err(ExceedsSupply)
  {
    var x := n as real / (CRO_DECIMAL as real);
    assert x * (CRO_DECIMAL as real) == n as real;
    assert IsInteger(n as real);
  }

  /** From basic units to CRO and back. */
  lemma CoinRoundTrip(n: nat)
    requires n <= MAX_COIN
    ensures ToCRO(Coin(n), BasicUnit) == Ok(InCRO(n))
    ensures FromCRO(InCRO(n), BasicUnit) == Ok(Coin(n))
  {
    CoinDivisionIsExact(n);
    CoinIsVerified(n);
    assert n as real / (CRO_DECIMAL as real) * (CRO_DECIMAL as real) == n as real;
  }

  /** From CRO to basic units and back, for every value `fromCRO` accepts; what it returns is a coin. */
  lemma CRORoundTrip(v: BigNumber)
    requires WellFormed(v) && FromCRO(v, BasicUnit).Ok?
    ensures exists n: nat :: n <= MAX_COIN && FromCRO(v, BasicUnit) == Ok(Coin(n))
    ensures ToCRO(FromCRO(v, BasicUnit).value, BasicUnit) == Ok(v)
  {
    VerifyAcceptsCoins(v);
    var n: nat :| n <= MAX_COIN && v == InCRO(n);
    CoinRoundTrip(n);
  }

  /** In the unit CRO both directions return the value itself, if it is the amount of a coin. */
  lemma CROIsKept(v: BigNumber)
    requires WellFormed(v)
    ensures ToCRO(v, CRO) == FromCRO(v, CRO)
    ensures if exists n: nat :: n <= MAX_COIN && v == InCRO(n) then ToCRO(v, CRO) == Ok(v) else ToCRO(v, CRO).Err?
  {
    VerifyAcceptsCoins(v);
  }

  /** The size of the unit and of the supply. */
  lemma UnitSizes()
    ensures ToCRO(Coin(100_000_000), BasicUnit) == Ok(Finite(false, 1.0))
    ensures FromCRO(Finite(false, 1.0), BasicUnit) == Ok(Coin(100_000_000))
    ensures FromCRO(Finite(false, 100_000_000_000.0), BasicUnit) == Ok(Coin(10_000_000_000_000_000_000))
    ensures FromCRO(Finite(false, 100_000_000_000.00000001), BasicUnit) == Err(ExceedsSupply)
  {
    var one: nat, most: nat := 100_000_000, 10_000_000_000_000_000_000;
    CoinRoundTrip(one);
    CoinRoundTrip(most);
    assert InCRO(one) == Finite(false, 1.0) && InCRO(most) == Finite(false, 100_000_000_000.0);
    CoinIsVerified(most + 1);
    assert InCRO(most + 1) == Finite(false, 100_000_000_000.00000001);
  }

  /** A whole number of basic units, whatever its size and sign. */
  ghost predicate IsWholeAmount(v: BigNumber) {
    v.Finite? && exists n: nat :: v.magnitude == InCRO(n).magnitude
  }

  /** Which values in CRO are refused, and why: decimal places first, then the sign, then the supply. */
  lemma RefusedAmounts(v: BigNumber, unit: Unit)
    requires WellFormed(v)
    ensures var r := FromCRO(v, unit);
      r.Err? ==>
        r.error == if !IsWholeAmount(v) then TooManyDecimals else if v.negative then Negative else ExceedsSupply
    ensures FromCRO(v, unit).Ok? <==> IsWholeAmount(v) && !v.negative && v.magnitude <= 100_000_000_000.0
  {
    if v.Finite? {
      var scaled := v.magnitude * 100_000_000.0;
      var k: nat := scaled.Floor;
      if IsInteger(scaled) {
        assert v.magnitude == InCRO(k).magnitude;
      }
      if n: nat :| v.magnitude == InCRO(n).magnitude {
        assert scaled == n as real;
      }
    }
  }

  /** Both directions keep the order of amounts. */
  lemma ConversionKeepsOrder(m: nat, n: nat)
    requires m <= MAX_COIN && n <= MAX_COIN
    ensures m < n <==> InCRO(m).magnitude < InCRO(n).magnitude
    ensures m == n <==> ToCRO(Coin(m), BasicUnit) == ToCRO(Coin(n), BasicUnit)
  {
    CoinRoundTrip(m);
    CoinRoundTrip(n);
  }

  /** Within half of the last kept place, half up, of the whole number `n`. */
  predicate RoundsToCoin(x: real, n: nat) {
    n as real - 0.000_000_000_000_5 <= x < n as real + 0.000_000_000_000_5
  }

  lemma RoundedQuotient(x: real, n: nat)
    requires x >= 0.0
    ensures Round(x / (CRO_DECIMAL as real)) == InCRO(n).magnitude <==> RoundsToCoin(x, n)
  {
    var y := x / (CRO_DECIMAL as real) * (DIVISION_SCALE as real);
    assert y == x * 1_000_000_000_000.0;
    var k := n * 1_000_000_000_000;
    var f := (y + 0.5).Floor;
    assert Round(x / (CRO_DECIMAL as real)) == f as real / (DIVISION_SCALE as real);
    assert InCRO(n).magnitude == k as real / (DIVISION_SCALE as real);
    assert f == k <==> k as real <= y + 0.5 < k as real + 1.0;
  }

  /**
   * Which amounts in basic units `toCRO` accepts. A value that is not a whole number is documented to be refused; as
   * written, one that rounding takes to a whole number is accepted as that number.
   */
  lemma ToCROAccepts(v: BigNumber)
    requires WellFormed(v)
    ensures ToCRO(v, BasicUnit).Ok? <==>
      v.Finite? && !v.negative && exists n: nat :: n <= MAX_COIN && RoundsToCoin(v.magnitude, n)
    ensures forall n: nat :: n <= MAX_COIN && v.Finite? && !v.negative && RoundsToCoin(v.magnitude, n) ==>
      ToCRO(v, BasicUnit) == Ok(InCRO(n))
  {
    if v.Finite? {
      var cro := DividedBy(v, CRO_DECIMAL);
      RoundIsNonNegative(v.magnitude / (CRO_DECIMAL as real));
      VerifyAcceptsCoins(cro);
      forall n: nat
        ensures cro.magnitude == InCRO(n).magnitude <==> RoundsToCoin(v.magnitude, n)
      {
        RoundedQuotient(v.magnitude, n);
      }
    }
  }

  lemma RoundIsNonNegative(x: real)
    requires x >= 0.0
    ensures Round(x) >= 0.0
  {
  }

  /** A ten-trillionth of a basic unit is accepted and becomes nothing. */
  lemma FractionIsAccepted()
    ensures var v := Finite(false, 0.000_000_000_000_1);
      !IsInteger(v.magnitude) && ToCRO(v, BasicUnit) == Ok(InCRO(0))
  {
    var v := Finite(false, 0.000_000_000_000_1);
    FloorOf(v.magnitude, 0);
    assert RoundsToCoin(v.magnitude, 0);
    ToCROAccepts(v);
  }
}
