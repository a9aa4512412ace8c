/** Machine integers and the idealised conversions between wei, gwei and ETH.

    Floating-point values are exact reals; `as u128` of a float is a floor that
    saturates at both ends, as Rust defines the cast. */
module Units {

  const U32_SIZE: nat := 0x1_0000_0000
  const U64_SIZE: nat := 0x1_0000_0000_0000_0000
  const U128_SIZE: nat := 0x1_0000_0000_0000_0000_0000_0000_0000_0000
  const U256_SIZE: nat := U128_SIZE * U128_SIZE

  type U32 = x: int | 0 <= x < 0x1_0000_0000
  type U64 = x: int | 0 <= x < 0x1_0000_0000_0000_0000
  type U128 = x: int | 0 <= x < 0x1_0000_0000_0000_0000_0000_0000_0000_0000
  type U256 = x: int | 0 <= x < 0x1_0000_0000_0000_0000_0000_0000_0000_0000 * 0x1_0000_0000_0000_0000_0000_0000_0000_0000

  const U128_MAX: U128 := U128_SIZE - 1
  const U256_MAX: U256 := U256_SIZE - 1

  const WEI_PER_GWEI: real := 1000000000.0
  const WEI_PER_ETH: real := 1000000000000000000.0

  datatype Option<+T> = None | Some(value: T)

  /** Instants and durations are in nanoseconds. */
  const MILLISECOND: nat := 1_000_000
  const SECOND: nat := 1_000_000_000

  function Min(x: int, y: int): int {
    if x <= y then x else y
  }

  function Max(x: int, y: int): int {
    if x >= y then x else y
  }

  function RealMax(x: real, y: real): real {
    if x >= y then x else y
  }

  function RealMin(x: real, y: real): real {
    if x <= y then x else y
  }

  /** Rust's `x as u128` on a float. */
  function FloorToU128(x: real): U128 {
    if x < 0.0 then 0 else if x >= U128_SIZE as real then U128_MAX else x.Floor
  }

  function SaturatingAdd128(x: U128, y: U128): U128 {
    Min(x + y, U128_MAX)
  }

  function SaturatingAdd256(x: U256, y: U256): U256 {
    Min(x + y, U256_MAX)
  }

  function SaturatingSub256(x: U256, y: U256): U256 {
    Max(x - y, 0)
  }

  function SaturatingMul256(x: U256, y: nat): U256 {
    if x * y <= U256_MAX then MulNonNegative(x, y); x * y else U256_MAX
  }

  lemma MulNonNegative(x: nat, y: nat)
    ensures 0 <= x * y
  {
  }

  function WeiToGwei(wei: U128): real {
    wei as real / WEI_PER_GWEI
  }

  function EthToWei(eth: real): U128 {
    FloorToU128(eth * WEI_PER_ETH)
  }

  /** Percent::apply_to */
  function ApplyPercent(percent: real, base: real): real {
    base * (1.0 + percent / 100.0)
  }

  /** A wei price scaled by r and rounded down. */
  function ScaleDown(price: U128, r: real): U128 {
    FloorToU128(price as real * r)
  }

  /** Rounding down after each of k scalings. */
  function ScaleDownTimes(price: U128, r: real, k: nat): U128 {
    if k == 0 then price else ScaleDown(ScaleDownTimes(price, r, k - 1), r)
  }

  /** One floor-rounded bump of a wei price. */
  function NextBid(price: U128, bump: real): U128 {
    ScaleDown(price, 1.0 + bump / 100.0)
  }

  /** The price after `k` successive bumps. */
  function BidAfter(price: U128, bump: real, k: nat): U128 {
    ScaleDownTimes(price, 1.0 + bump / 100.0, k)
  }

  /** Converting to gwei, bumping and converting back is one bump of the wei price. */
  lemma BumpThroughGwei(price: U128, bump: real)
    ensures FloorToU128(ApplyPercent(bump, WeiToGwei(price)) * WEI_PER_GWEI) == NextBid(price, bump)
  {
    var p, f := price as real, 1.0 + bump / 100.0;
    assert (p / WEI_PER_GWEI) * f * WEI_PER_GWEI == p * f;
  }

  /** The bump of this price amounts to at least one wei. */
  predicate WholeWeiBump(price: U128, bump: real) {
    price as real * bump >= 100.0
  }

  /** A bump raises the price exactly when the increment is a whole wei and the price is not already saturated. */
  lemma BumpRaises(price: U128, bump: real)
    requires bump > 0.0
    ensures NextBid(price, bump) > price <==> price < U128_MAX && WholeWeiBump(price, bump)
    ensures NextBid(price, bump) >= price
  {
    var p := price as real;
    var x := p * (1.0 + bump / 100.0);
    assert x == p + p * bump / 100.0;
    assert p * bump >= 0.0;
    if p * bump >= 100.0 {
      assert x >= p + 1.0;
    } else {
      assert x < p + 1.0;
    }
  }

  /** A bump that is a whole wei for one price is for every larger one. */
  lemma WholeWeiMonotone(p: U128, q: U128, bump: real)
    requires bump > 0.0 && p <= q && WholeWeiBump(p, bump)
    ensures WholeWeiBump(q, bump)
  {
    var x, y := p as real, q as real;
    assert y * bump == x * bump + (y - x) * bump;
    assert (y - x) * bump >= 0.0;
  }

  lemma ScaleOrder(r: real, x: real, y: real)
    requires r >= 0.0 && x <= y
    ensures r * x <= r * y
  {
    assert r * (y - x) >= 0.0;
  }

  lemma FloorAtMost(z: real)
    requires z >= 0.0
    ensures FloorToU128(z) as real <= z
  {
  }

  lemma FloorMonotone(x: real, y: real)
    requires x <= y
    ensures FloorToU128(x) <= FloorToU128(y)
  {
  }

  lemma FloorBounds(z: real)
    requires 0.0 <= z < U128_SIZE as real
    ensures z - 1.0 < FloorToU128(z) as real <= z
  {
  }

  /** p * r^k: exact compounding. */
  function Compound(p: real, r: real, k: nat): real {
    if k == 0 then p else r * Compound(p, r, k - 1)
  }

  /** Exact compounding that loses a whole wei at every step. */
  function CompoundLess(p: real, r: real, k: nat): real {
    if k == 0 then p else r * CompoundLess(p, r, k - 1) - 1.0
  }

  /** 1 + r + ... + r^(k-1): what one wei lost per step has grown to. */
  function RoundingLoss(r: real, k: nat): real {
    if k == 0 then 0.0 else r * RoundingLoss(r, k - 1) + 1.0
  }

  /** The geometric sum in closed form: loss = (r^k - 1) / (r - 1), without the division. */
  lemma {:induction false} RoundingLossClosedForm(r: real, k: nat)
    ensures RoundingLoss(r, k) * (r - 1.0) == Compound(1.0, r, k) - 1.0
  {
    if k > 0 {
      RoundingLossClosedForm(r, k - 1);
      GeometricStep(r, RoundingLoss(r, k - 1), Compound(1.0, r, k - 1));
    }
  }

  lemma GeometricStep(r: real, l: real, q: real)
    requires l * (r - 1.0) == q - 1.0
    ensures (r * l + 1.0) * (r - 1.0) == r * q - 1.0
  {
    calc {
      (r * l + 1.0) * (r - 1.0);
      r * (l * (r - 1.0)) + (r - 1.0);
      r * (q - 1.0) + (r - 1.0);
      r * q - 1.0;
    }
  }

  lemma {:induction false} EnvelopeGap(p: real, r: real, k: nat)
    ensures CompoundLess(p, r, k) == Compound(p, r, k) - RoundingLoss(r, k)
  {
    if k > 0 {
      EnvelopeGap(p, r, k - 1);
      Distribute(r, Compound(p, r, k - 1), RoundingLoss(r, k - 1));
    }
  }

  lemma Distribute(r: real, x: real, y: real)
    ensures r * (x - y) == r * x - r * y
  {
  }

  /** Rounding down never overshoots exact compounding ... */
  lemma {:induction false} CompoundingUpper(price: U128, r: real, k: nat)
    requires r >= 1.0
    ensures ScaleDownTimes(price, r, k) as real <= Compound(price as real, r, k)
  {
    if k > 0 {
      CompoundingUpper(price, r, k - 1);
      StepUpper(ScaleDownTimes(price, r, k - 1), r, Compound(price as real, r, k - 1));
    }
  }

  lemma StepUpper(x: U128, r: real, c: real)
    requires r >= 1.0 && x as real <= c
    ensures ScaleDown(x, r) as real <= r * c
  {
    var z := x as real * r;
    assert z == r * x as real;
    ScaleOrder(r, x as real, c);
    ScaleOrder(r, 0.0, x as real);
    FloorAtMost(z);
  }

  /** ... and, unless the 128-bit cast saturated, loses less than a wei per step. */
  lemma {:induction false} CompoundingLower(price: U128, r: real, k: nat)
    requires r >= 1.0
    ensures ScaleDownTimes(price, r, k) < U128_MAX ==>
              ScaleDownTimes(price, r, k) as real >= CompoundLess(price as real, r, k)
  {
    if k > 0 {
      CompoundingLower(price, r, k - 1);
      StepLower(ScaleDownTimes(price, r, k - 1), r, CompoundLess(price as real, r, k - 1));
    }
  }

  lemma Stretch(x: real, r: real)
    requires x >= 0.0 && r >= 1.0
    ensures x <= x * r
  {
    assert x * r == x + x * (r - 1.0);
    assert x * (r - 1.0) >= 0.0;
  }

  lemma FloorKeeps(x: U128, z: real)
    requires x as real <= z
    ensures x <= FloorToU128(z)
  {
  }

  lemma ScaleDownGrows(x: U128, r: real)
    requires r >= 1.0
    ensures x <= ScaleDown(x, r)
  {
    var y := x as real;
    Stretch(y, r);
    FloorKeeps(x, y * r);
  }

  lemma FloorLoss(y: real, r: real, l: real)
    requires r >= 1.0 && y >= 0.0 && l <= y && FloorToU128(y * r) < U128_MAX
    ensures FloorToU128(y * r) as real >= r * l - 1.0
  {
    ScaleOrder(r, l, y);
    Stretch(y, r);
    FloorBounds(y * r);
  }

  lemma StepLower(x: U128, r: real, l: real)
    requires r >= 1.0 && (x < U128_MAX ==> l <= x as real)
    ensures ScaleDown(x, r) < U128_MAX ==> ScaleDown(x, r) as real >= r * l - 1.0
  {
    ScaleDownGrows(x, r);
    if ScaleDown(x, r) < U128_MAX {
      FloorLoss(x as real, r, l);
    }
  }

  /** r^k */
  function Power(r: real, k: nat): real {
    Compound(1.0, r, k)
  }

  lemma {:induction false} CompoundIsPower(p: real, r: real, k: nat)
    ensures Compound(p, r, k) == p * Power(r, k)
  {
    if k > 0 {
      CompoundIsPower(p, r, k - 1);
      Commute(r, p, Power(r, k - 1));
    }
  }

  lemma Commute(r: real, p: real, q: real)
    ensures r * (p * q) == p * (r * q)
  {
  }

  lemma Cancel(a: real, b: real, y: real)
    requires y > 0.0 && a * y == b * y
    ensures a == b
  {
    assert (a - b) * y == 0.0;
  }

  lemma DivideByGrowth(loss: real, r: real, power: real)
    requires r > 1.0 && loss * (r - 1.0) == power - 1.0
    ensures loss == (power - 1.0) / (r - 1.0)
  {
    var q := (power - 1.0) / (r - 1.0);
    assert q * (r - 1.0) == power - 1.0;
    Cancel(loss, q, r - 1.0);
  }

  /** k floor-rounded bumps of g by the factor r lie between g r^k - (r^k - 1) / (r - 1) and g r^k; the lower bound unless
      the 128-bit cast saturated. */
  lemma CompoundingEnvelope(price: U128, r: real, k: nat)
    requires r > 1.0
    ensures var exact, bumped := price as real * Power(r, k), ScaleDownTimes(price, r, k);
            && bumped as real <= exact
            && (bumped < U128_MAX ==> bumped as real >= exact - (Power(r, k) - 1.0) / (r - 1.0))
  {
    hide Compound, CompoundLess, RoundingLoss, ScaleDownTimes;
    CompoundingUpper(price, r, k);
    CompoundingLower(price, r, k);
    CompoundIsPower(price as real, r, k);
    EnvelopeGap(price as real, r, k);
    RoundingLossClosedForm(r, k);
    DivideByGrowth(RoundingLoss(r, k), r, Power(r, k));
  }
}
