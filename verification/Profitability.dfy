/** src/analysis/profitability.rs: gross profit, costs, ROI and the arbitrage spread. */
module Profitability {
  import opened Units
  import opened GasAuction
  import opened Transactions

  /** f64::EPSILON = 2^-52 */
  const EPSILON: real := 1.0 / 4503599627370496.0

  datatype DexProtocol = UniswapV2 | UniswapV3 | Sushiswap {
    function PriceImpactFactor(): real {
      if UniswapV3? then 0.85 else 1.0
    }
  }

  datatype DexQuote = DexQuote(protocol: DexProtocol, price: real, liquidityEth: real)

  /** Return on investment in percent; a profit at zero cost is the float infinity. */
  datatype Roi = Finite(percent: real) | Infinite

  datatype ProfitabilityAnalysis = ProfitabilityAnalysis(
    grossProfitWei: U256, gasCostWei: U256, replacementGasCostWei: U256, slippageCostWei: U256,
    netProfitWei: U256, roi: Roi, detectedProtocol: Option<DexProtocol>)
  {
    predicate IsProfitable(minRoi: real) {
      netProfitWei > 0 && (roi.Infinite? || roi.percent >= minRoi)
    }
  }

  const WEI: nat := 1_000_000_000_000_000_000

  /** wei_to_eth panics when the whole part does not fit in 128 bits. */
  predicate EthRepresentable(wei: U256) {
    wei / WEI < U128_SIZE
  }

  function WeiToEth(wei: U256): real
    requires EthRepresentable(wei)
  {
    (wei / WEI) as real + (wei % WEI) as real / WEI_PER_ETH
  }

  /** Splitting into whole ETH and remainder loses nothing. */
  lemma WeiToEthExact(wei: U256)
    requires EthRepresentable(wei)
    ensures WeiToEth(wei) * WEI_PER_ETH == wei as real
  {
    var w, r := wei / WEI, wei % WEI;
    assert wei == w * WEI + r;
    assert (w as real) * WEI_PER_ETH == (w * WEI) as real;
  }

  // The arbitrage spread

  function Prices(quotes: seq<DexQuote>): (prices: seq<real>)
    ensures |prices| == |quotes|
  {
    seq(|quotes|, i requires 0 <= i < |quotes| => quotes[i].price)
  }

  predicate AllPositive(prices: seq<real>) {
    forall i :: 0 <= i < |prices| ==> prices[i] > 0.0
  }

  /** No two different prices have zero as their maximum, so that every relative distance is finite: in particular all lists
      without negative prices. */
  predicate Divisible(prices: seq<real>) {
    forall i, j :: 0 <= i < j < |prices| ==> prices[i] == prices[j] || RealMax(prices[i], prices[j]) != 0.0
  }

  function MaxOf(prices: seq<real>): real
    requires prices != []
  {
    if |prices| == 1 then prices[0] else RealMax(MaxOf(prices[..|prices| - 1]), prices[|prices| - 1])
  }

  function MinOf(prices: seq<real>): real
    requires prices != []
  {
    if |prices| == 1 then prices[0] else RealMin(MinOf(prices[..|prices| - 1]), prices[|prices| - 1])
  }

  lemma {:induction false} MaxOfAttained(prices: seq<real>) returns (at: nat)
    requires prices != []
    ensures at < |prices| && prices[at] == MaxOf(prices)
    ensures forall i :: 0 <= i < |prices| ==> prices[i] <= MaxOf(prices)
  {
    at := |prices| - 1;
    if |prices| > 1 {
      var front := prices[..|prices| - 1];
      var a := MaxOfAttained(front);
      assert forall i :: 0 <= i < |front| ==> prices[i] == front[i];
      at := if prices[at] == MaxOf(prices) then at else a;
    }
  }

  lemma {:induction false} MinOfAttained(prices: seq<real>) returns (at: nat)
    requires prices != []
    ensures at < |prices| && prices[at] == MinOf(prices)
    ensures forall i :: 0 <= i < |prices| ==> MinOf(prices) <= prices[i]
  {
    at := |prices| - 1;
    if |prices| > 1 {
      var front := prices[..|prices| - 1];
      var a := MinOfAttained(front);
      assert forall i :: 0 <= i < |front| ==> prices[i] == front[i];
      at := if prices[at] == MinOf(prices) then at else a;
    }
  }

  /** The relative distance of two prices; equal prices have none, also two zeroes, whose NaN the source's maximum ignores. */
  function PairSpread(x: real, y: real): real
    requires x == y || RealMax(x, y) != 0.0
  {
    if x == y then 0.0 else (if x >= y then x - y else y - x) / RealMax(x, y)
  }

  /** The relative distance of the extreme prices. */
  function Spread(prices: seq<real>): real
    requires prices != [] && AllPositive(prices)
  {
    var at := MaxOf(prices);
    MaxOfPositive(prices);
    (at - MinOf(prices)) / at
  }

  lemma MaxOfPositive(prices: seq<real>)
    requires prices != [] && AllPositive(prices)
    ensures MaxOf(prices) > 0.0
  {
    var at := MaxOfAttained(prices);
  }

  lemma PairWithinExtremes(x: real, y: real, lo: real, hi: real)
    requires 0.0 < lo <= x <= hi && lo <= y <= hi
    ensures 0.0 <= PairSpread(x, y) <= (hi - lo) / hi
  {
    var big, small := RealMax(x, y), RealMin(x, y);
    DivideOrder(lo, hi, small, big);
    Complement(small, big);
    Complement(lo, hi);
  }

  lemma Complement(x: real, y: real)
    requires y > 0.0
    ensures (y - x) / y == 1.0 - x / y
  {
    var q := x / y;
    assert q * y == x;
    assert (1.0 - q) * y == y - x;
    Cancel((y - x) / y, 1.0 - q, y);
  }

  lemma DivideOrder(lo: real, hi: real, small: real, big: real)
    requires 0.0 < lo <= small <= big <= hi
    ensures lo / hi <= small / big <= 1.0
  {
    var q := small / big;
    assert q * big == small;
    assert q > 0.0;
    ScaleOrder(q, big, hi);
    assert q * hi >= lo;
  }

  /** The largest spread between price i and the prices at i+1 .. j-1. */
  function RowBest(prices: seq<real>, i: nat, j: nat): real
    requires Divisible(prices) && i < |prices| && j <= |prices|
  {
    if j <= i + 1 then 0.0 else RealMax(RowBest(prices, i, j - 1), PairSpread(prices[i], prices[j - 1]))
  }

  /** The largest spread of the pairs whose first index is below i. */
  function PairsBest(prices: seq<real>, i: nat): (best: real)
    requires Divisible(prices) && i <= |prices|
    ensures best >= 0.0
  {
    if i == 0 then 0.0 else RealMax(PairsBest(prices, i - 1), RowBest(prices, i - 1, |prices|))
  }

  lemma {:induction false} RowAtMost(prices: seq<real>, i: nat, j: nat, lo: nat, hi: nat)
    requires AllPositive(prices) && i < |prices| && j <= |prices| && lo < |prices| && hi < |prices|
    requires forall k :: 0 <= k < |prices| ==> prices[lo] <= prices[k] <= prices[hi]
    ensures 0.0 <= RowBest(prices, i, j) <= (prices[hi] - prices[lo]) / prices[hi]
  {
    if j <= i + 1 {
      PairWithinExtremes(prices[lo], prices[lo], prices[lo], prices[hi]);
    } else {
      RowAtMost(prices, i, j - 1, lo, hi);
      PairWithinExtremes(prices[i], prices[j - 1], prices[lo], prices[hi]);
    }
  }

  lemma {:induction false} PairsAtMost(prices: seq<real>, i: nat, lo: nat, hi: nat)
    requires AllPositive(prices) && i <= |prices| && lo < |prices| && hi < |prices|
    requires forall k :: 0 <= k < |prices| ==> prices[lo] <= prices[k] <= prices[hi]
    ensures 0.0 <= PairsBest(prices, i) <= (prices[hi] - prices[lo]) / prices[hi]
  {
    if i == 0 {
      PairWithinExtremes(prices[lo], prices[lo], prices[lo], prices[hi]);
    } else {
      PairsAtMost(prices, i - 1, lo, hi);
      RowAtMost(prices, i - 1, |prices|, lo, hi);
    }
  }

  lemma {:induction false} RowCovers(prices: seq<real>, a: nat, b: nat, j: nat)
    requires AllPositive(prices) && a < b < j <= |prices|
    ensures PairSpread(prices[a], prices[b]) <= RowBest(prices, a, j)
  {
    if b < j - 1 {
      RowCovers(prices, a, b, j - 1);
    }
  }

  lemma {:induction false} PairsCover(prices: seq<real>, a: nat, b: nat, i: nat)
    requires AllPositive(prices) && a < b < |prices| && a < i <= |prices|
    ensures PairSpread(prices[a], prices[b]) <= PairsBest(prices, i)
  {
    if a < i - 1 {
      PairsCover(prices, a, b, i - 1);
    } else {
      RowCovers(prices, a, b, |prices|);
    }
  }

  /** The best pairwise spread is the spread of the extreme prices. */
  lemma PairwiseIsExtreme(prices: seq<real>)
    requires |prices| >= 2 && AllPositive(prices)
    ensures PairsBest(prices, |prices|) == Spread(prices)
  {
    var hi := MaxOfAttained(prices);
    var lo := MinOfAttained(prices);
    PairsAtMost(prices, |prices|, lo, hi);
    if lo < hi {
      PairsCover(prices, lo, hi, |prices|);
    } else if hi < lo {
      PairsCover(prices, hi, lo, |prices|);
    }
  }

  /** The nested pairwise loop. For positive prices it finds the spread of the extremes. */
  method BestSpread(prices: seq<real>) returns (best: real)
    requires Divisible(prices)
    ensures best == PairsBest(prices, |prices|)
    ensures |prices| >= 2 && AllPositive(prices) ==> best == Spread(prices)
  {
    best := 0.0;
    for i := 0 to |prices|
      invariant best == PairsBest(prices, i)
    {
      for j := i + 1 to |prices|
        invariant best == RealMax(PairsBest(prices, i), RowBest(prices, i, j))
      {
        best := RealMax(best, PairSpread(prices[i], prices[j]));
      }
    }
    if |prices| >= 2 && AllPositive(prices) {
      PairwiseIsExtreme(prices);
    }
  }

  /** Half of the spread on the swapped value is assumed to be earned. */
  function SpreadProfit(swapValue: U256, spread: real, protocol: DexProtocol): U128
    requires EthRepresentable(swapValue)
  {
    EthToWei(WeiToEth(swapValue) * spread * protocol.PriceImpactFactor() * 0.5)
  }

  function ArbitrageProfit(swapValue: U256, quotes: seq<DexQuote>, protocol: DexProtocol): U128
    requires EthRepresentable(swapValue) && Divisible(Prices(quotes))
  {
    if |quotes| < 2 then 0
    else SpreadProfit(swapValue, PairsBest(Prices(quotes), |quotes|), protocol)
  }

  method EstimateArbitrageSpread(swapValue: U256, quotes: seq<DexQuote>, protocol: DexProtocol) returns (profit: U128)
    requires EthRepresentable(swapValue) && Divisible(Prices(quotes))
    ensures profit == ArbitrageProfit(swapValue, quotes, protocol)
    ensures |quotes| >= 2 && AllPositive(Prices(quotes)) ==> profit == SpreadProfit(swapValue, Spread(Prices(quotes)), protocol)
  {
    if |quotes| < 2 {
      return 0;
    }
    var bestSpread := BestSpread(Prices(quotes));
    profit := SpreadProfit(swapValue, bestSpread, protocol);
  }

  // Costs and profit

  function CapturedEth(swapEth: real, slippageBps: U32, protocol: DexProtocol): real {
    swapEth * (slippageBps as real / 10000.0) * (0.35 * protocol.PriceImpactFactor())
  }

  function SandwichCapture(swapValue: U256, slippageBps: U32, protocol: DexProtocol): U128
    requires EthRepresentable(swapValue)
  {
    EthToWei(CapturedEth(WeiToEth(swapValue), slippageBps, protocol))
  }

  function DetectProtocol(m: Method): DexProtocol {
    if m.ExactInput? then UniswapV3 else UniswapV2
  }

  function EstimateGrossProfit(tx: ParsedTransaction, quotes: seq<DexQuote>, slippageBps: U32): (U256, Option<DexProtocol>)
    requires EthRepresentable(tx.value) && AllPositive(Prices(quotes))
  {
    match tx.interaction
    case Some(ContractCall(_, Some(m))) =>
      var protocol := DetectProtocol(m);
      if tx.value == 0 then (0, Some(protocol))
      else (Max(ArbitrageProfit(tx.value, quotes, protocol), SandwichCapture(tx.value, slippageBps, protocol)), Some(protocol))
    case Some(Erc20Transfer(_, _, amount)) => (SaturatingMul256(amount, 5) / 1000, None)
    case Some(Erc20TransferFrom(_, _, _, amount)) => (SaturatingMul256(amount, 5) / 1000, None)
    case _ => (SaturatingMul256(tx.value, 2) / 100, None)
  }

  /** The amount slippage is charged on. */
  function SwapAmount(tx: ParsedTransaction): U256 {
    match tx.interaction
    case Some(Erc20Transfer(_, _, amount)) => amount
    case Some(Erc20TransferFrom(_, _, _, amount)) => amount
    case _ => tx.value
  }

  function TotalLiquidity(quotes: seq<DexQuote>): real {
    if quotes == [] then 0.0 else quotes[0].liquidityEth + TotalLiquidity(quotes[1..])
  }

  function PriceImpact(swapEth: real, quotes: seq<DexQuote>): real {
    RealMin(swapEth / RealMax(TotalLiquidity(quotes), 1.0), 1.0)
  }

  /** The basis-point charge before the price impact. */
  function BaseSlippage(tx: ParsedTransaction, slippageBps: U32): U256 {
    SaturatingMul256(SwapAmount(tx), slippageBps) / 10000
  }

  function ScaledEth(eth: real, factor: real): real {
    eth * factor
  }

  function Impacted(base: U256, impact: real): U128
    requires EthRepresentable(base)
  {
    EthToWei(ScaledEth(WeiToEth(base), impact))
  }

  function SlippageCost(tx: ParsedTransaction, quotes: seq<DexQuote>, slippageBps: U32): U256
    requires quotes != [] ==> EthRepresentable(SwapAmount(tx)) && EthRepresentable(BaseSlippage(tx, slippageBps))
  {
    if SwapAmount(tx) == 0 then 0
    else if quotes == [] then BaseSlippage(tx, slippageBps)
    else Impacted(BaseSlippage(tx, slippageBps), PriceImpact(WeiToEth(SwapAmount(tx)), quotes))
  }

  function RoiPercent(gross: U256, cost: U256): Roi
    requires EthRepresentable(gross) && EthRepresentable(cost)
  {
    if cost == 0 then (if gross == 0 then Finite(0.0) else Infinite)
    else if WeiToEth(cost) <= EPSILON then Finite(0.0)
    else Finite((WeiToEth(gross) - WeiToEth(cost)) / WeiToEth(cost) * 100.0)
  }

  function ReplacementGasCost(tx: ParsedTransaction, bump: real): U256
    requires tx.EffectiveGasPrice() < U128_SIZE
  {
    SaturatingMul256(tx.gasLimit, NextBid(tx.EffectiveGasPrice(), bump))
  }

  /** The inputs on which no 128-bit conversion panics. */
  predicate Convertible(tx: ParsedTransaction, bump: real, slippageBps: U32, quotes: seq<DexQuote>) {
    && tx.EffectiveGasPrice() < U128_SIZE
    && AllPositive(Prices(quotes))
    && EthRepresentable(tx.value)
    && (quotes != [] ==> EthRepresentable(SwapAmount(tx)) && EthRepresentable(BaseSlippage(tx, slippageBps)))
    && EthRepresentable(EstimateGrossProfit(tx, quotes, slippageBps).0)
    && EthRepresentable(SaturatingAdd256(ReplacementGasCost(tx, bump), SlippageCost(tx, quotes, slippageBps)))
  }

  function Analyze(tx: ParsedTransaction, bump: real, slippageBps: U32, quotes: seq<DexQuote>): ProfitabilityAnalysis
    requires Convertible(tx, bump, slippageBps, quotes)
  {
    var (gross, protocol) := EstimateGrossProfit(tx, quotes, slippageBps);
    var gasCost := SaturatingMul256(tx.gasLimit, tx.EffectiveGasPrice());
    var replacementCost := ReplacementGasCost(tx, bump);
    var slippage := SlippageCost(tx, quotes, slippageBps);
    var total := SaturatingAdd256(replacementCost, slippage);
    ProfitabilityAnalysis(
      gross, gasCost, replacementCost, slippage, SaturatingSub256(gross, total), RoiPercent(gross, total), protocol)
  }

  /** Comparing ROI percentages in ETH is comparing exact wei amounts. */
  lemma RoiInWei(gross: U256, cost: U256, minRoi: real)
    requires EthRepresentable(gross) && EthRepresentable(cost)
    requires cost > 0 && WeiToEth(cost) > EPSILON
    ensures RoiPercent(gross, cost).percent >= minRoi <==> 100.0 * (gross - cost) as real >= minRoi * cost as real
  {
    WeiToEthExact(gross);
    WeiToEthExact(cost);
    var g, c := WeiToEth(gross), WeiToEth(cost);
    var q := (g - c) / c;
    assert q * c == g - c;
    if q * 100.0 >= minRoi {
      ScaleOrder(c, minRoi, q * 100.0);
    } else {
      StrictScale(c, q * 100.0, minRoi);
    }
  }

  lemma StrictScale(r: real, x: real, y: real)
    requires r > 0.0 && x < y
    ensures r * x < r * y
  {
    assert r * (y - x) > 0.0;
  }

  lemma SaturatingBounds(x: U256, y: nat)
    ensures SaturatingMul256(x, y) == Min(x * y, U256_MAX)
  {
  }

  lemma BaseSlippageBound(tx: ParsedTransaction, slippageBps: U32)
    ensures 10000 * BaseSlippage(tx, slippageBps) <= SwapAmount(tx) * slippageBps
  {
    SaturatingBounds(SwapAmount(tx), slippageBps);
  }

  lemma ImpactBelowOne(swapEth: real, quotes: seq<DexQuote>)
    ensures PriceImpact(swapEth, quotes) <= 1.0
  {
  }

  lemma DiscountOnly(tx: ParsedTransaction, quotes: seq<DexQuote>, slippageBps: U32)
    requires quotes != [] ==> EthRepresentable(SwapAmount(tx)) && EthRepresentable(BaseSlippage(tx, slippageBps))
    ensures SlippageCost(tx, quotes, slippageBps) <= BaseSlippage(tx, slippageBps)
  {
    if SwapAmount(tx) != 0 && quotes != [] {
      var impact := PriceImpact(WeiToEth(SwapAmount(tx)), quotes);
      ImpactBelowOne(WeiToEth(SwapAmount(tx)), quotes);
      ImpactShrinks(impact, BaseSlippage(tx, slippageBps));
    }
  }

  /** Slippage never exceeds the configured share of the swapped amount. */
  lemma SlippageWithinTolerance(tx: ParsedTransaction, quotes: seq<DexQuote>, slippageBps: U32)
    requires quotes != [] ==> EthRepresentable(SwapAmount(tx)) && EthRepresentable(BaseSlippage(tx, slippageBps))
    ensures 10000 * SlippageCost(tx, quotes, slippageBps) <= SwapAmount(tx) * slippageBps
  {
    DiscountOnly(tx, quotes, slippageBps);
    BaseSlippageBound(tx, slippageBps);
  }

  lemma ImpactShrinks(impact: real, base: U256)
    requires impact <= 1.0 && EthRepresentable(base)
    ensures Impacted(base, impact) <= base
  {
    WeiToEthExact(base);
    FloorScaled(WeiToEth(base), impact, base);
  }

  lemma FloorScaled(eth: real, impact: real, wei: U256)
    requires impact <= 1.0 && eth * WEI_PER_ETH == wei as real
    ensures EthToWei(eth * impact) <= wei
  {
    ScaleOrder(eth, impact, 1.0);
    ScaleOrder(WEI_PER_ETH, eth * impact, eth);
    FloorMonotone(eth * impact * WEI_PER_ETH, eth * WEI_PER_ETH);
  }

  /** Every wei of gross profit is net profit, gas or slippage, and the net profit meets the required return. */
  predicate Balanced(a: ProfitabilityAnalysis, minRoi: real) {
    && a.grossProfitWei == a.netProfitWei + a.replacementGasCostWei + a.slippageCostWei
    && 100.0 * a.netProfitWei as real >= minRoi * (a.replacementGasCostWei + a.slippageCostWei) as real
    && (a.roi.Infinite? <==> a.replacementGasCostWei + a.slippageCostWei == 0)
  }

  lemma PositiveRoiPays(gross: U256, cost: U256, minRoi: real)
    requires EthRepresentable(gross) && EthRepresentable(cost)
    requires minRoi > 0.0 && RoiPercent(gross, cost).Finite? && RoiPercent(gross, cost).percent >= minRoi
    ensures cost > 0 && 100.0 * (gross - cost) as real >= minRoi * cost as real
  {
    hide WeiToEth;
    RoiInWei(gross, cost, minRoi);
  }

  lemma FreeOfCost(net: nat, minRoi: real)
    ensures 100.0 * net as real >= minRoi * 0 as real
  {
  }

  lemma InfiniteRoi(gross: U256, cost: U256)
    requires EthRepresentable(gross) && EthRepresentable(cost) && gross > 0
    ensures RoiPercent(gross, cost).Infinite? <==> cost == 0
  {
    hide WeiToEth;
  }

  lemma RecordBalances(a: ProfitabilityAnalysis, minRoi: real)
    requires var total := SaturatingAdd256(a.replacementGasCostWei, a.slippageCostWei);
             && EthRepresentable(a.grossProfitWei) && EthRepresentable(total)
             && a.netProfitWei == SaturatingSub256(a.grossProfitWei, total)
             && a.roi == RoiPercent(a.grossProfitWei, total)
    requires minRoi > 0.0 && a.IsProfitable(minRoi)
    ensures Balanced(a, minRoi)
  {
    hide RoiPercent;
    var cost := a.replacementGasCostWei + a.slippageCostWei;
    assert a.grossProfitWei == a.netProfitWei + cost;
    InfiniteRoi(a.grossProfitWei, cost);
    if a.roi.Finite? {
      PositiveRoiPays(a.grossProfitWei, cost, minRoi);
    } else {
      FreeOfCost(a.netProfitWei, minRoi);
    }
  }

  /** A profitable analysis balances exactly: no saturation is hidden in the net profit. */
  lemma ProfitAccounting(tx: ParsedTransaction, bump: real, slippageBps: U32, quotes: seq<DexQuote>, minRoi: real)
    requires Convertible(tx, bump, slippageBps, quotes) && minRoi > 0.0
    ensures var a := Analyze(tx, bump, slippageBps, quotes); a.IsProfitable(minRoi) ==> Balanced(a, minRoi)
  {
    if Analyze(tx, bump, slippageBps, quotes).IsProfitable(minRoi) {
      RecordBalances(Analyze(tx, bump, slippageBps, quotes), minRoi);
    }
  }

  /** Saturation cannot hide a loss: a saturated gas cost is never profitable. */
  lemma ProfitableCostIsExact(tx: ParsedTransaction, bump: real, slippageBps: U32, quotes: seq<DexQuote>, minRoi: real)
    requires Convertible(tx, bump, slippageBps, quotes)
    ensures var a := Analyze(tx, bump, slippageBps, quotes);
            a.IsProfitable(minRoi) ==> a.replacementGasCostWei == tx.gasLimit * NextBid(tx.EffectiveGasPrice(), bump)
  {
    var a := Analyze(tx, bump, slippageBps, quotes);
    SaturatingBounds(tx.gasLimit, NextBid(tx.EffectiveGasPrice(), bump));
    assert a.IsProfitable(minRoi) ==> a.replacementGasCostWei < a.grossProfitWei;
  }

  /** The gas cost estimate covers one wei per unit of gas exactly when there is no gas to pay or the gas has a price. */
  lemma EstimateCoversGasLimit(tx: ParsedTransaction, bump: real)
    requires tx.EffectiveGasPrice() < U128_SIZE && bump > 0.0
    ensures ReplacementGasCost(tx, bump) >= tx.gasLimit <==> tx.gasLimit == 0 || tx.EffectiveGasPrice() >= 1
  {
    hide NextBid;
    var price := NextBid(tx.EffectiveGasPrice(), bump);
    BumpRaises(tx.EffectiveGasPrice(), bump);
    SaturatingBounds(tx.gasLimit, price);
    if tx.EffectiveGasPrice() >= 1 {
      AtLeastOneEach(tx.gasLimit, price);
    } else {
      FreeStaysFree(bump);
      assert tx.gasLimit * 0 == 0;
    }
  }

  lemma AtLeastOneEach(x: nat, y: nat)
    requires y >= 1
    ensures x * y >= x
  {
    MulNonNegative(x, y - 1);
    assert x * y == x * (y - 1) + x;
  }

  lemma FreeStaysFree(bump: real)
    ensures NextBid(0, bump) == 0
  {
  }

  /** The bid is never below the price the estimate assumed, and equals it exactly when the bumped victim price is at
      least the network floor and the configured minimum. */
  lemma BidCoversEstimate(c: Calculator, tx: ParsedTransaction, network: NetworkState)
    requires tx.EffectiveGasPrice() < U128_SIZE
    requires SaturatingAdd256(network.baseFeePerGas, network.suggestedPriorityFee) < U128_SIZE
    requires c.CalculateReplacementGasPrice(tx.EffectiveGasPrice(), network).Bid?
    ensures var bid := c.CalculateReplacementGasPrice(tx.EffectiveGasPrice(), network).price;
            var assumed := NextBid(tx.EffectiveGasPrice(), c.replacementBump);
            && bid >= assumed
            && (bid == assumed <==>
                SaturatingAdd256(network.baseFeePerGas, network.suggestedPriorityFee) <= assumed
                && FloorToU128(c.minGasPrice * WEI_PER_GWEI) <= assumed)
  {
    BidIsLargestOfThree(c, tx.EffectiveGasPrice(), network);
  }
}
