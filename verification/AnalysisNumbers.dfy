/** The profitability analysis of src/analysis/profitability.rs in exact wei, for the quotes the detector infers. */
module AnalysisNumbers {
  import opened Units
  import opened Transactions
  import opened Profitability
  import opened Opportunities

  /** This fraction of an amount, rounded down. */
  function Share(amount: nat, num: nat, den: nat): nat
    requires den > 0
  {
    MulNonNegative(amount, num);
    FloorRatio(amount * num, den);
    amount * num / den
  }

  lemma FloorRatio(n: nat, d: nat)
    requires d > 0
    ensures n / d >= 0 && FloorToU128(n as real / d as real) == Min(n / d, U128_MAX)
  {
    var q, r := n / d, n % d;
    assert n == q * d + r;
    IntProduct(q, d);
    RealQuotient(n as real, d as real, q as real, r as real);
    FloorBetween(q, n as real / d as real);
  }

  lemma IntProduct(x: nat, y: nat)
    ensures (x * y) as real == x as real * y as real
  {
  }

  lemma RealQuotient(n: real, d: real, q: real, r: real)
    requires 0.0 <= r < d && n == q * d + r
    ensures q <= n / d < q + 1.0
  {
    var e := r / d;
    assert e * d == r;
    if e >= 1.0 {
      ScaleOrder(d, 1.0, e);
    }
    if e < 0.0 {
      StrictScale(d, e, 0.0);
    }
    assert (q + e) * d == n;
    Cancel(n / d, q + e, d);
  }

  lemma FloorBetween(q: nat, x: real)
    requires q as real <= x < q as real + 1.0
    ensures FloorToU128(x) == Min(q, U128_MAX)
  {
  }

  lemma SameFloor(x: real, y: real)
    requires x == y
    ensures FloorToU128(x) == FloorToU128(y)
  {
  }

  /** An ETH amount scaled by a ratio, back in wei. */
  lemma ScaledWei(eth: real, value: nat, num: nat, den: nat, scaled: real)
    requires eth * WEI_PER_ETH == value as real && den > 0 && scaled == eth * (num as real / den as real)
    ensures EthToWei(scaled) == Min(Share(value, num, den), U128_MAX)
  {
    hide FloorToU128;
    MulNonNegative(value, num);
    FloorRatio(value * num, den);
    ScaledReal(eth, value, num, den);
    SameFloor(scaled * WEI_PER_ETH, (value * num) as real / den as real);
  }

  lemma ScaledReal(eth: real, value: nat, num: nat, den: nat)
    requires eth * WEI_PER_ETH == value as real && den > 0
    ensures eth * (num as real / den as real) * WEI_PER_ETH == (value * num) as real / den as real
  {
    IntProduct(value, num);
    Regroup(eth, value as real, num as real, den as real);
  }

  lemma Regroup(eth: real, v: real, n: real, d: real)
    requires eth * WEI_PER_ETH == v && d > 0.0
    ensures eth * (n / d) * WEI_PER_ETH == v * n / d
  {
    var x := n / d;
    assert x * d == n;
    assert eth * x * WEI_PER_ETH == (eth * WEI_PER_ETH) * x;
    assert (v * x) * d == v * n;
    Cancel(v * x, v * n / d, d);
  }

  // The two captures of a swap

  lemma InferredSpread(tx: ParsedTransaction, baseLiquidityEth: real)
    requires InferDexQuotes(tx, baseLiquidityEth) != []
    ensures var quotes := InferDexQuotes(tx, baseLiquidityEth);
            |quotes| == 3 && AllPositive(Prices(quotes)) && PairsBest(Prices(quotes), 3) == 1.0 / 126.0
  {
    var prices := Prices(InferDexQuotes(tx, baseLiquidityEth));
    assert prices == [1.0, 1.008, 1.003];
    PairwiseIsExtreme(prices);
    assert prices[..2] == [1.0, 1.008] && prices[..2][..1] == [1.0];
    assert MaxOf(prices[..2]) == 1.008 && MinOf(prices[..2]) == 1.0;
    assert MaxOf(prices) == 1.008 && MinOf(prices) == 1.0;
  }

  lemma SpreadShare(eth: real, factor: real, share: real)
    requires (factor == 1.0 && share == 1.0 / 252.0) || (factor == 0.85 && share == 17.0 / 5040.0)
    ensures eth * (1.0 / 126.0) * factor * 0.5 == eth * share
  {
  }

  lemma SpreadWei(value: U256, protocol: DexProtocol)
    requires EthRepresentable(value)
    ensures SpreadProfit(value, 1.0 / 126.0, protocol)
            == Min(if protocol.UniswapV3? then Share(value, 17, 5040) else Share(value, 1, 252), U128_MAX)
  {
    hide WeiToEth, EthToWei, Share;
    WeiToEthExact(value);
    var eth, factor := WeiToEth(value), protocol.PriceImpactFactor();
    var num, den := if protocol.UniswapV3? then 17 else 1, if protocol.UniswapV3? then 5040 else 252;
    var share := num as real / den as real;
    SpreadShare(eth, factor, share);
    ScaledWei(eth, value, num, den, eth * (1.0 / 126.0) * factor * 0.5);
  }

  lemma CaptureShare(eth: real, b: real, factor: real, num: real, den: real)
    requires (factor == 1.0 && num == 7.0 && den == 200_000.0) || (factor == 0.85 && num == 119.0 && den == 4_000_000.0)
    ensures eth * (b / 10000.0) * (0.35 * factor) == eth * (b * num / den)
  {
    var rate := 0.35 * factor;
    assert rate / 10000.0 == num / den;
    assert (b / 10000.0) * rate == b * (rate / 10000.0);
    assert b * (num / den) == b * num / den;
  }

  lemma CaptureWei(eth: real, value: nat, bps: U32, protocol: DexProtocol, num: nat, den: nat)
    requires eth * WEI_PER_ETH == value as real
    requires if protocol.UniswapV3? then num == 119 && den == 4_000_000 else num == 7 && den == 200_000
    ensures 0 <= bps * num && EthToWei(CapturedEth(eth, bps, protocol)) == Min(Share(value, bps * num, den), U128_MAX)
  {
    hide EthToWei, Share;
    CaptureShare(eth, bps as real, protocol.PriceImpactFactor(), num as real, den as real);
    IntProduct(bps, num);
    MulNonNegative(bps, num);
    ScaledWei(eth, value, bps * num, den, CapturedEth(eth, bps, protocol));
  }

  lemma SandwichWei(value: U256, bps: U32, protocol: DexProtocol)
    requires EthRepresentable(value)
    ensures SandwichCapture(value, bps, protocol)
            == Min(if protocol.UniswapV3? then Share(value, bps * 119, 4_000_000) else Share(value, bps * 7, 200_000), U128_MAX)
  {
    hide WeiToEth, EthToWei, CapturedEth, Share;
    WeiToEthExact(value);
    if protocol.UniswapV3? {
      CaptureWei(WeiToEth(value), value, bps, protocol, 119, 4_000_000);
    } else {
      CaptureWei(WeiToEth(value), value, bps, protocol, 7, 200_000);
    }
  }

  /** The gross profit of an analysis, for every kind of interaction: half the inferred spread of 1/126 or the sandwich
      capture of a swap, whichever is larger; half a percent of a token transfer; two percent of any other value. */
  lemma GrossExactly(tx: ParsedTransaction, bump: real, bps: U32, baseLiquidityEth: real)
    requires Convertible(tx, bump, bps, InferDexQuotes(tx, baseLiquidityEth))
    ensures var a, v := Analyze(tx, bump, bps, InferDexQuotes(tx, baseLiquidityEth)), tx.value;
            match tx.interaction
            case Some(ContractCall(_, Some(SwapExactTokensForTokens))) =>
              && a.grossProfitWei == Min(Max(Share(v, 1, 252), Share(v, bps * 7, 200_000)), U128_MAX)
              && a.detectedProtocol == Some(UniswapV2)
            case Some(ContractCall(_, Some(ExactInput))) =>
              && a.grossProfitWei == Min(Max(Share(v, 17, 5040), Share(v, bps * 119, 4_000_000)), U128_MAX)
              && a.detectedProtocol == Some(UniswapV3)
            case Some(Erc20Transfer(_, _, amount)) =>
              a.grossProfitWei == Min(amount * 5, U256_MAX) / 1000 && a.detectedProtocol == None
            case Some(Erc20TransferFrom(_, _, _, amount)) =>
              a.grossProfitWei == Min(amount * 5, U256_MAX) / 1000 && a.detectedProtocol == None
            case _ => a.grossProfitWei == Min(v * 2, U256_MAX) / 100 && a.detectedProtocol == None
  {
    var quotes := InferDexQuotes(tx, baseLiquidityEth);
    if quotes != [] {
      InferredSpread(tx, baseLiquidityEth);
      var protocol := DetectProtocol(tx.interaction.value.signature.value);
      SpreadWei(tx.value, protocol);
      SandwichWei(tx.value, bps, protocol);
      SwapGross(tx, quotes, bps, protocol);
    } else {
      hide SlippageCost, ReplacementGasCost, RoiPercent;
    }
    hide Convertible, Share, SpreadProfit, SandwichCapture, PairsBest, SlippageCost, ReplacementGasCost, RoiPercent;
  }

  lemma SwapGross(tx: ParsedTransaction, quotes: seq<DexQuote>, bps: U32, protocol: DexProtocol)
    requires EthRepresentable(tx.value) && |quotes| == 3 && AllPositive(Prices(quotes)) && PairsBest(Prices(quotes), 3) == 1.0 / 126.0
    requires tx.interaction.Some? && tx.interaction.value.ContractCall? && tx.interaction.value.signature.Some?
    requires protocol == DetectProtocol(tx.interaction.value.signature.value)
    ensures EstimateGrossProfit(tx, quotes, bps)
            == (Max(SpreadProfit(tx.value, 1.0 / 126.0, protocol), SandwichCapture(tx.value, bps, protocol)), Some(protocol))
  {
    if tx.value == 0 {
      SpreadWei(0, protocol);
      SandwichWei(0, bps, protocol);
    }
    hide SpreadProfit, SandwichCapture, PairsBest;
  }

  // Costs

  /** The configured share of the swapped amount. */
  function Tolerance(amount: U256, bps: U32): U256 {
    MulNonNegative(amount, bps);
    Min(amount * bps, U256_MAX) / 10000
  }

  lemma EthOf(wei: U256)
    requires EthRepresentable(wei)
    ensures WeiToEth(wei) == wei as real / WEI_PER_ETH
  {
    WeiToEthExact(wei);
    Cancel(WeiToEth(wei), wei as real / WEI_PER_ETH, WEI_PER_ETH);
    hide WeiToEth;
  }

  lemma ScaleCommutes(eth: real, factor: real, wei: real)
    requires eth * WEI_PER_ETH == wei
    ensures ScaledEth(eth, factor) * WEI_PER_ETH == ScaledEth(wei, factor)
  {
    assert eth * factor * WEI_PER_ETH == (eth * WEI_PER_ETH) * factor;
  }

  lemma ScaledFloor(eth: real, factor: real, wei: real)
    requires eth * WEI_PER_ETH == wei
    ensures EthToWei(ScaledEth(eth, factor)) == FloorToU128(ScaledEth(wei, factor))
  {
    hide FloorToU128, ScaledEth;
    ScaleCommutes(eth, factor, wei);
  }

  lemma ImpactedWei(base: U256, impact: real)
    requires EthRepresentable(base)
    ensures Impacted(base, impact) == FloorToU128(ScaledEth(base as real, impact))
  {
    hide WeiToEth, EthToWei, FloorToU128, ScaledEth;
    WeiToEthExact(base);
    ScaledFloor(WeiToEth(base), impact, base as real);
  }

  lemma InferredLiquidity(tx: ParsedTransaction, liquidity: real)
    requires InferDexQuotes(tx, liquidity) != []
    ensures TotalLiquidity(InferDexQuotes(tx, liquidity)) == 2.9 * liquidity
  {
    var quotes := InferDexQuotes(tx, liquidity);
    var rest := quotes[1..];
    assert rest[1..] == [quotes[2]] && [quotes[2]][1..] == [];
    assert TotalLiquidity([quotes[2]]) == quotes[2].liquidityEth;
    assert TotalLiquidity(rest) == quotes[1].liquidityEth + quotes[2].liquidityEth;
  }

  /** The slippage cost: the tolerated share of the amount; for a swap, in proportion to the swap's part of the inferred
      liquidity of 2.9 times the configured base, at most all of it. */
  lemma SlippageExactly(tx: ParsedTransaction, bump: real, bps: U32, liquidity: real)
    requires Convertible(tx, bump, bps, InferDexQuotes(tx, liquidity))
    ensures var cost := Analyze(tx, bump, bps, InferDexQuotes(tx, liquidity)).slippageCostWei;
            match tx.interaction
            case Some(ContractCall(_, Some(_))) =>
              cost == FloorToU128(ScaledEth(Tolerance(tx.value, bps) as real, SwapImpact(tx.value, liquidity)))
            case Some(Erc20Transfer(_, _, amount)) => cost == Tolerance(amount, bps)
            case Some(Erc20TransferFrom(_, _, _, amount)) => cost == Tolerance(amount, bps)
            case _ => cost == Tolerance(tx.value, bps)
  {
    var quotes := InferDexQuotes(tx, liquidity);
    if quotes != [] {
      SwapSlippage(tx, bps, liquidity);
    } else {
      NoTolerance(bps);
    }
    BaseIsTolerance(tx, bps);
    hide Convertible, EstimateGrossProfit, Impacted, PriceImpact, Tolerance, ReplacementGasCost, RoiPercent, BaseSlippage, ScaledEth,
      FloorToU128, SwapImpact;
  }

  lemma BaseIsTolerance(tx: ParsedTransaction, bps: U32)
    ensures BaseSlippage(tx, bps) == Tolerance(SwapAmount(tx), bps)
  {
    SaturatingBounds(SwapAmount(tx), bps);
  }

  lemma NoTolerance(bps: U32)
    ensures Tolerance(0, bps) == 0
  {
  }

  /** The part of the inferred liquidity that a swap of this amount takes up, at most all of it. */
  function SwapImpact(amount: U256, liquidity: real): real {
    RealMin(amount as real / WEI_PER_ETH / RealMax(2.9 * liquidity, 1.0), 1.0)
  }

  lemma ImpactNumber(tx: ParsedTransaction, liquidity: real)
    requires InferDexQuotes(tx, liquidity) != [] && EthRepresentable(tx.value)
    ensures PriceImpact(WeiToEth(tx.value), InferDexQuotes(tx, liquidity)) == SwapImpact(tx.value, liquidity)
  {
    hide WeiToEth, TotalLiquidity;
    InferredLiquidity(tx, liquidity);
    EthOf(tx.value);
  }

  lemma SwapSlippage(tx: ParsedTransaction, bps: U32, liquidity: real)
    requires var quotes := InferDexQuotes(tx, liquidity);
             quotes != [] && EthRepresentable(SwapAmount(tx)) && EthRepresentable(BaseSlippage(tx, bps))
    ensures SlippageCost(tx, InferDexQuotes(tx, liquidity), bps)
            == FloorToU128(ScaledEth(Tolerance(tx.value, bps) as real, SwapImpact(tx.value, liquidity)))
  {
    hide WeiToEth, BaseSlippage, Tolerance, Impacted, FloorToU128, ScaledEth, SwapImpact, PriceImpact;
    BaseIsTolerance(tx, bps);
    ImpactNumber(tx, liquidity);
    var impact := SwapImpact(tx.value, liquidity);
    ImpactedWei(BaseSlippage(tx, bps), impact);
    if tx.value == 0 {
      NoTolerance(bps);
      ZeroFloor(impact);
    }
  }

  lemma ZeroFloor(x: real)
    ensures FloorToU128(ScaledEth(0.0, x)) == 0
  {
  }

  /** The gas costs and the net profit. */
  lemma CostsExactly(tx: ParsedTransaction, bump: real, bps: U32, quotes: seq<DexQuote>)
    requires Convertible(tx, bump, bps, quotes)
    ensures var a, price := Analyze(tx, bump, bps, quotes), tx.EffectiveGasPrice();
            var bumped := FloorToU128(price as real * (1.0 + bump / 100.0));
            && a.gasCostWei == Min(tx.gasLimit * price, U256_MAX)
            && a.replacementGasCostWei == Min(tx.gasLimit * bumped, U256_MAX)
            && a.netProfitWei == Max(a.grossProfitWei - Min(a.replacementGasCostWei + a.slippageCostWei, U256_MAX), 0)
  {
    var price := tx.EffectiveGasPrice();
    SaturatingBounds(tx.gasLimit, price);
    SaturatingBounds(tx.gasLimit, NextBid(price, bump));
    hide Convertible, EstimateGrossProfit, SlippageCost, RoiPercent, SaturatingMul256, FloorToU128;
  }

  // The decision

  lemma AboveEpsilon(wei: U256)
    requires EthRepresentable(wei)
    ensures WeiToEth(wei) > EPSILON <==> wei >= 223
  {
    EthOf(wei);
    hide WeiToEth;
    var x := wei as real;
    if wei >= 223 {
      assert x / WEI_PER_ETH >= 223.0 / WEI_PER_ETH;
    } else {
      assert x / WEI_PER_ETH <= 222.0 / WEI_PER_ETH;
    }
  }

  /** A transaction is profitable exactly when it grosses more than it costs and, unless it costs nothing, the cost is at
      least 223 wei (the float epsilon in ETH) and the net profit is the required percentage of it. */
  lemma ProfitableExactly(tx: ParsedTransaction, bump: real, bps: U32, quotes: seq<DexQuote>, minRoi: real)
    requires Convertible(tx, bump, bps, quotes) && minRoi > 0.0
    ensures var a := Analyze(tx, bump, bps, quotes);
            var cost := a.replacementGasCostWei + a.slippageCostWei;
            a.IsProfitable(minRoi)
            <==> a.grossProfitWei > cost
                 && (cost == 0 || (cost >= 223 && 100.0 * (a.grossProfitWei - cost) as real >= minRoi * cost as real))
  {
    hide Analyze, Convertible;
    AnalysisRecord(tx, bump, bps, quotes);
    RecordProfitable(Analyze(tx, bump, bps, quotes), minRoi);
  }

  /** The analysis is a consistent record of amounts that convert. */
  predicate Consistent(a: ProfitabilityAnalysis) {
    var total := SaturatingAdd256(a.replacementGasCostWei, a.slippageCostWei);
    && EthRepresentable(a.grossProfitWei) && EthRepresentable(total)
    && a.netProfitWei == SaturatingSub256(a.grossProfitWei, total)
    && a.roi == RoiPercent(a.grossProfitWei, total)
  }

  lemma AnalysisRecord(tx: ParsedTransaction, bump: real, bps: U32, quotes: seq<DexQuote>)
    requires Convertible(tx, bump, bps, quotes)
    ensures Consistent(Analyze(tx, bump, bps, quotes))
  {
    hide EstimateGrossProfit, SlippageCost, ReplacementGasCost, RoiPercent, EthRepresentable;
  }

  lemma RecordProfitable(a: ProfitabilityAnalysis, minRoi: real)
    requires Consistent(a)
    requires minRoi > 0.0
    ensures var cost := a.replacementGasCostWei + a.slippageCostWei;
            a.IsProfitable(minRoi)
            <==> a.grossProfitWei > cost
                 && (cost == 0 || (cost >= 223 && 100.0 * (a.grossProfitWei - cost) as real >= minRoi * cost as real))
  {
    hide RoiPercent;
    var cost := a.replacementGasCostWei + a.slippageCostWei;
    if a.grossProfitWei > cost {
      InfiniteRoi(a.grossProfitWei, cost);
      if cost > 0 {
        AboveEpsilon(cost);
        if cost >= 223 {
          RoiInWei(a.grossProfitWei, cost, minRoi);
        } else {
          TinyRoi(a.grossProfitWei, cost);
        }
      }
    }
  }

  lemma TinyRoi(gross: U256, cost: U256)
    requires EthRepresentable(gross) && EthRepresentable(cost) && cost > 0 && WeiToEth(cost) <= EPSILON
    ensures RoiPercent(gross, cost) == Finite(0.0)
  {
  }

  /** A call of one of the two recognised swap methods. */
  predicate IsSwap(tx: ParsedTransaction) {
    tx.interaction.Some? && tx.interaction.value.ContractCall? && tx.interaction.value.signature.Some?
  }

  /** Kind and score of every opportunity the detector returns: swaps are arbitrage and weigh 1.2, everything else is a gas
      replacement and weighs 0.8; the score is the weighted return in percent, discounted by the risk. */
  lemma ScoreExactly(d: Criteria, opp: ScoredOpportunity)
    requires Evaluated(d, opp) && d.minProfitThreshold > 0.0
    ensures opp.opportunityType == if IsSwap(opp.pending) then Arbitrage else GasReplacement
    ensures var a := opp.profitability;
            var cost, weight := a.replacementGasCostWei + a.slippageCostWei, if IsSwap(opp.pending) then 1.2 else 0.8;
            if cost == 0 then opp.priorityScore == Unbounded
            else ScoredBy(opp.priorityScore, cost as real, 100.0 * (a.grossProfitWei - cost) as real, opp.riskScore, weight)
  {
    hide Analyze, Convertible, HasPriceDiscrepancy, PriorityScore, ScoredBy, Consistent, ProfitabilityAnalysis.IsProfitable;
    var quotes := InferDexQuotes(opp.pending, d.baseLiquidityEth);
    AnalysisRecord(opp.pending, d.replacementBump, d.slippageBps, quotes);
    NeverSandwich(opp.pending, d.baseLiquidityEth);
    ScoreOfRecord(opp, d.minProfitThreshold);
  }

  lemma ScoreOfRecord(opp: ScoredOpportunity, minRoi: real)
    requires Consistent(opp.profitability) && opp.profitability.IsProfitable(minRoi) && minRoi > 0.0
    requires opp.priorityScore == PriorityScore(opp.profitability.roi, opp.riskScore, opp.opportunityType)
    ensures var a := opp.profitability;
            var cost := a.replacementGasCostWei + a.slippageCostWei;
            if cost == 0 then opp.priorityScore == Unbounded
            else ScoredBy(opp.priorityScore, cost as real, 100.0 * (a.grossProfitWei - cost) as real, opp.riskScore,
                          opp.opportunityType.Weight())
  {
    hide RoiPercent, PriorityScore, ScoredBy, Consistent;
    var a := opp.profitability;
    var cost := a.replacementGasCostWei + a.slippageCostWei;
    ProfitableCost(a, minRoi);
    if cost > 0 {
      PercentWei(a.grossProfitWei, cost);
      var percent := RoiPercent(a.grossProfitWei, cost).percent;
      PercentScore(percent, opp.riskScore, opp.opportunityType, cost as real, 100.0 * (a.grossProfitWei - cost) as real);
    } else {
      UnboundedScore(opp.riskScore, opp.opportunityType);
    }
  }

  /** A score that is this net percentage of the cost, discounted and weighted. */
  predicate ScoredBy(score: Score, cost: real, net: real, riskScore: nat, weight: real) {
    score.Points? && score.value * cost == net * (1.0 - riskScore as real / 100.0) * weight
  }

  lemma PercentScore(percent: real, riskScore: nat, kind: OpportunityType, cost: real, net: real)
    requires percent * cost == net
    ensures ScoredBy(PriorityScore(Finite(percent), riskScore, kind), cost, net, riskScore, kind.Weight())
  {
    hide OpportunityType.Weight;
    Weighted(percent, cost, net, 1.0 - riskScore as real / 100.0, kind.Weight());
  }

  lemma UnboundedScore(riskScore: nat, kind: OpportunityType)
    ensures PriorityScore(Infinite, riskScore, kind) == Unbounded
  {
  }

  lemma ProfitableCost(a: ProfitabilityAnalysis, minRoi: real)
    requires Consistent(a) && a.IsProfitable(minRoi) && minRoi > 0.0
    ensures var cost := a.replacementGasCostWei + a.slippageCostWei;
            && a.grossProfitWei > cost && (cost == 0 || cost >= 223) && (cost == 0 ==> a.roi == Infinite)
            && EthRepresentable(a.grossProfitWei) && EthRepresentable(cost) && a.roi == RoiPercent(a.grossProfitWei, cost)
  {
    RecordProfitable(a, minRoi);
    InfiniteRoi(a.grossProfitWei, a.replacementGasCostWei + a.slippageCostWei);
    hide RoiPercent;
  }

  lemma PercentWei(gross: U256, cost: U256)
    requires EthRepresentable(gross) && EthRepresentable(cost) && cost >= 223
    ensures RoiPercent(gross, cost).Finite? && RoiPercent(gross, cost).percent * cost as real == 100.0 * (gross - cost) as real
  {
    AboveEpsilon(cost);
    WeiToEthExact(gross);
    WeiToEthExact(cost);
    hide WeiToEth;
    PercentOf(WeiToEth(gross), WeiToEth(cost), gross as real, cost as real);
  }

  lemma PercentOf(g: real, c: real, gross: real, cost: real)
    requires c > 0.0 && g * WEI_PER_ETH == gross && c * WEI_PER_ETH == cost
    ensures (g - c) / c * 100.0 * cost == 100.0 * (gross - cost)
  {
    var q := (g - c) / c;
    assert q * c == g - c;
    assert q * 100.0 * cost == 100.0 * (q * c) * WEI_PER_ETH;
  }

  lemma Weighted(percent: real, cost: real, net: real, discount: real, weight: real)
    requires percent * cost == net
    ensures percent * discount * weight * cost == net * discount * weight
  {
    assert percent * discount * weight * cost == (percent * cost) * discount * weight;
  }
}
