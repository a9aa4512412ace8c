/** src/analysis/opportunity.rs: classification, scoring and the bounded priority queue. */
module Opportunities {
  import opened Units
  import opened Transactions
  import opened Profitability

  datatype OpportunityType = Arbitrage | Sandwich | GasReplacement {
    function Weight(): real {
      match this case Arbitrage => 1.2 case Sandwich => 1.0 case GasReplacement => 0.8
    }
  }

  /** A priority score; an infinite ROI gives an infinite score. */
  datatype Score = Points(value: real) | Unbounded {
    predicate AtMost(other: Score) {
      other.Unbounded? || (Points? && value <= other.value)
    }
  }

  datatype ScoredOpportunity = ScoredOpportunity(
    pending: ParsedTransaction, profitability: ProfitabilityAnalysis, riskScore: nat,
    opportunityType: OpportunityType, priorityScore: Score)

  // Quotes and classification

  function InferDexQuotes(tx: ParsedTransaction, baseLiquidityEth: real): seq<DexQuote> {
    match tx.interaction
    case Some(ContractCall(_, Some(_))) =>
      [ DexQuote(UniswapV2, 1.0, baseLiquidityEth),
        DexQuote(Sushiswap, 1.008, baseLiquidityEth * 0.7),
        DexQuote(UniswapV3, 1.003, baseLiquidityEth * 1.2) ]
    case _ => []
  }

  function HasPriceDiscrepancy(quotes: seq<DexQuote>): bool
    requires AllPositive(Prices(quotes))
  {
    if |quotes| < 2 then false
    else if MaxOf(Prices(quotes)) <= EPSILON then false
    else Spread(Prices(quotes)) > 0.003
  }

  function ClassifyOpportunity(tx: ParsedTransaction, quotes: seq<DexQuote>): OpportunityType
    requires AllPositive(Prices(quotes))
  {
    match tx.interaction
    case Some(ContractCall(_, Some(_))) =>
      if |quotes| >= 2 && HasPriceDiscrepancy(quotes) then Arbitrage else Sandwich
    case _ => GasReplacement
  }

  /** The two-fold check agrees with the pairwise loop: a discrepancy is reported exactly when some pair of quotes
      differs by more than 0.3% and the largest price is above the float epsilon. */
  lemma DiscrepancyIsPairwise(quotes: seq<DexQuote>)
    requires |quotes| >= 2 && AllPositive(Prices(quotes))
    ensures HasPriceDiscrepancy(quotes)
            <==> PairsBest(Prices(quotes), |quotes|) > 0.003 && MaxOf(Prices(quotes)) > EPSILON
  {
    PairwiseIsExtreme(Prices(quotes));
  }

  lemma ExtremesOfTwo(low: real, high: real)
    requires low <= high
    ensures MaxOf([low, high]) == high && MinOf([low, high]) == low
  {
    assert [low, high][..1] == [low];
    assert MaxOf([low]) == low && MinOf([low]) == low;
  }

  /** Prices below the epsilon are never reported, however far apart they are. */
  lemma TinyPricesAreMissed(quotes: seq<DexQuote>)
    requires |quotes| == 2 && quotes[0].price == EPSILON / 2.0 && quotes[1].price == EPSILON
    ensures AllPositive(Prices(quotes)) && PairsBest(Prices(quotes), 2) > 0.003 && !HasPriceDiscrepancy(quotes)
  {
    var prices := Prices(quotes);
    assert prices == [EPSILON / 2.0, EPSILON];
    ExtremesOfTwo(EPSILON / 2.0, EPSILON);
    PairwiseIsExtreme(prices);
  }

  /** With the inferred quotes a recognised swap is always an arbitrage: no evaluated opportunity is a sandwich. */
  lemma NeverSandwich(tx: ParsedTransaction, baseLiquidityEth: real)
    ensures AllPositive(Prices(InferDexQuotes(tx, baseLiquidityEth)))
    ensures ClassifyOpportunity(tx, InferDexQuotes(tx, baseLiquidityEth)) != Sandwich
  {
    var prices := Prices(InferDexQuotes(tx, baseLiquidityEth));
    if prices != [] {
      assert prices == [1.0, 1.008, 1.003];
      assert prices[..2] == [1.0, 1.008] && prices[..2][..1] == [1.0];
      assert MaxOf(prices[..2]) == 1.008 && MinOf(prices[..2]) == 1.0;
      assert MaxOf(prices) == 1.008 && MinOf(prices) == 1.0;
    }
  }

  // The bounded queue, on the multiset of its scores

  ghost predicate IsTop(q: multiset<Score>, top: Score) {
    top in q && forall s <- q :: s.AtMost(top)
  }

  lemma {:induction false} TopExists(q: multiset<Score>)
    requires |q| > 0
    ensures exists top :: IsTop(q, top)
    decreases |q|
  {
    var s :| s in q;
    var rest := q - multiset{s};
    assert forall x <- q :: x == s || x in rest;
    if |rest| > 0 {
      TopExists(rest);
      var t :| IsTop(rest, t);
      assert IsTop(q, if t.AtMost(s) then s else t);
    } else {
      assert IsTop(q, s);
    }
  }

  /** The highest queued score. */
  ghost function Top(q: multiset<Score>): Score
    requires |q| > 0
  {
    TopExists(q);
    var top :| IsTop(q, top);
    top
  }

  lemma TopUnique(q: multiset<Score>, top: Score)
    requires IsTop(q, top)
    ensures |q| > 0 && Top(q) == top
  {
  }

  /** What enqueue does to the scores: below capacity it inserts; otherwise it compares with the HIGHEST entry. */
  ghost function Offer(q: multiset<Score>, capacity: nat, s: Score): multiset<Score> {
    if |q| >= capacity && |q| > 0
    then if s.AtMost(Top(q)) then q else q - multiset{Top(q)} + multiset{s}
    else q + multiset{s}
  }

  ghost function OfferAll(q: multiset<Score>, capacity: nat, offers: seq<Score>): multiset<Score> {
    if offers == [] then q
    else Offer(OfferAll(q, capacity, offers[..|offers| - 1]), capacity, offers[|offers| - 1])
  }

  /** The closed form: the first offers fill the queue; after that only the maximum is ever replaced, and it is the
      maximum of everything offered. */
  ghost function ClosedForm(q: multiset<Score>, capacity: nat, offers: seq<Score>): multiset<Score>
    requires |q| <= Max(1, capacity)
  {
    var kept := FirstKept(q, capacity, offers);
    if |q| + |offers| <= Max(1, capacity) then kept
    else kept - multiset{Top(kept)} + multiset{Top(q + multiset(offers))}
  }

  /** The queue and the offers that still find room in it. */
  ghost function FirstKept(q: multiset<Score>, capacity: nat, offers: seq<Score>): (kept: multiset<Score>)
    requires |q| <= Max(1, capacity)
    ensures |kept| == Min(Max(1, capacity), |q| + |offers|)
  {
    q + multiset(offers[..Min(Max(1, capacity) - |q|, |offers|)])
  }

  lemma TopOfExtended(q: multiset<Score>, s: Score)
    requires |q| > 0
    ensures Top(q + multiset{s}) == if s.AtMost(Top(q)) then Top(q) else s
  {
    TopUnique(q + multiset{s}, if s.AtMost(Top(q)) then Top(q) else s);
  }

  lemma TopOfReplaced(q: multiset<Score>, t: Score)
    requires |q| > 0 && Top(q).AtMost(t)
    ensures var r := q - multiset{Top(q)} + multiset{t};
            |r| == |q| && Top(r) == t
  {
    var r := q - multiset{Top(q)} + multiset{t};
    assert forall x <- r :: x == t || x in q;
    TopUnique(r, t);
  }

  lemma TopOfSuperset(q: multiset<Score>, p: multiset<Score>)
    requires |q| > 0 && q <= p
    ensures |p| > 0 && Top(q).AtMost(Top(p))
  {
    assert Top(q) in p;
    assert |p| > 0;
  }

  lemma {:induction false} QueueClosedForm(q: multiset<Score>, capacity: nat, offers: seq<Score>)
    requires |q| <= Max(1, capacity)
    ensures OfferAll(q, capacity, offers) == ClosedForm(q, capacity, offers)
    ensures |OfferAll(q, capacity, offers)| == Min(Max(1, capacity), |q| + |offers|)
  {
    hide Offer, ClosedForm;
    if offers == [] {
      NoOffers(q, capacity);
    } else {
      var front, s := offers[..|offers| - 1], offers[|offers| - 1];
      QueueClosedForm(q, capacity, front);
      assert offers == front + [s];
      if |q| + |front| < Max(1, capacity) {
        RoomStep(q, capacity, front, s);
      } else {
        OverflowStep(q, capacity, front, s);
      }
    }
  }

  lemma NoOffers(q: multiset<Score>, capacity: nat)
    requires |q| <= Max(1, capacity)
    ensures ClosedForm(q, capacity, []) == q
  {
  }

  /** One more offer to a queue with room left. */
  lemma RoomStep(q: multiset<Score>, capacity: nat, front: seq<Score>, s: Score)
    requires |q| + |front| < Max(1, capacity)
    ensures Offer(ClosedForm(q, capacity, front), capacity, s) == ClosedForm(q, capacity, front + [s])
    ensures |Offer(ClosedForm(q, capacity, front), capacity, s)| == |q| + |front| + 1
  {
    var offers := front + [s];
    assert front[..|front|] == front && offers[..|offers|] == offers;
    assert q + multiset(offers) == q + multiset(front) + multiset{s};
  }

  /** One more offer to a queue the earlier offers have filled. */
  lemma OverflowStep(q: multiset<Score>, capacity: nat, front: seq<Score>, s: Score)
    requires |q| <= Max(1, capacity) <= |q| + |front|
    ensures Offer(ClosedForm(q, capacity, front), capacity, s) == ClosedForm(q, capacity, front + [s])
    ensures |Offer(ClosedForm(q, capacity, front), capacity, s)| == Max(1, capacity)
  {
    var kept, all := FirstKept(q, capacity, front), q + multiset(front);
    var room := Max(1, capacity) - |q|;
    assert (front + [s])[..room] == front[..room];
    assert q + multiset(front + [s]) == all + multiset{s};
    KeptBelowAll(q, capacity, front);
    ReplaceMaximum(kept, all, capacity, s);
  }

  lemma KeptBelowAll(q: multiset<Score>, capacity: nat, front: seq<Score>)
    requires |q| <= Max(1, capacity) <= |q| + |front|
    ensures var kept, all := FirstKept(q, capacity, front), q + multiset(front);
            && |all| > 0 && Top(kept).AtMost(Top(all))
            && ClosedForm(q, capacity, front) == kept - multiset{Top(kept)} + multiset{Top(all)}
  {
    var kept, all := FirstKept(q, capacity, front), q + multiset(front);
    var room := Max(1, capacity) - |q|;
    assert front == front[..room] + front[room..];
    TopOfSuperset(kept, all);
    if room == |front| {
      assert front[..room] == front;
      assert kept == kept - multiset{Top(kept)} + multiset{Top(all)};
    }
  }

  lemma ReplaceMaximum(kept: multiset<Score>, all: multiset<Score>, capacity: nat, s: Score)
    requires |kept| >= capacity && |kept| > 0 && |all| > 0 && Top(kept).AtMost(Top(all))
    ensures var before := kept - multiset{Top(kept)} + multiset{Top(all)};
            && Offer(before, capacity, s) == kept - multiset{Top(kept)} + multiset{Top(all + multiset{s})}
            && |Offer(before, capacity, s)| == |kept|
  {
    TopOfReplaced(kept, Top(all));
    TopOfExtended(all, s);
    var rest := kept - multiset{Top(kept)};
    assert rest + multiset{Top(all)} - multiset{Top(all)} == rest;
  }

  /** Popping repeatedly, with no offers in between. */
  ghost function Pops(q: multiset<Score>): seq<Score>
    decreases |q|
  {
    if |q| == 0 then []
    else
      assert Top(q) in q;
      [Top(q)] + Pops(q - multiset{Top(q)})
  }

  /** Pops come out in non-increasing order and are exactly the queued scores. */
  lemma {:induction false} PopsDescend(q: multiset<Score>)
    ensures multiset(Pops(q)) == q
    ensures forall i, j :: 0 <= i < j < |Pops(q)| ==> Pops(q)[j].AtMost(Pops(q)[i])
    decreases |q|
  {
    if |q| > 0 {
      var rest := q - multiset{Top(q)};
      PopsDescend(rest);
      PrependTop(q, Top(q), Pops(rest));
    }
  }

  lemma PrependTop(q: multiset<Score>, top: Score, tail: seq<Score>)
    requires IsTop(q, top) && multiset(tail) == q - multiset{top}
    requires forall i, j :: 0 <= i < j < |tail| ==> tail[j].AtMost(tail[i])
    ensures multiset([top] + tail) == q
    ensures forall i, j :: 0 <= i < j < |[top] + tail| ==> ([top] + tail)[j].AtMost(([top] + tail)[i])
  {
    forall j | 0 <= j < |tail| ensures tail[j].AtMost(top) {
      assert tail[j] in multiset(tail);
    }
  }

  // The detector

  function Scores(heap: seq<ScoredOpportunity>): (scores: seq<Score>)
    ensures |scores| == |heap|
  {
    seq(|heap|, i requires 0 <= i < |heap| => heap[i].priorityScore)
  }

  /** risk_adjusted_roi * weight */
  function PriorityScore(roi: Roi, riskScore: nat, kind: OpportunityType): Score {
    match roi
    case Infinite => Unbounded
    case Finite(percent) => Points(percent * (1.0 - riskScore as real / 100.0) * kind.Weight())
  }

  /** The detector's settings. */
  datatype Criteria = Criteria(
    minProfitThreshold: real, replacementBump: real, maxRiskScore: nat, slippageBps: U32, baseLiquidityEth: real)

  /** This is an opportunity the detector would return: its own transaction, analysed and scored under these settings. */
  predicate Evaluated(d: Criteria, opp: ScoredOpportunity) {
    var quotes := InferDexQuotes(opp.pending, d.baseLiquidityEth);
    && Convertible(opp.pending, d.replacementBump, d.slippageBps, quotes)
    && opp.profitability == Analyze(opp.pending, d.replacementBump, d.slippageBps, quotes)
    && opp.profitability.IsProfitable(d.minProfitThreshold) && opp.riskScore <= d.maxRiskScore
    && opp.opportunityType == ClassifyOpportunity(opp.pending, quotes)
    && opp.priorityScore == PriorityScore(opp.profitability.roi, opp.riskScore, opp.opportunityType)
  }

  /** The books of every opportunity the detector returns balance. */
  lemma EvaluatedBalances(d: Criteria, opp: ScoredOpportunity)
    requires Evaluated(d, opp) && d.minProfitThreshold > 0.0
    ensures Balanced(opp.profitability, d.minProfitThreshold)
  {
    hide Analyze, Balanced, Convertible;
    ProfitAccounting(opp.pending, d.replacementBump, d.slippageBps, InferDexQuotes(opp.pending, d.baseLiquidityEth), d.minProfitThreshold);
  }

  /** Its gas cost estimate covers the gas limit, if the transaction pays for its gas. */
  lemma EvaluatedCovers(d: Criteria, opp: ScoredOpportunity)
    requires Evaluated(d, opp) && d.replacementBump > 0.0 && opp.pending.EffectiveGasPrice() >= 1
    ensures opp.pending.gasLimit <= opp.profitability.replacementGasCostWei
  {
    hide ReplacementGasCost;
    EstimateCoversGasLimit(opp.pending, d.replacementBump);
  }

  class OpportunityDetector {
    const minProfitThreshold: real
    const replacementBump: real
    const maxRiskScore: nat
    const slippageBps: U32
    const baseLiquidityEth: real
    const maxQueueSize: nat
    /** A binary heap in unspecified order. */
    var priorityQueue: seq<ScoredOpportunity>

    ghost function Queued(): multiset<Score>
      reads this
    {
      multiset(Scores(priorityQueue))
    }

    function Settings(): Criteria {
      Criteria(minProfitThreshold, replacementBump, maxRiskScore, slippageBps, baseLiquidityEth)
    }

    ghost predicate Valid()
      reads this
    {
      |priorityQueue| <= Max(1, maxQueueSize)
    }

    constructor (minProfitThreshold: real, replacementBump: real, maxRiskScore: nat, slippageBps: U32,
                 baseLiquidityEth: real, maxQueueSize: nat)
      ensures Valid() && Queued() == multiset{}
      ensures this.maxQueueSize == maxQueueSize && this.minProfitThreshold == minProfitThreshold
      ensures this.replacementBump == replacementBump && this.maxRiskScore == maxRiskScore
      ensures this.slippageBps == slippageBps && this.baseLiquidityEth == baseLiquidityEth
    {
      this.minProfitThreshold := minProfitThreshold;
      this.replacementBump := replacementBump;
      this.maxRiskScore := maxRiskScore;
      this.slippageBps := slippageBps;
      this.baseLiquidityEth := baseLiquidityEth;
      this.maxQueueSize := maxQueueSize;
      priorityQueue := [];
    }

    method Peek() returns (at: nat)
      requires priorityQueue != []
      ensures at < |priorityQueue| && |Queued()| > 0 && priorityQueue[at].priorityScore == Top(Queued())
    {
      at := 0;
      for i := 1 to |priorityQueue|
        invariant at < |priorityQueue|
        invariant forall j :: 0 <= j < i ==> priorityQueue[j].priorityScore.AtMost(priorityQueue[at].priorityScore)
      {
        if priorityQueue[at].priorityScore.AtMost(priorityQueue[i].priorityScore) {
          at := i;
        }
      }
      ghost var scores := Scores(priorityQueue);
      assert scores[at] in scores;
      TopUnique(Queued(), scores[at]);
    }

    /** BinaryHeap::pop */
    method NextOpportunity() returns (next: Option<ScoredOpportunity>)
      requires Valid()
      modifies this`priorityQueue
      ensures Valid()
      ensures next.None? <==> old(priorityQueue) == []
      ensures next.None? ==> priorityQueue == []
      ensures next.Some? ==>
                && |old(Queued())| > 0 && next.value.priorityScore == Top(old(Queued()))
                && multiset(priorityQueue) == multiset(old(priorityQueue)) - multiset{next.value}
                && Queued() == old(Queued()) - multiset{Top(old(Queued()))}
    {
      if priorityQueue == [] {
        return None;
      }
      var at := Peek();
      next := Some(priorityQueue[at]);
      RemoveAt(priorityQueue, at);
      priorityQueue := priorityQueue[..at] + priorityQueue[at + 1..];
    }

    method Enqueue(opportunity: ScoredOpportunity)
      requires Valid()
      modifies this`priorityQueue
      ensures Valid()
      ensures Queued() == Offer(old(Queued()), maxQueueSize, opportunity.priorityScore)
      ensures multiset(priorityQueue) <= multiset(old(priorityQueue)) + multiset{opportunity}
    {
      if |priorityQueue| >= maxQueueSize {
        if priorityQueue != [] {
          var highest := Peek();
          if opportunity.priorityScore.AtMost(priorityQueue[highest].priorityScore) {
            return;
          }
        }
        var dropped := NextOpportunity();
      }
      Append(priorityQueue, opportunity);
      priorityQueue := priorityQueue + [opportunity];
    }

    /** A returned opportunity is profitable and acceptably risky, and it is what was offered to the queue. The risk
        score is an input. */
    method Evaluate(pending: ParsedTransaction, riskScore: nat) returns (found: Option<ScoredOpportunity>)
      requires Valid() && riskScore <= 100
      requires Convertible(pending, replacementBump, slippageBps, InferDexQuotes(pending, baseLiquidityEth))
      modifies this`priorityQueue
      ensures Valid()
      ensures var quotes := InferDexQuotes(pending, baseLiquidityEth);
              var a := Analyze(pending, replacementBump, slippageBps, quotes);
              && (found.Some? <==> a.IsProfitable(minProfitThreshold) && riskScore <= maxRiskScore)
              && (found.Some? ==> found.value == ScoredOpportunity(pending, a, riskScore,
                    ClassifyOpportunity(pending, quotes), PriorityScore(a.roi, riskScore, ClassifyOpportunity(pending, quotes))))
      ensures found.Some? ==> Evaluated(Settings(), found.value) && found.value.pending == pending
      ensures found.None? ==> priorityQueue == old(priorityQueue)
      ensures found.Some? ==> Queued() == Offer(old(Queued()), maxQueueSize, found.value.priorityScore)
    {
      var quotes := InferDexQuotes(pending, baseLiquidityEth);
      var kind := ClassifyOpportunity(pending, quotes);
      var analysis := Analyze(pending, replacementBump, slippageBps, quotes);
      if !analysis.IsProfitable(minProfitThreshold) {
        return None;
      }
      if riskScore > maxRiskScore {
        return None;
      }
      var scored := ScoredOpportunity(pending, analysis, riskScore, kind, PriorityScore(analysis.roi, riskScore, kind));
      Enqueue(scored);
      found := Some(scored);
    }
  }

  lemma Append(heap: seq<ScoredOpportunity>, last: ScoredOpportunity)
    ensures multiset(heap + [last]) == multiset(heap) + multiset{last}
    ensures multiset(Scores(heap + [last])) == multiset(Scores(heap)) + multiset{last.priorityScore}
  {
    assert Scores(heap + [last]) == Scores(heap) + [last.priorityScore];
  }

  lemma RemoveAt(heap: seq<ScoredOpportunity>, at: nat)
    requires at < |heap|
    ensures var rest := heap[..at] + heap[at + 1..];
            && multiset(rest) == multiset(heap) - multiset{heap[at]}
            && multiset(Scores(rest)) == multiset(Scores(heap)) - multiset{heap[at].priorityScore}
  {
    var rest := heap[..at] + heap[at + 1..];
    assert heap == heap[..at] + [heap[at]] + heap[at + 1..];
    var scores := Scores(heap);
    assert Scores(rest) == scores[..at] + scores[at + 1..];
    assert scores == scores[..at] + [scores[at]] + scores[at + 1..];
  }
}
