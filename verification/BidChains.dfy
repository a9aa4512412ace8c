/** The broadcasts of one opportunity: one nonce, one payload, a chain of bumped prices under the caps. */
module BidChains {
  import opened Units
  import opened GasAuction
  import opened Environment
  import opened Opportunities
  import opened Replacement

  /** The transactions the node accepted, in order. */
  function Bids(log: seq<Event>): seq<TypedTransaction> {
    if log == [] then []
    else
      var last := log[|log| - 1];
      Bids(log[..|log| - 1]) + if last.Accepted? then [last.tx] else []
  }

  /** The history since position `from`. */
  predicate Extends(log: seq<Event>, base: seq<Event>) {
    |base| <= |log| && log[..|base|] == base
  }

  function BidsSince(log: seq<Event>, base: seq<Event>): seq<TypedTransaction>
    requires Extends(log, base)
  {
    Bids(log[|base|..])
  }

  lemma Appended(log: seq<Event>, base: seq<Event>, e: Event)
    requires Extends(log, base)
    ensures Extends(log + [e], base)
    ensures BidsSince(log + [e], base) == BidsSince(log, base) + if e.Accepted? then [e.tx] else []
  {
    assert (log + [e])[|base|..] == log[|base|..] + [e];
    assert (log[|base|..] + [e])[..|log| - |base|] == log[|base|..];
  }

  /** Bid i is the same transaction at the i-times bumped price, within both caps; there are at most four. */
  predicate BidChain(c: Settings, opp: ScoredOpportunity, nonce: U64, first: U128, bids: seq<TypedTransaction>) {
    && |bids| <= MAX_REPLACEMENT_ATTEMPTS + 1
    && forall i :: 0 <= i < |bids| ==> IsBid(c, opp, nonce, BidAfter(first, c.calculator.replacementBump, i), bids[i])
  }

  predicate IsBid(c: Settings, opp: ScoredOpportunity, nonce: U64, price: U128, tx: TypedTransaction) {
    tx == Transaction(c, opp, nonce, price) && WithinCaps(c.calculator, price)
  }

  /** The table entry the k-th replacement leaves. */
  function ChainEntry(c: Settings, nonce: U64, first: U128, k: nat): PendingSubmission {
    PendingSubmission(nonce, BidAfter(first, c.calculator.replacementBump, k), k)
  }

  /** While monitoring: the accepted bids form a chain that starts with a first broadcast and ends in the polled hash, and the table entry of that hash,
      if present, records how far the chain has got. */
  predicate Monitoring(c: Settings, opp: ScoredOpportunity, nonce: U64, first: U128, base: seq<Event>, s: Executor, current: TxHash) {
    && Extends(s.log, base)
    && var bids := BidsSince(s.log, base);
    && bids != []
    && BidChain(c, opp, nonce, first, bids)
    && Accepted(bids[0], true) in s.log
    && current == bids[|bids| - 1]
    && (current in s.pending ==> s.pending[current] == ChainEntry(c, nonce, first, |bids| - 1))
  }

  lemma CheckKeeps(o: Oracle, c: Settings, s: Executor, opp: ScoredOpportunity, price: U128)
    requires Affordable(opp) && c.Valid()
    ensures var (v, s1) := Check(o, c, s, opp, price);
            && s1 == s.(guard := s1.guard, world := s1.world)
            && (v.Pass? ==> WeiToGwei(price) <= c.calculator.softGasCap)
  {
  }

  lemma ExtendChain(c: Settings, opp: ScoredOpportunity, nonce: U64, first: U128, bids: seq<TypedTransaction>, price: U128)
    requires BidChain(c, opp, nonce, first, bids) && 0 < |bids| <= MAX_REPLACEMENT_ATTEMPTS
    requires price == NextBid(BidAfter(first, c.calculator.replacementBump, |bids| - 1), c.calculator.replacementBump)
    requires WithinCaps(c.calculator, price)
    ensures price == BidAfter(first, c.calculator.replacementBump, |bids|)
    ensures BidChain(c, opp, nonce, first, bids + [Transaction(c, opp, nonce, price)])
  {
  }

  /** What a replacement attempt adds: nothing to the bids, or the next bid of the chain with its table entry. */
  lemma ReplaceExtends(o: Oracle, c: Settings, opp: ScoredOpportunity, nonce: U64, first: U128, base: seq<Event>, s: Executor,
                       k: nat)
    requires c.Valid() && Affordable(opp) && Extends(s.log, base)
    requires k == |BidsSince(s.log, base)| - 1 && k < MAX_REPLACEMENT_ATTEMPTS
    requires BidChain(c, opp, nonce, first, BidsSince(s.log, base))
    ensures var entry := ChainEntry(c, nonce, first, k);
            var (s', replacement) := Replace(o, c, s, entry, opp);
            && Extends(s'.log, base) && Extends(s'.log, s.log)
            && BidChain(c, opp, nonce, first, BidsSince(s'.log, base))
            && (replacement.None? ==> s'.pending == s.pending && BidsSince(s'.log, base) == BidsSince(s.log, base))
            && (replacement.Some? ==> (
                  && BidsSince(s'.log, base) == BidsSince(s.log, base) + [replacement.value]
                  && s'.pending == s.pending[replacement.value := ChainEntry(c, nonce, first, k + 1)]))
  {
    hide Safety.Preflight, Transaction;
    var entry := ChainEntry(c, nonce, first, k);
    AdditionalBump(c.calculator, entry.gasPrice);
    var bid := c.calculator.ApplyAdditionalBump(entry.gasPrice);
    if bid.Bid? {
      CheckKeeps(o, c, s, opp, bid.price);
      var tx := Transaction(c, opp, nonce, bid.price);
      Appended(s.log, base, Unsigned(tx, false));
      Appended(s.log, base, Refused(tx, false));
      Appended(s.log, base, Accepted(tx, false));
      if WithinCaps(c.calculator, bid.price) {
        ExtendChain(c, opp, nonce, first, BidsSince(s.log, base), bid.price);
      }
    }
  }

  lemma ExtensionKeeps(log: seq<Event>, base: seq<Event>, e: Event)
    requires Extends(log, base) && e in base
    ensures e in log
  {
  }

  /** What an iteration may do to a monitored chain. */
  predicate StillMonitored(i: Iteration, c: Settings, opp: ScoredOpportunity, nonce: U64, first: U128, base: seq<Event>,
                           current: TxHash)
  {
    match i
    case Returned(s', result) =>
      && Extends(s'.log, base) && BidChain(c, opp, nonce, first, BidsSince(s'.log, base))
      && (result.Err? ==> Monitoring(c, opp, nonce, first, base, s', current))
    case Again(s', next) => Monitoring(c, opp, nonce, first, base, s', next)
  }

  lemma ReplacingMonitors(o: Oracle, c: Settings, opp: ScoredOpportunity, nonce: U64, first: U128, base: seq<Event>,
                          s: Executor, current: TxHash)
    requires c.Valid() && Affordable(opp) && Monitoring(c, opp, nonce, first, base, s, current)
    requires current in s.pending && s.pending[current].replacementAttempts < MAX_REPLACEMENT_ATTEMPTS
    ensures StillMonitored(IterateReplacing(o, c, s, current, opp), c, opp, nonce, first, base, current)
  {
    hide Replace, BidChain;
    var s4 := Rest(o, c, s).(world := Elapse(o, Rest(o, c, s).world));
    var bids := BidsSince(s.log, base);
    ReplaceExtends(o, c, opp, nonce, first, base, s4, |bids| - 1);
    ExtensionKeeps(Replace(o, c, s4, s.pending[current], opp).0.log, s.log, Accepted(bids[0], true));
  }

  /** One round keeps the monitoring invariant, and when the loop ends the chain is still a chain. */
  lemma IterateMonitors(o: Oracle, c: Settings, opp: ScoredOpportunity, nonce: U64, first: U128, base: seq<Event>, s: Executor,
                        current: TxHash, deadline: nat)
    requires c.Valid() && Affordable(opp)
    requires Monitoring(c, opp, nonce, first, base, s, current)
    ensures StillMonitored(Iterate(o, c, s, current, deadline, opp), c, opp, nonce, first, base, current)
  {
    hide IterateReplacing, BidChain;
    var s2 := s.(world := Elapse(o, Elapse(o, s.world)));
    if current in s2.pending && s2.pending[current].replacementAttempts < MAX_REPLACEMENT_ATTEMPTS {
      ReplacingMonitors(o, c, opp, nonce, first, base, s2, current);
    }
  }

  lemma {:induction false} MonitorChain(o: Oracle, c: Settings, opp: ScoredOpportunity, nonce: U64, first: U128,
                                        base: seq<Event>, s: Executor, current: TxHash, deadline: nat)
    requires c.Valid() && Affordable(opp)
    requires Monitoring(c, opp, nonce, first, base, s, current)
    ensures var s' := Monitor(o, c, s, current, deadline, opp).state;
            Extends(s'.log, base) && BidChain(c, opp, nonce, first, BidsSince(s'.log, base))
    decreases Max(deadline - s.world.clock, 0)
  {
    IterationRests(o, c, s, current, deadline, opp);
    IterateMonitors(o, c, opp, nonce, first, base, s, current, deadline);
    hide Iterate, BidChain, Monitoring;
    var i := Iterate(o, c, s, current, deadline, opp);
    if i.Again? {
      MonitorChain(o, c, opp, nonce, first, base, i.state, i.current, deadline);
    }
  }

  /** What a first bid leaves to be monitored. */
  lemma StartMonitors(o: Oracle, c: Settings, s: Executor, t: Ticket)
    requires c.Valid() && t.Convertible()
    ensures var launch := Start(o, c, s, t);
            && Extends(launch.state.log, s.log)
            && (launch.Stopped? ==> BidsSince(launch.state.log, s.log) == [])
            && (launch.Launched? ==> (
                  && BidsSince(launch.state.log, s.log) == [launch.hash]
                  && c.calculator.CalculateReplacementGasPrice(t.VictimPrice(), t.network).Bid?
                  && Monitoring(c, t.opportunity, s.nextNonce,
                                c.calculator.CalculateReplacementGasPrice(t.VictimPrice(), t.network).price,
                                s.log, launch.state, launch.hash)))
  {
    var bid := c.calculator.CalculateReplacementGasPrice(t.VictimPrice(), t.network);
    assert s.log[|s.log|..] == [];
    if bid.Bid? {
      BidIsLargestOfThree(c.calculator, t.VictimPrice(), t.network);
      CheckKeeps(o, c, s, t.opportunity, bid.price);
      var tx := Transaction(c, t.opportunity, s.nextNonce, bid.price);
      Appended(s.log, s.log, Unsigned(tx, true));
      Appended(s.log, s.log, Refused(tx, true));
      Appended(s.log, s.log, Accepted(tx, true));
    }
  }

  lemma FollowUpChain(o: Oracle, c: Settings, launch: Launch, opp: ScoredOpportunity, nonce: U64, first: U128, base: seq<Event>)
    requires c.Valid() && Affordable(opp) && launch.Launched?
    requires Monitoring(c, opp, nonce, first, base, launch.state, launch.hash)
    ensures var s' := FollowUp(o, c, launch, opp).state;
            Extends(s'.log, base) && BidChain(c, opp, nonce, first, BidsSince(s'.log, base))
  {
    hide Monitor, Monitoring, BidChain;
    var s1 := launch.state.(world := Elapse(o, launch.state.world));
    WorldIsIrrelevant(c, opp, nonce, first, base, launch.state, s1, launch.hash);
    MonitorChain(o, c, opp, nonce, first, base, s1, launch.hash, s1.world.clock + c.TimeoutSecs() * SECOND);
  }

  /** Every execution broadcasts a bid chain on the nonce it allocated, starting at the competitive price. */
  lemma BidChainSafety(o: Oracle, c: Settings, s: Executor, t: Ticket)
    requires c.Valid() && t.Convertible()
    ensures var s' := Execute(o, c, s, t).state;
            var bid := c.calculator.CalculateReplacementGasPrice(t.VictimPrice(), t.network);
            && Extends(s'.log, s.log)
            && (BidsSince(s'.log, s.log) != [] ==>
                  bid.Bid? && BidChain(c, t.opportunity, s.nextNonce, bid.price, BidsSince(s'.log, s.log)))
  {
    StartMonitors(o, c, s, t);
    hide Start, Monitoring, BidChain, Calculator.CalculateReplacementGasPrice, MonitorFromNow;
    var launch := Start(o, c, s, t);
    if launch.Launched? {
      var bid := c.calculator.CalculateReplacementGasPrice(t.VictimPrice(), t.network);
      FollowUpChain(o, c, launch, t.opportunity, s.nextNonce, bid.price, s.log);
    }
  }

  lemma WorldIsIrrelevant(c: Settings, opp: ScoredOpportunity, nonce: U64, first: U128, base: seq<Event>,
                          s: Executor, s1: Executor, current: TxHash)
    requires Monitoring(c, opp, nonce, first, base, s, current) && s1 == s.(world := s1.world)
    ensures Monitoring(c, opp, nonce, first, base, s1, current)
  {
  }

  /** Successive bumps of a price that a bump raises keep raising it until the 128-bit cast saturates. */
  lemma {:induction false} BidAfterRises(first: U128, bump: real, k: nat)
    requires bump > 0.0 && WholeWeiBump(first, bump)
    ensures first <= BidAfter(first, bump, k)
    ensures BidAfter(first, bump, k) < U128_MAX ==> BidAfter(first, bump, k) < BidAfter(first, bump, k + 1)
  {
    hide ScaleDown, WholeWeiBump;
    if k > 0 {
      BidAfterRises(first, bump, k - 1);
      BumpRaises(BidAfter(first, bump, k - 1), bump);
    }
    WholeWeiMonotone(first, BidAfter(first, bump, k), bump);
    BumpRaises(BidAfter(first, bump, k), bump);
  }

  predicate StrictlyRising(bids: seq<TypedTransaction>) {
    forall i :: 0 <= i < |bids| - 1 ==> TypedGasPrice(bids[i]) < TypedGasPrice(bids[i + 1])
  }

  /** A chain of at least two bids rises strictly exactly when the bump of its first price is a whole wei (and the
      hard cap is representable). */
  lemma ChainRises(c: Settings, opp: ScoredOpportunity, nonce: U64, first: U128, bids: seq<TypedTransaction>)
    requires c.Valid() && BidChain(c, opp, nonce, first, bids) && |bids| >= 2
    requires c.calculator.maxGasPrice * WEI_PER_GWEI < U128_MAX as real
    ensures StrictlyRising(bids) <==> WholeWeiBump(first, c.calculator.replacementBump)
  {
    var bump := c.calculator.replacementBump;
    hide ScaleDown, WholeWeiBump, BidChain;
    BidPrice(c, opp, nonce, first, bids, 0);
    BidPrice(c, opp, nonce, first, bids, 1);
    BumpRaises(first, bump);
    if WholeWeiBump(first, bump) {
      forall i | 0 <= i < |bids| - 1 ensures TypedGasPrice(bids[i]) < TypedGasPrice(bids[i + 1]) {
        BidPrice(c, opp, nonce, first, bids, i);
        BidPrice(c, opp, nonce, first, bids, i + 1);
        BidAfterRises(first, bump, i);
      }
    }
  }

  lemma BidPrice(c: Settings, opp: ScoredOpportunity, nonce: U64, first: U128, bids: seq<TypedTransaction>, i: nat)
    requires BidChain(c, opp, nonce, first, bids) && i < |bids|
    ensures TypedGasPrice(bids[i]) == BidAfter(first, c.calculator.replacementBump, i)
    ensures c.calculator.maxGasPrice * WEI_PER_GWEI < U128_MAX as real ==> TypedGasPrice(bids[i]) < U128_MAX
  {
    assert IsBid(c, opp, nonce, BidAfter(first, c.calculator.replacementBump, i), bids[i]);
  }

  /** Every bid of a chain carries the victim's payload on the one nonce, is within the caps, never pays a priority fee
      above the maximum fee, and its price stays within the rounding envelope of exact compounding. */
  lemma ChainMember(c: Settings, opp: ScoredOpportunity, nonce: U64, first: U128, bids: seq<TypedTransaction>, i: nat)
    requires c.Valid() && BidChain(c, opp, nonce, first, bids) && i < |bids|
    ensures i <= 3 && TypedGasPrice(bids[i]) < U128_SIZE && WithinCaps(c.calculator, TypedGasPrice(bids[i]))
    ensures bids[i].nonce == nonce && bids[i].chainId == c.chainId
    ensures var v := opp.pending;
            && bids[i].gasLimit == v.gasLimit && bids[i].to == v.to && bids[i].value == v.value && bids[i].data == v.input
            && (bids[i].fee.DynamicFee? <==> v.feeModel.Eip1559?)
            && (bids[i].fee.DynamicFee? ==>
                  bids[i].fee.priorityFee == bids[i].fee.maxFee / 5 && bids[i].fee.priorityFee <= bids[i].fee.maxFee)
    ensures var r := 1.0 + c.calculator.replacementBump / 100.0;
            var price := TypedGasPrice(bids[i]) as real;
            && price <= Compound(first as real, r, i)
            && (TypedGasPrice(bids[i]) < U128_MAX ==> price >= CompoundLess(first as real, r, i))
  {
    hide Compound, CompoundLess, ScaleDown;
    var bump := c.calculator.replacementBump;
    assert IsBid(c, opp, nonce, BidAfter(first, bump, i), bids[i]);
    CompoundingUpper(first, 1.0 + bump / 100.0, i);
    CompoundingLower(first, 1.0 + bump / 100.0, i);
  }
}
