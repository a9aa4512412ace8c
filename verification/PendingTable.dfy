/** The pending table: one entry while a bid is monitored, none once it settles, and one left behind when the receipt
    cannot be fetched. */
module PendingTable {
  import opened Units
  import opened GasAuction
  import opened Environment
  import opened Opportunities
  import opened Safety
  import opened Replacement
  import opened BidChains

  type Table = map<TxHash, PendingSubmission>

  /** The table is `base`, with or without an entry for the polled hash. */
  predicate OnlyCurrent(base: Table, pending: Table, current: TxHash) {
    current !in base && pending - {current} == base
  }

  /** No earlier entry uses this nonce. */
  predicate NonceUnused(base: Table, nonce: U64) {
    forall tx <- base :: tx.nonce != nonce
  }

  /** After an accepted replacement the loop removes the old hash. The new hash is then still in the table exactly when
      the bump raised the price: a bump that rounds back to the same price rebuilds the very same transaction. */
  lemma ReplacementKeepsEntry(o: Oracle, c: Settings, opp: ScoredOpportunity, nonce: U64, s: Executor, price: U128, k: nat)
    requires c.Valid() && Affordable(opp)
    ensures var current := Transaction(c, opp, nonce, price);
            var (s', replacement) := Replace(o, c, s, PendingSubmission(nonce, price, k), opp);
            replacement.Some? ==>
              (replacement.value in s'.pending - {current} <==> price < U128_MAX && WholeWeiBump(price, c.calculator.replacementBump))
  {
    AdditionalBump(c.calculator, price);
    BumpRaises(price, c.calculator.replacementBump);
    PriceOfTransaction(c, opp, nonce, price);
    PriceOfTransaction(c, opp, nonce, NextBid(price, c.calculator.replacementBump));
    hide NextBid, WholeWeiBump, Calculator.ApplyAdditionalBump, Preflight, Elapse, Transaction;
  }

  lemma PriceOfTransaction(c: Settings, opp: ScoredOpportunity, nonce: U64, price: U128)
    ensures TypedGasPrice(Transaction(c, opp, nonce, price)) == price
  {
  }

  lemma UpdateCurrent(base: Table, pending: Table, current: TxHash, next: TxHash, entry: PendingSubmission)
    requires OnlyCurrent(base, pending, current) && next !in base
    ensures OnlyCurrent(base, pending[next := entry] - {current}, next)
  {
    assert (pending[next := entry] - {current}) - {next} == pending - {current};
  }

  /** What a round may do to the table: settling restores it, an error leaves it, going on keeps it in shape. */
  predicate TableKept(i: Iteration, base: Table, pending: Table) {
    match i
    case Returned(s', result) => s'.pending == if result.Ok? then base else pending
    case Again(s', next) => OnlyCurrent(base, s'.pending, next)
  }

  lemma ReplacingTable(o: Oracle, c: Settings, opp: ScoredOpportunity, nonce: U64, first: U128, log: seq<Event>, base: Table,
                       s: Executor, current: TxHash)
    requires c.Valid() && Affordable(opp) && NonceUnused(base, nonce)
    requires Monitoring(c, opp, nonce, first, log, s, current) && OnlyCurrent(base, s.pending, current)
    requires current in s.pending && s.pending[current].replacementAttempts < MAX_REPLACEMENT_ATTEMPTS
    ensures TableKept(IterateReplacing(o, c, s, current, opp), base, s.pending)
  {
    hide Replace, BidChain;
    var k := |BidsSince(s.log, log)| - 1;
    var s4 := Rest(o, c, s).(world := Elapse(o, Rest(o, c, s).world));
    ReplaceExtends(o, c, opp, nonce, first, log, s4, k);
    var (s5, replacement) := Replace(o, c, s4, s.pending[current], opp);
    if replacement.Some? {
      var next := replacement.value;
      LastBid(c, opp, nonce, first, BidsSince(s5.log, log));
      UpdateCurrent(base, s.pending, current, next, ChainEntry(c, nonce, first, k + 1));
    }
  }

  lemma IterateTable(o: Oracle, c: Settings, opp: ScoredOpportunity, nonce: U64, first: U128, log: seq<Event>, base: Table,
                     s: Executor, current: TxHash, deadline: nat)
    requires c.Valid() && Affordable(opp) && NonceUnused(base, nonce)
    requires Monitoring(c, opp, nonce, first, log, s, current) && OnlyCurrent(base, s.pending, current)
    ensures TableKept(Iterate(o, c, s, current, deadline, opp), base, s.pending)
  {
    hide IterateReplacing, BidChain;
    var s2 := s.(world := Elapse(o, Elapse(o, s.world)));
    if current in s2.pending && s2.pending[current].replacementAttempts < MAX_REPLACEMENT_ATTEMPTS {
      ReplacingTable(o, c, opp, nonce, first, log, base, s2, current);
    }
  }

  lemma LastBid(c: Settings, opp: ScoredOpportunity, nonce: U64, first: U128, bids: seq<TypedTransaction>)
    requires BidChain(c, opp, nonce, first, bids) && bids != []
    ensures bids[|bids| - 1].nonce == nonce
    ensures bids[|bids| - 1] == Transaction(c, opp, nonce, BidAfter(first, c.calculator.replacementBump, |bids| - 1))
  {
    assert IsBid(c, opp, nonce, BidAfter(first, c.calculator.replacementBump, |bids| - 1), bids[|bids| - 1]);
  }

  /** Exactly when the last of n bids has a table entry: it is the first bid, or the last bump raised the price. That is so
      when the bump of the first price is a whole wei, until the 128-bit cast saturates. */
  predicate HasEntry(c: Settings, first: U128, n: nat) {
    n <= 1 || (WholeWeiBump(first, c.calculator.replacementBump) && BidAfter(first, c.calculator.replacementBump, n - 2) < U128_MAX)
  }

  /** Bumping neither gains nor loses the property that a bump is a whole wei. */
  lemma {:induction false} WholeWeiStays(first: U128, bump: real, k: nat)
    requires bump > 0.0
    ensures WholeWeiBump(BidAfter(first, bump, k), bump) <==> WholeWeiBump(first, bump)
    ensures !WholeWeiBump(first, bump) ==> BidAfter(first, bump, k) == first
  {
    hide ScaleDown, WholeWeiBump;
    if WholeWeiBump(first, bump) {
      BidAfterRises(first, bump, k);
      WholeWeiMonotone(first, BidAfter(first, bump, k), bump);
    } else if k > 0 {
      WholeWeiStays(first, bump, k - 1);
      BumpRaises(first, bump);
    }
  }

  /** Below a representable hard cap no price saturates, and the bump of the first price alone decides. */
  lemma EntryByFirstBump(c: Settings, opp: ScoredOpportunity, nonce: U64, first: U128, bids: seq<TypedTransaction>)
    requires c.Valid() && BidChain(c, opp, nonce, first, bids) && bids != []
    requires c.calculator.maxGasPrice * WEI_PER_GWEI < U128_MAX as real
    ensures HasEntry(c, first, |bids|) <==> |bids| == 1 || WholeWeiBump(first, c.calculator.replacementBump)
  {
    hide WholeWeiBump, BidAfter, BidChain;
    if |bids| >= 2 {
      BidPrice(c, opp, nonce, first, bids, |bids| - 2);
    }
  }

  /** The polled hash is in the table exactly when the history says so. */
  predicate Shown(c: Settings, first: U128, log: seq<Event>, s: Executor, current: TxHash) {
    Extends(s.log, log) && (current in s.pending <==> HasEntry(c, first, |BidsSince(s.log, log)|))
  }

  lemma ReplacingShown(o: Oracle, c: Settings, opp: ScoredOpportunity, nonce: U64, first: U128, log: seq<Event>,
                       s: Executor, current: TxHash)
    requires c.Valid() && Affordable(opp) && Monitoring(c, opp, nonce, first, log, s, current)
    requires Shown(c, first, log, s, current) && current in s.pending
    requires s.pending[current].replacementAttempts < MAX_REPLACEMENT_ATTEMPTS
    ensures match IterateReplacing(o, c, s, current, opp)
            case Returned(s', _) => Shown(c, first, log, s', current)
            case Again(s', next) => Shown(c, first, log, s', next)
  {
    hide Replace, BidAfter, WholeWeiBump, BidChain;
    var bids, bump := BidsSince(s.log, log), c.calculator.replacementBump;
    var k := |bids| - 1;
    var s4 := Rest(o, c, s).(world := Elapse(o, Rest(o, c, s).world));
    LastBid(c, opp, nonce, first, bids);
    ReplacementKeepsEntry(o, c, opp, nonce, s4, BidAfter(first, bump, k), k);
    WholeWeiStays(first, bump, k);
    ReplaceExtends(o, c, opp, nonce, first, log, s4, k);
  }

  /** A round keeps that exact: as long as monitoring goes on, the polled hash is a key unless a bump has been lost. */
  lemma IterateShown(o: Oracle, c: Settings, opp: ScoredOpportunity, nonce: U64, first: U128, log: seq<Event>,
                     s: Executor, current: TxHash, deadline: nat)
    requires c.Valid() && Affordable(opp)
    requires Monitoring(c, opp, nonce, first, log, s, current) && Shown(c, first, log, s, current)
    ensures match Iterate(o, c, s, current, deadline, opp)
            case Returned(s', result) => result.Err? ==> Shown(c, first, log, s', current)
            case Again(s', next) => Shown(c, first, log, s', next)
  {
    hide IterateReplacing, HasEntry, BidChain;
    var s2 := s.(world := Elapse(o, Elapse(o, s.world)));
    if current in s2.pending && s2.pending[current].replacementAttempts < MAX_REPLACEMENT_ATTEMPTS {
      ReplacingShown(o, c, opp, nonce, first, log, s2, current);
    }
  }

  /** The table after a receipt error: only the last bid of the chain may have been left behind, and exactly when it still
      had an entry. */
  predicate LeftBehind(c: Settings, opp: ScoredOpportunity, nonce: U64, first: U128, log: seq<Event>, base: Table, s: Executor) {
    && Extends(s.log, log) && BidsSince(s.log, log) != []
    && var bids := BidsSince(s.log, log);
    && Monitoring(c, opp, nonce, first, log, s, bids[|bids| - 1])
    && OnlyCurrent(base, s.pending, bids[|bids| - 1])
    && (bids[|bids| - 1] in s.pending <==> HasEntry(c, first, |bids|))
  }

  lemma IsLeftBehind(c: Settings, opp: ScoredOpportunity, nonce: U64, first: U128, log: seq<Event>, base: Table, s: Executor, current: TxHash)
    requires Monitoring(c, opp, nonce, first, log, s, current) && OnlyCurrent(base, s.pending, current)
    requires Shown(c, first, log, s, current)
    ensures LeftBehind(c, opp, nonce, first, log, base, s)
  {
    hide BidChain, HasEntry;
  }

  /** The table after monitoring: as before the run once settled; otherwise the receipt could not be fetched. */
  predicate TableAfter(c: Settings, opp: ScoredOpportunity, nonce: U64, first: U128, log: seq<Event>, base: Table,
                       s: Executor, result: RunResult)
  {
    if result.Ok? then s.pending == base && (result.outcome.Confirmed? || result.outcome.Dropped?)
    else result.error == RpcFailed && LeftBehind(c, opp, nonce, first, log, base, s)
  }

  lemma Unchanged(o: Oracle, c: Settings, s: Executor, current: TxHash, deadline: nat, opp: ScoredOpportunity)
    requires Affordable(opp)
    ensures var i := Iterate(o, c, s, current, deadline, opp);
            i.Returned? && i.result.Err? ==> i.state == s.(world := i.state.world)
  {
  }

  lemma IterateOutcome(o: Oracle, c: Settings, s: Executor, current: TxHash, deadline: nat, opp: ScoredOpportunity)
    requires Affordable(opp)
    ensures match Iterate(o, c, s, current, deadline, opp)
            case Returned(_, Ok(outcome)) => outcome.Confirmed? || outcome.Dropped?
            case Returned(_, Err(error)) => error == RpcFailed
            case Again(_, _) => true
  {
  }

  /** The last round. */
  lemma SettledTable(o: Oracle, c: Settings, opp: ScoredOpportunity, nonce: U64, first: U128, log: seq<Event>, base: Table,
                     s: Executor, current: TxHash, deadline: nat)
    requires c.Valid() && Affordable(opp) && Iterate(o, c, s, current, deadline, opp).Returned?
    requires Monitoring(c, opp, nonce, first, log, s, current) && OnlyCurrent(base, s.pending, current)
    requires TableKept(Iterate(o, c, s, current, deadline, opp), base, s.pending)
    requires Shown(c, first, log, s, current)
    ensures var i := Iterate(o, c, s, current, deadline, opp);
            TableAfter(c, opp, nonce, first, log, base, i.state, i.result)
  {
    IterateOutcome(o, c, s, current, deadline, opp);
    Unchanged(o, c, s, current, deadline, opp);
    hide Iterate, Monitoring, OnlyCurrent, LeftBehind, HasEntry;
    var i := Iterate(o, c, s, current, deadline, opp);
    if i.result.Err? {
      WorldIsIrrelevant(c, opp, nonce, first, log, s, i.state, current);
      IsLeftBehind(c, opp, nonce, first, log, base, i.state, current);
    }
  }

  lemma {:induction false} MonitorTable(o: Oracle, c: Settings, opp: ScoredOpportunity, nonce: U64, first: U128,
                                        log: seq<Event>, base: Table, s: Executor, current: TxHash, deadline: nat)
    requires c.Valid() && Affordable(opp) && NonceUnused(base, nonce)
    requires Monitoring(c, opp, nonce, first, log, s, current) && OnlyCurrent(base, s.pending, current)
    requires Shown(c, first, log, s, current)
    ensures var run := Monitor(o, c, s, current, deadline, opp);
            TableAfter(c, opp, nonce, first, log, base, run.state, run.result)
    decreases Max(deadline - s.world.clock, 0)
  {
    IterationRests(o, c, s, current, deadline, opp);
    IterateMonitors(o, c, opp, nonce, first, log, s, current, deadline);
    IterateTable(o, c, opp, nonce, first, log, base, s, current, deadline);
    IterateShown(o, c, opp, nonce, first, log, s, current, deadline);
    hide Iterate, Monitoring, OnlyCurrent, TableAfter, Shown, NonceUnused;
    var i := Iterate(o, c, s, current, deadline, opp);
    if i.Returned? {
      SettledTable(o, c, opp, nonce, first, log, base, s, current, deadline);
    } else {
      MonitorTable(o, c, opp, nonce, first, log, base, i.state, i.current, deadline);
    }
  }

  lemma StartTable(o: Oracle, c: Settings, s: Executor, t: Ticket)
    requires c.Valid() && t.Convertible() && NonceUnused(s.pending, s.nextNonce)
    ensures var launch := Start(o, c, s, t);
            && (launch.Stopped? ==> launch.state.pending == s.pending && launch.result != Err(RpcFailed))
            && (launch.Launched? ==> launch.hash in launch.state.pending && OnlyCurrent(s.pending, launch.state.pending, launch.hash))
  {
    hide Preflight, Calculator.CalculateReplacementGasPrice;
    var launch := Start(o, c, s, t);
    if launch.Launched? {
      assert launch.hash.nonce == s.nextNonce;
      assert s.pending[launch.hash := launch.state.pending[launch.hash]] - {launch.hash} == s.pending;
    }
  }

  lemma FollowUpTable(o: Oracle, c: Settings, launch: Launch, opp: ScoredOpportunity, nonce: U64, first: U128,
                      log: seq<Event>, base: Table)
    requires c.Valid() && Affordable(opp) && launch.Launched? && NonceUnused(base, nonce)
    requires Monitoring(c, opp, nonce, first, log, launch.state, launch.hash)
    requires OnlyCurrent(base, launch.state.pending, launch.hash) && Shown(c, first, log, launch.state, launch.hash)
    ensures var run := FollowUp(o, c, launch, opp);
            TableAfter(c, opp, nonce, first, log, base, run.state, run.result)
  {
    hide Monitor, Monitoring, OnlyCurrent, NonceUnused, TableAfter, HasEntry;
    var s1 := launch.state.(world := Elapse(o, launch.state.world));
    WorldIsIrrelevant(c, opp, nonce, first, log, launch.state, s1, launch.hash);
    MonitorTable(o, c, opp, nonce, first, log, base, s1, launch.hash, s1.world.clock + c.TimeoutSecs() * SECOND);
  }

  /** A run gives back the table it found, unless it ends on a receipt error: then only its last bid is left behind. */
  lemma ExecuteTable(o: Oracle, c: Settings, s: Executor, t: Ticket)
    requires c.Valid() && t.Convertible() && NonceUnused(s.pending, s.nextNonce)
    ensures var run := Execute(o, c, s, t);
            var bid := c.calculator.CalculateReplacementGasPrice(t.VictimPrice(), t.network);
            if run.result == Err(RpcFailed)
            then bid.Bid? && LeftBehind(c, t.opportunity, s.nextNonce, bid.price, s.log, s.pending, run.state)
            else run.state.pending == s.pending
  {
    StartTable(o, c, s, t);
    StartMonitors(o, c, s, t);
    hide Start, MonitorFromNow, Monitoring, LeftBehind, OnlyCurrent, NonceUnused, Calculator.CalculateReplacementGasPrice;
    var launch := Start(o, c, s, t);
    if launch.Launched? {
      var first := c.calculator.CalculateReplacementGasPrice(t.VictimPrice(), t.network).price;
      FollowUpTable(o, c, launch, t.opportunity, s.nextNonce, first, s.log, s.pending);
    }
  }
}
