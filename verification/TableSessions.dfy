/** The pending table over whole sessions: what is left in it between runs, and why. */
module TableSessions {
  import opened Units
  import opened GasAuction
  import opened Environment
  import opened Opportunities
  import opened Replacement
  import opened BidChains
  import opened PendingTable
  import opened Sessions
  import opened Outcomes

  lemma HandleTable(o: Oracle, c: Settings, s: Executor, t: Ticket)
    requires c.Valid() && t.Convertible() && NonceUnused(s.pending, s.nextNonce)
    ensures var (s', result) := Handle(o, c, s, t);
            var bid := c.calculator.CalculateReplacementGasPrice(t.VictimPrice(), t.network);
            && Extends(s'.log, s.log)
            && if result == Err(RpcFailed)
               then bid.Bid? && LeftBehind(c, t.opportunity, s.nextNonce, bid.price, s.log, s.pending, s')
               else s'.pending == s.pending
  {
    BidChainSafety(o, c, s, t);
    ExecuteTable(o, c, s, t);
    hide Execute, LeftBehind, NonceUnused, Calculator.CalculateReplacementGasPrice;
  }

  // What an entry records

  /** The same transaction at another price. */
  function Repriced(tx: TypedTransaction, price: U256): TypedTransaction {
    tx.(fee := if tx.fee.LegacyFee? then LegacyFee(price) else DynamicFee(price, price / 5))
  }

  /** The bid is this first broadcast, bumped so many times. */
  predicate BumpedFrom(c: Settings, first: TypedTransaction, tx: TypedTransaction, bumps: nat) {
    TypedGasPrice(first) < U128_SIZE && tx == Repriced(first, BidAfter(TypedGasPrice(first), c.calculator.replacementBump, bumps))
  }

  /** A table entry describes its key, a bid the node accepted: the first broadcast of a run, bumped as many times as the
      entry counts attempts, at most three. */
  ghost predicate Traced(c: Settings, log: seq<Event>, tx: TxHash, entry: PendingSubmission) {
    && entry.nonce == tx.nonce && entry.gasPrice == TypedGasPrice(tx)
    && entry.replacementAttempts <= MAX_REPLACEMENT_ATTEMPTS
    && tx in Bids(log)
    && exists first :: Accepted(first, true) in log && BumpedFrom(c, first, tx, entry.replacementAttempts)
  }

  lemma {:induction false} BidsSplit(log: seq<Event>, n: nat)
    requires n <= |log|
    ensures Bids(log) == Bids(log[..n]) + Bids(log[n..])
  {
    if n == |log| {
      assert log[..n] == log;
    } else {
      var front := log[..|log| - 1];
      BidsSplit(front, n);
      assert front[..n] == log[..n] && front[n..] == log[n..][..|log| - n - 1];
    }
  }

  lemma TracedExtends(c: Settings, s: Executor, s': Executor, tx: TxHash, entry: PendingSubmission)
    requires Extends(s'.log, s.log) && Traced(c, s.log, tx, entry)
    ensures Traced(c, s'.log, tx, entry)
  {
    hide BumpedFrom;
    BidsSplit(s'.log, |s.log|);
    var first :| Accepted(first, true) in s.log && BumpedFrom(c, first, tx, entry.replacementAttempts);
    ExtensionKeeps(s'.log, s.log, Accepted(first, true));
  }

  lemma RepricedTransaction(c: Settings, opp: ScoredOpportunity, nonce: U64, first: U128, bumps: nat)
    ensures BumpedFrom(c, Transaction(c, opp, nonce, first),
                       Transaction(c, opp, nonce, BidAfter(first, c.calculator.replacementBump, bumps)), bumps)
  {
    hide BidAfter;
  }

  lemma LeftBehindTraced(c: Settings, opp: ScoredOpportunity, nonce: U64, first: U128, base: seq<Event>, s: Executor, tx: TxHash)
    requires c.Valid() && Monitoring(c, opp, nonce, first, base, s, tx) && tx in s.pending
    ensures Traced(c, s.log, tx, s.pending[tx]) && tx.nonce == nonce
  {
    var bids := BidsSince(s.log, base);
    BidsSplit(s.log, |base|);
    assert tx in Bids(s.log);
    BidPrice(c, opp, nonce, first, bids, |bids| - 1);
    LastBid(c, opp, nonce, first, bids);
    LastBid(c, opp, nonce, first, bids[..1]);
    RepricedTransaction(c, opp, nonce, first, |bids| - 1);
    assert BidAfter(first, c.calculator.replacementBump, 0) == first;
    hide BidAfter, WithinCaps, BumpedFrom;
  }

  // How many entries there are

  /** This receipt error left an entry behind: only one bid had been accepted, or the bump of the first price is a whole wei
      (and no price saturated). */
  predicate LeavesEntry(c: Settings, t: Ticket, before: Executor, after: Executor)
    requires t.Convertible()
  {
    var bid := c.calculator.CalculateReplacementGasPrice(t.VictimPrice(), t.network);
    bid.Bid? && Extends(after.log, before.log) && HasEntry(c, bid.price, |BidsSince(after.log, before.log)|)
  }

  /** The runs that ended on a receipt error and left an entry. */
  function Leftovers(o: Oracle, c: Settings, s: Executor, tickets: seq<Ticket>): nat
    requires AllConvertible(tickets)
  {
    if tickets == [] then 0
    else
      var front, t := tickets[..|tickets| - 1], tickets[|tickets| - 1];
      var before := HandleAll(o, c, s, front).0;
      var (after, result) := Handle(o, c, before, t);
      Leftovers(o, c, s, front) + if result == Err(RpcFailed) && LeavesEntry(c, t, before, after) then 1 else 0
  }

  /** Every entry belongs to a used nonce and is traced, and there are this many. */
  ghost predicate TableInOrder(c: Settings, s: Executor, entries: nat) {
    && (forall tx <- s.pending :: tx.nonce in UsedNonces(s.log) && Traced(c, s.log, tx, s.pending[tx]))
    && |s.pending| == entries
  }

  lemma NextIsUnused(c: Settings, synced: U64, s: Executor, entries: nat)
    requires NoncesInOrder(synced, s) && TableInOrder(c, s, entries) && |UsedNonces(s.log)| < U64_SIZE
    ensures NonceUnused(s.pending, s.nextNonce)
  {
    hide UsedNonces, Traced;
    var used := UsedNonces(s.log);
    forall tx <- s.pending ensures tx.nonce != s.nextNonce {
      var i :| 0 <= i < |used| && used[i] == tx.nonce;
      WrapDistinct(synced, i, |used|);
    }
  }

  /** The history only grew. */
  predicate HistoryGrew(s: Executor, s': Executor) {
    Extends(s'.log, s.log) && forall n <- UsedNonces(s.log) :: n in UsedNonces(s'.log)
  }

  lemma EntriesKept(c: Settings, s: Executor, s': Executor, entries: nat)
    requires TableInOrder(c, s, entries) && HistoryGrew(s, s')
    ensures forall tx <- s.pending :: tx.nonce in UsedNonces(s'.log) && Traced(c, s'.log, tx, s.pending[tx])
  {
    hide UsedNonces, Traced;
    forall tx <- s.pending ensures Traced(c, s'.log, tx, s.pending[tx]) {
      TracedExtends(c, s, s', tx, s.pending[tx]);
    }
  }

  /** A receipt error adds an entry exactly when the last bid still had one. */
  lemma TableGrows(c: Settings, opp: ScoredOpportunity, nonce: U64, first: U128, s: Executor, s': Executor, entries: nat)
    requires c.Valid() && TableInOrder(c, s, entries) && HistoryGrew(s, s') && nonce in UsedNonces(s'.log)
    requires LeftBehind(c, opp, nonce, first, s.log, s.pending, s')
    ensures TableInOrder(c, s', entries + if HasEntry(c, first, |BidsSince(s'.log, s.log)|) then 1 else 0)
  {
    hide TableInOrder, UsedNonces, Traced, Monitoring, HasEntry, HistoryGrew, Bids, OnlyCurrent;
    EntriesKept(c, s, s', entries);
    var bids := BidsSince(s'.log, s.log);
    var last := bids[|bids| - 1];
    if last in s'.pending {
      LeftBehindTraced(c, opp, nonce, first, s.log, s', last);
    }
    LastEntry(c, s, s', entries, last);
  }

  lemma LastEntry(c: Settings, s: Executor, s': Executor, entries: nat, last: TxHash)
    requires TableInOrder(c, s, entries) && OnlyCurrent(s.pending, s'.pending, last)
    requires forall tx <- s.pending :: tx.nonce in UsedNonces(s'.log) && Traced(c, s'.log, tx, s.pending[tx])
    requires last in s'.pending ==> last.nonce in UsedNonces(s'.log) && Traced(c, s'.log, last, s'.pending[last])
    ensures TableInOrder(c, s', entries + if last in s'.pending then 1 else 0)
  {
    hide UsedNonces, Traced;
    AddCurrent(s.pending, s'.pending, last);
  }

  lemma AddCurrent(base: Table, pending: Table, current: TxHash)
    requires OnlyCurrent(base, pending, current)
    ensures if current in pending then pending == base[current := pending[current]] && |pending| == |base| + 1 else pending == base
  {
    if current in pending {
      assert pending == base[current := pending[current]];
    } else {
      assert pending - {current} == pending;
    }
  }

  lemma StepGrowsHistory(s: Executor, s': Executor)
    requires Extends(s'.log, s.log) && NonceStep(s, s')
    ensures HistoryGrew(s, s')
  {
    hide UsedNonces;
  }

  lemma TableStep(o: Oracle, c: Settings, synced: U64, s: Executor, entries: nat, t: Ticket)
    requires c.Valid() && t.Convertible()
    requires NoncesInOrder(synced, s) && |UsedNonces(s.log)| < U64_SIZE && TableInOrder(c, s, entries)
    ensures var (s', result) := Handle(o, c, s, t);
            TableInOrder(c, s', entries + if result == Err(RpcFailed) && LeavesEntry(c, t, s, s') then 1 else 0)
  {
    NextIsUnused(c, synced, s, entries);
    HandleTable(o, c, s, t);
    HandleNonces(o, c, s, t);
    var s' := Handle(o, c, s, t).0;
    StepGrowsHistory(s, s');
    if Handle(o, c, s, t).1 == Err(RpcFailed) {
      var first := c.calculator.CalculateReplacementGasPrice(t.VictimPrice(), t.network).price;
      TableGrows(c, t.opportunity, s.nextNonce, first, s, s', entries);
    } else {
      EntriesKept(c, s, s', entries);
    }
    hide Handle, UsedNonces, Traced, LeftBehind, NoncesInOrder, NonceUnused, HasEntry, HistoryGrew,
      Calculator.CalculateReplacementGasPrice, NonceStep;
  }

  /** Between runs the table holds only traced entries of used nonces, and exactly one for every receipt error that left
      one: that had seen a single accepted bid, or a first price whose bump is a whole wei. */
  lemma {:induction false} TableLaw(o: Oracle, c: Settings, nonce: U64, now: nat, tickets: seq<Ticket>)
    requires c.Valid() && AllConvertible(tickets) && |tickets| < U64_SIZE
    ensures TableInOrder(c, HandleAll(o, c, Initial(nonce, now), tickets).0, Leftovers(o, c, Initial(nonce, now), tickets))
  {
    if tickets != [] {
      var front, t := tickets[..|tickets| - 1], tickets[|tickets| - 1];
      TableLaw(o, c, nonce, now, front);
      NonceConservation(o, c, nonce, now, front);
      var s1 := HandleAll(o, c, Initial(nonce, now), front).0;
      TableStep(o, c, nonce, s1, Leftovers(o, c, Initial(nonce, now), front), t);
      hide Handle, TableInOrder, NoncesInOrder, UsedNonces, LeavesEntry;
    }
  }

  // When every receipt error leaves an entry

  /** A run that ends on a receipt error has had a chain of bids accepted. */
  lemma ErrorAfterBids(o: Oracle, c: Settings, s: Executor, t: Ticket)
    requires c.Valid() && t.Convertible() && Handle(o, c, s, t).1 == Err(RpcFailed)
    ensures var s', bid := Handle(o, c, s, t).0, c.calculator.CalculateReplacementGasPrice(t.VictimPrice(), t.network);
            && bid.Bid? && Extends(s'.log, s.log) && BidsSince(s'.log, s.log) != []
            && BidChain(c, t.opportunity, s.nextNonce, bid.price, BidsSince(s'.log, s.log))
  {
    BidChainSafety(o, c, s, t);
    ResultsAreExplained(o, c, s, t);
    hide Execute, Justified, BidChain, Calculator.CalculateReplacementGasPrice;
  }

  /** Below a representable hard cap the condition is on the history alone: one accepted bid, or a first price whose bump is
      a whole wei. */
  lemma LeavesEntryExactly(o: Oracle, c: Settings, s: Executor, t: Ticket)
    requires c.Valid() && t.Convertible() && Handle(o, c, s, t).1 == Err(RpcFailed)
    requires c.calculator.maxGasPrice * WEI_PER_GWEI < U128_MAX as real
    ensures var s', bid := Handle(o, c, s, t).0, c.calculator.CalculateReplacementGasPrice(t.VictimPrice(), t.network);
            && bid.Bid? && Extends(s'.log, s.log)
            && (LeavesEntry(c, t, s, s')
                <==> |BidsSince(s'.log, s.log)| == 1 || WholeWeiBump(bid.price, c.calculator.replacementBump))
  {
    ErrorAfterBids(o, c, s, t);
    hide Handle, BidChain, HasEntry, WholeWeiBump, Calculator.CalculateReplacementGasPrice;
    var s' := Handle(o, c, s, t).0;
    var first := c.calculator.CalculateReplacementGasPrice(t.VictimPrice(), t.network).price;
    EntryByFirstBump(c, t.opportunity, s.nextNonce, first, BidsSince(s'.log, s.log));
  }

  /** The bump of the configured minimum price is a whole wei, so the bump of every bid is. */
  predicate BumpsAreEffective(c: Settings) {
    && c.calculator.maxGasPrice * WEI_PER_GWEI < U128_MAX as real
    && WholeWeiBump(FloorToU128(c.calculator.minGasPrice * WEI_PER_GWEI), c.calculator.replacementBump)
  }

  lemma EffectiveBid(c: Settings, t: Ticket)
    requires c.Valid() && t.Convertible() && BumpsAreEffective(c)
    requires c.calculator.CalculateReplacementGasPrice(t.VictimPrice(), t.network).Bid?
    ensures WholeWeiBump(c.calculator.CalculateReplacementGasPrice(t.VictimPrice(), t.network).price, c.calculator.replacementBump)
  {
    BidIsLargestOfThree(c.calculator, t.VictimPrice(), t.network);
    hide WholeWeiBump, Calculator.CalculateReplacementGasPrice, NextBid;
    WholeWeiMonotone(FloorToU128(c.calculator.minGasPrice * WEI_PER_GWEI),
                     c.calculator.CalculateReplacementGasPrice(t.VictimPrice(), t.network).price,
                     c.calculator.replacementBump);
  }

  function RpcErrors(results: seq<RunResult>): nat {
    if results == [] then 0
    else RpcErrors(results[..|results| - 1]) + if results[|results| - 1] == Err(RpcFailed) then 1 else 0
  }

  lemma RpcErrorsAppend(results: seq<RunResult>, result: RunResult)
    ensures RpcErrors(results + [result]) == RpcErrors(results) + if result == Err(RpcFailed) then 1 else 0
  {
    assert (results + [result])[..|results|] == results;
  }

  /** Then the table has exactly one entry for every receipt error. */
  lemma {:induction false} EveryErrorLeavesEntry(o: Oracle, c: Settings, s: Executor, tickets: seq<Ticket>)
    requires c.Valid() && AllConvertible(tickets) && BumpsAreEffective(c)
    ensures Leftovers(o, c, s, tickets) == RpcErrors(HandleAll(o, c, s, tickets).1)
  {
    hide Handle, LeavesEntry, RpcErrors, WholeWeiBump, Calculator.CalculateReplacementGasPrice;
    if tickets != [] {
      var front, t := tickets[..|tickets| - 1], tickets[|tickets| - 1];
      EveryErrorLeavesEntry(o, c, s, front);
      var (s1, results) := HandleAll(o, c, s, front);
      RpcErrorsAppend(results, Handle(o, c, s1, t).1);
      if Handle(o, c, s1, t).1 == Err(RpcFailed) {
        LeavesEntryExactly(o, c, s1, t);
        EffectiveBid(c, t);
      }
    } else {
      assert RpcErrors([]) == 0 by { NoErrors(); }
    }
  }

  lemma NoErrors()
    ensures RpcErrors([]) == 0
  {
  }
}
