/** Runs that show what the exact conditions of the other modules leave open: worlds in which a bump is lost, a bid is
    dropped at the worst moment, or a bid that is no longer polled is mined. */
module Scenarios {
  import opened Units
  import opened GasAuction
  import opened Transactions
  import opened Profitability
  import opened Environment
  import opened Nonces
  import opened Opportunities
  import opened Safety
  import opened Replacement
  import opened PendingTable
  import opened GuardRuns
  import opened Outcomes
  import opened DroppedBids

  /** For n interactions nothing takes time, signing works and the node accepts. */
  predicate Calm(o: Oracle, from: nat, n: nat) {
    forall k: nat :: from <= k < from + n ==> o(k).delay == 0 && o(k).signs && o(k).accepts
  }

  /** A bid at this price passes the safety check, and the spend window is not due for a restart until a poll interval from
      now. */
  predicate Clear(c: Settings, s: Executor, opp: ScoredOpportunity, price: U128) {
    && !c.limits.emergencyStop && !BreakerOpen(c.limits, s.guard)
    && WeiToGwei(price) <= c.limits.softGasCap && opp.profitability.IsProfitable(c.limits.minProfitThreshold)
    && Affordable(opp) && SaturatingAdd128(s.guard.dailySpendWei, opp.profitability.replacementGasCostWei) <= c.limits.SpendLimitWei()
    && s.world.clock + c.Poll() - s.guard.spendDayStarted < DAY
  }

  function Later(s: Executor, time: nat, calls: nat): Executor {
    s.(world := World(s.world.clock + time, s.world.calls + calls))
  }

  lemma CheckPasses(o: Oracle, c: Settings, s: Executor, opp: ScoredOpportunity, price: U128, time: nat, calls: nat)
    requires Clear(c, s, opp, price) && time <= c.Poll() && Calm(o, s.world.calls + calls, 1)
    ensures Check(o, c, Later(s, time, calls), opp, price) == (Pass, Later(s, time, calls + 1))
  {
    assert o(s.world.calls + calls).delay == 0;
  }

  /** The executor right after its first bid was accepted. */
  function AfterLaunch(c: Settings, s: Executor, opp: ScoredOpportunity, price: U128): Executor {
    var tx := Transaction(c, opp, s.nextNonce, price);
    Later(s, 0, 3).(nextNonce := NextNonce(s.nextNonce), pending := s.pending[tx := PendingSubmission(s.nextNonce, price, 0)],
                    log := s.log + [Accepted(tx, true)])
  }

  lemma CalmStart(o: Oracle, c: Settings, s: Executor, t: Ticket, price: U128)
    requires t.Convertible() && s.synced && Calm(o, s.world.calls, 3) && Clear(c, s, t.opportunity, price)
    requires c.calculator.CalculateReplacementGasPrice(t.VictimPrice(), t.network) == Bid(price)
    ensures Start(o, c, s, t)
            == Launched(AfterLaunch(c, s, t.opportunity, price), Transaction(c, t.opportunity, s.nextNonce, price))
  {
    CheckPasses(o, c, s, t.opportunity, price, 0, 0);
    hide Check, Calculator.CalculateReplacementGasPrice, Transaction, Clear;
    assert Later(s, 0, 0) == s;
    assert Calm(o, s.world.calls + 1, 1) && Calm(o, s.world.calls + 2, 1);
    assert o(s.world.calls + 1).delay == 0 && o(s.world.calls + 2).delay == 0;
  }

  function NextEntry(entry: PendingSubmission, price: U128): PendingSubmission {
    PendingSubmission(entry.nonce, price, entry.replacementAttempts + 1)
  }

  lemma CalmReplace(o: Oracle, c: Settings, s: Executor, entry: PendingSubmission, opp: ScoredOpportunity, price: U128, calls: nat)
    requires Calm(o, s.world.calls + calls, 3) && Clear(c, s, opp, price)
    requires c.calculator.ApplyAdditionalBump(entry.gasPrice) == Bid(price)
    ensures var tx, s4 := Transaction(c, opp, entry.nonce, price), Later(s, c.Poll(), calls);
            Replace(o, c, s4, entry, opp)
            == (Later(s, c.Poll(), calls + 3).(pending := s.pending[tx := NextEntry(entry, price)], log := s.log + [Accepted(tx, false)]),
                Some(tx))
  {
    hide Check, Calculator.ApplyAdditionalBump, Transaction, Clear, Settings.Poll;
    CheckPasses(o, c, s, opp, price, c.Poll(), calls);
    assert Calm(o, s.world.calls + calls + 1, 1) && Calm(o, s.world.calls + calls + 2, 1);
    assert o(s.world.calls + calls + 1).delay == 0 && o(s.world.calls + calls + 2).delay == 0;
  }

  /** The executor after a round in which the polled bid was replaced. */
  function AfterReplacement(c: Settings, s: Executor, current: TxHash, opp: ScoredOpportunity, price: U128): Executor
    requires current in s.pending
  {
    var tx := Transaction(c, opp, s.pending[current].nonce, price);
    Later(s, c.Poll(), 7).(pending := s.pending[tx := NextEntry(s.pending[current], price)] - {current},
                           log := s.log + [Accepted(tx, false)])
  }

  /** A round without a receipt replaces the bid, if the next price is allowed. */
  lemma ReplacingRound(o: Oracle, c: Settings, s: Executor, current: TxHash, deadline: nat, opp: ScoredOpportunity, price: U128)
    requires Calm(o, s.world.calls, 7) && Clear(c, s, opp, price) && s.world.clock < deadline
    requires current in s.pending && s.pending[current].replacementAttempts < 3
    requires c.calculator.ApplyAdditionalBump(s.pending[current].gasPrice) == Bid(price)
    requires o(s.world.calls + 1).receipt(current).NotMined? && o(s.world.calls + 3).receipt(current).NotMined?
    ensures Iterate(o, c, s, current, deadline, opp)
            == Again(AfterReplacement(c, s, current, opp, price), Transaction(c, opp, s.pending[current].nonce, price))
    ensures RoundPolls(o, c, s, current, deadline)
            == [Poll(s.world.calls + 1, current, true, s.world.clock),
                Poll(s.world.calls + 3, current, false, s.world.clock + c.Poll())]
  {
    hide Replace, Calculator.ApplyAdditionalBump, Transaction, Clear, Settings.Poll;
    assert Calm(o, s.world.calls + 4, 3);
    CalmReplace(o, c, s, s.pending[current], opp, price, 4);
    assert o(s.world.calls).delay == 0 && o(s.world.calls + 1).delay == 0 && o(s.world.calls + 2).delay == 0
           && o(s.world.calls + 3).delay == 0;
    assert Rest(o, c, Later(s, 0, 2)) == Later(s, c.Poll(), 3);
  }

  // A bump that is lost

  /** Agreeable in everything, except that the receipt request at one interaction fails. */
  function FailsAt(call: nat): Oracle {
    k => Reply(0, true, true, (hash: TxHash) => if k == call then RpcError else NotMined)
  }

  lemma SameBidAgain(c: Calculator, price: U128)
    requires c.Valid() && !WholeWeiBump(price, c.replacementBump) && c.ApplyAdditionalBump(price).Bid?
    ensures c.ApplyAdditionalBump(price) == Bid(price)
  {
    AdditionalBump(c, price);
    BumpRaises(price, c.replacementBump);
    hide WholeWeiBump, NextBid, Calculator.ApplyAdditionalBump;
  }

  /** The last round: the receipt cannot be fetched. */
  lemma FailingRound(c: Settings, s: Executor, current: TxHash, deadline: nat, opp: ScoredOpportunity, call: nat)
    requires Affordable(opp) && call == s.world.calls + 1 && s.world.clock < deadline
    ensures Monitor(FailsAt(call), c, s, current, deadline, opp) == Run(Later(s, 0, 2), Err(RpcFailed), 1)
  {
  }

  lemma OneRoundMore(o: Oracle, c: Settings, s: Executor, s': Executor, current: TxHash, next: TxHash, deadline: nat,
                     opp: ScoredOpportunity)
    requires Affordable(opp) && Iterate(o, c, s, current, deadline, opp) == Again(s', next)
    ensures var run := Monitor(o, c, s', next, deadline, opp);
            Monitor(o, c, s, current, deadline, opp) == run.(rounds := run.rounds + 1)
    ensures Polls(o, c, s, current, deadline, opp)
            == RoundPolls(o, c, s, current, deadline) + Polls(o, c, s', next, deadline, opp)
  {
    hide Iterate, RoundPolls;
  }

  lemma ReplacedBySame(c: Settings, s: Executor, current: TxHash, opp: ScoredOpportunity, base: map<TxHash, PendingSubmission>)
    requires current in s.pending && OnlyCurrent(base, s.pending, current)
    requires current == Transaction(c, opp, s.pending[current].nonce, s.pending[current].gasPrice)
    ensures AfterReplacement(c, s, current, opp, s.pending[current].gasPrice).pending == base
  {
    var entry := NextEntry(s.pending[current], s.pending[current].gasPrice);
    assert s.pending[current := entry] - {current} == s.pending - {current};
  }

  lemma LostBumpMonitored(c: Settings, s: Executor, current: TxHash, deadline: nat, opp: ScoredOpportunity,
                          base: map<TxHash, PendingSubmission>)
    requires current in s.pending && OnlyCurrent(base, s.pending, current) && s.pending[current].replacementAttempts == 0
    requires current == Transaction(c, opp, s.pending[current].nonce, s.pending[current].gasPrice)
    requires c.calculator.ApplyAdditionalBump(s.pending[current].gasPrice) == Bid(s.pending[current].gasPrice)
    requires Clear(c, s, opp, s.pending[current].gasPrice) && s.world.clock + c.Poll() < deadline
    ensures var run := Monitor(FailsAt(s.world.calls + 8), c, s, current, deadline, opp);
            && run.result == Err(RpcFailed) && run.state.pending == base
            && run.state.log == s.log + [Accepted(current, false)]
  {
    var o, price := FailsAt(s.world.calls + 8), s.pending[current].gasPrice;
    ReplacingRound(o, c, s, current, deadline, opp, price);
    ReplacedBySame(c, s, current, opp, base);
    var s' := AfterReplacement(c, s, current, opp, price);
    OneRoundMore(o, c, s, s', current, current, deadline, opp);
    FailingRound(c, s', current, deadline, opp, s.world.calls + 8);
    hide Iterate, Monitor, Polls, RoundPolls, Clear, OnlyCurrent, Transaction, Settings.Poll, Calculator.ApplyAdditionalBump;
  }

  /** A first bid that can be made and checked from this state, and the loop has time for a second round. */
  predicate Ready(c: Settings, s: Executor, t: Ticket, price: U128) {
    && c.Valid() && t.Convertible() && s.synced && NonceUnused(s.pending, s.nextNonce)
    && c.calculator.CalculateReplacementGasPrice(t.VictimPrice(), t.network) == Bid(price)
    && Clear(c, s, t.opportunity, price) && c.Poll() < c.TimeoutSecs() * SECOND
  }

  function FirstBid(c: Settings, s: Executor, t: Ticket, price: U128): TxHash {
    Transaction(c, t.opportunity, s.nextNonce, price)
  }

  function Deadline(c: Settings, s: Executor): nat {
    s.world.clock + c.TimeoutSecs() * SECOND
  }

  /** The state in which the loop starts. */
  function LoopStart(c: Settings, s: Executor, t: Ticket, price: U128): Executor {
    Later(AfterLaunch(c, s, t.opportunity, price), 0, 1)
  }

  lemma LoopStartHolds(c: Settings, s: Executor, t: Ticket, price: U128)
    requires NonceUnused(s.pending, s.nextNonce) && Clear(c, s, t.opportunity, price)
    ensures var s1, tx := LoopStart(c, s, t, price), FirstBid(c, s, t, price);
            && s1.world == World(s.world.clock, s.world.calls + 4) && s1.guard == s.guard
            && tx in s1.pending && s1.pending[tx] == PendingSubmission(s.nextNonce, price, 0)
            && OnlyCurrent(s.pending, s1.pending, tx) && Clear(c, s1, t.opportunity, price)
            && s1.log == s.log + [Accepted(tx, true)]
  {
    var tx := FirstBid(c, s, t, price);
    assert tx.nonce == s.nextNonce;
    assert s.pending[tx := PendingSubmission(s.nextNonce, price, 0)] - {tx} == s.pending;
  }

  lemma CalmExecution(o: Oracle, c: Settings, s: Executor, t: Ticket, price: U128)
    requires Ready(c, s, t, price) && Calm(o, s.world.calls, 4)
    ensures var s1, tx := LoopStart(c, s, t, price), FirstBid(c, s, t, price);
            && Execute(o, c, s, t) == Monitor(o, c, s1, tx, Deadline(c, s), t.opportunity)
            && ExecutionPolls(o, c, s, t) == Polls(o, c, s1, tx, Deadline(c, s), t.opportunity)
  {
    hide Start, Monitor, Polls, Transaction, Clear, NonceUnused, Settings.Valid, Settings.TimeoutSecs, Settings.Poll,
      Calculator.CalculateReplacementGasPrice;
    assert Calm(o, s.world.calls, 3) && o(s.world.calls + 3).delay == 0;
    CalmStart(o, c, s, t, price);
  }

  /** Whenever the bump of a first bid is less than a wei, some world accepts that bid twice and fails the next receipt
      request: the run ends on that error and leaves nothing in the table. */
  lemma LostBumpLeavesNothing(c: Settings, s: Executor, t: Ticket, price: U128) returns (o: Oracle)
    requires Ready(c, s, t, price) && !WholeWeiBump(price, c.calculator.replacementBump)
    requires c.calculator.ApplyAdditionalBump(price).Bid?
    ensures var (s', result) := Handle(o, c, s, t);
            && result == Err(RpcFailed) && s'.pending == s.pending
            && var tx := FirstBid(c, s, t, price); s'.log == s.log + [Accepted(tx, true), Accepted(tx, false)]
  {
    hide Execute, Monitor, Polls, ExecutionPolls, LoopStart, Clear, OnlyCurrent, Transaction, WholeWeiBump, NonceUnused,
      Calculator.ApplyAdditionalBump, Calculator.CalculateReplacementGasPrice, Settings.Poll, Settings.TimeoutSecs;
    o := FailsAt(s.world.calls + 12);
    SameBidAgain(c.calculator, price);
    LoopStartHolds(c, s, t, price);
    CalmExecution(o, c, s, t, price);
    var tx := FirstBid(c, s, t, price);
    LostBumpMonitored(c, LoopStart(c, s, t, price), tx, Deadline(c, s), t.opportunity, s.pending);
    assert s.log + [Accepted(tx, true)] + [Accepted(tx, false)] == s.log + [Accepted(tx, true), Accepted(tx, false)];
  }

  // A drop

  /** Agreeable, but one interaction takes this long; from some interaction on, one hash has a receipt. */
  function Delayed(call: nat, delay: nat, mined: nat, first: TxHash): Oracle {
    k => Reply(if k == call then delay else 0, true, true,
               (hash: TxHash) => if hash == first && k >= mined then Mined(Some(1), Some(21000)) else NotMined)
  }

  /** Whenever a first bid can be made, some world lets the deadline pass before the first round. */
  lemma DroppedAtOnce(c: Settings, s: Executor, t: Ticket, price: U128) returns (o: Oracle)
    requires Ready(c, s, t, price)
    ensures var (s', result) := Handle(o, c, s, t);
            && result == Ok(Dropped(FirstBid(c, s, t, price), c.TimeoutSecs()))
            && s'.guard.consecutiveFailures == (s.guard.consecutiveFailures + 2) % U32_SIZE
  {
    hide Execute, ExecutionPolls, Polls, Clear, OnlyCurrent, Transaction, Iterate, NonceUnused, Settings.TimeoutSecs,
      Calculator.CalculateReplacementGasPrice;
    var tx := FirstBid(c, s, t, price);
    o := Delayed(s.world.calls + 4, Deadline(c, s), s.world.calls + 5, tx);
    LoopStartHolds(c, s, t, price);
    CalmExecution(o, c, s, t, price);
    LateRound(o, c, LoopStart(c, s, t, price), tx, Deadline(c, s), t.opportunity);
    HandleCounter(o, c, s, t);
  }

  // A bid that is no longer polled

  lemma HigherBid(c: Settings, opp: ScoredOpportunity, nonce: U64, price: U128)
    requires c.Valid() && c.calculator.ApplyAdditionalBump(price).Bid? && WholeWeiBump(price, c.calculator.replacementBump)
    requires price < U128_MAX
    ensures Transaction(c, opp, nonce, c.calculator.ApplyAdditionalBump(price).price) != Transaction(c, opp, nonce, price)
  {
    AdditionalBump(c.calculator, price);
    BumpRaises(price, c.calculator.replacementBump);
    PriceOfTransaction(c, opp, nonce, price);
    PriceOfTransaction(c, opp, nonce, c.calculator.ApplyAdditionalBump(price).price);
    hide WholeWeiBump, NextBid, Calculator.ApplyAdditionalBump, Transaction;
  }

  lemma DelayedPersists(call: nat, delay: nat, mined: nat, first: TxHash)
    ensures ReceiptsPersist(Delayed(call, delay, mined, first))
  {
  }

  /** Whenever a first bid can be made and then raised, some world mines it right after it was replaced: no receipt is ever
      seen, and the run reports its replacement as dropped. */
  lemma ReplacedBidMined(c: Settings, s: Executor, t: Ticket, price: U128, next: U128) returns (o: Oracle)
    requires Ready(c, s, t, price) && price < U128_MAX && WholeWeiBump(price, c.calculator.replacementBump)
    requires c.calculator.ApplyAdditionalBump(price) == Bid(next) && Clear(c, s, t.opportunity, next)
    ensures ReceiptsPersist(o)
    ensures var run, first, second := Execute(o, c, s, t), FirstBid(c, s, t, price), FirstBid(c, s, t, next);
            && run.result == Ok(Dropped(second, c.TimeoutSecs())) && second != first
            && run.state.log == s.log + [Accepted(first, true), Accepted(second, false)]
            && run.state.world.calls == s.world.calls + 12 && o(s.world.calls + 11).receipt(first).Mined?
            && !SawReceipt(o, ExecutionPolls(o, c, s, t))
  {
    hide Execute, ExecutionPolls, Monitor, Polls, RoundPolls, Clear, OnlyCurrent, Transaction, Iterate, WholeWeiBump, NonceUnused,
      LoopStart, ReceiptsPersist, SawReceipt, Calculator.ApplyAdditionalBump, Calculator.CalculateReplacementGasPrice,
      Settings.Poll, Settings.TimeoutSecs;
    var first, second, deadline := FirstBid(c, s, t, price), FirstBid(c, s, t, next), Deadline(c, s);
    HigherBid(c, t.opportunity, s.nextNonce, price);
    o := Delayed(s.world.calls + 11, deadline, s.world.calls + 11, first);
    DelayedPersists(s.world.calls + 11, deadline, s.world.calls + 11, first);
    LoopStartHolds(c, s, t, price);
    CalmExecution(o, c, s, t, price);
    var s1 := LoopStart(c, s, t, price);
    StillClear(c, s, s1, t.opportunity, next);
    ReplacedThenLate(o, c, s1, first, second, deadline, t.opportunity, next);
    assert s.log + [Accepted(first, true)] + [Accepted(second, false)] == s.log + [Accepted(first, true), Accepted(second, false)];
  }

  lemma ReplacedThenLate(o: Oracle, c: Settings, s: Executor, first: TxHash, second: TxHash, deadline: nat, opp: ScoredOpportunity,
                         price: U128)
    requires Affordable(opp) && s.world.clock < deadline
    requires Calm(o, s.world.calls, 7) && o(s.world.calls + 7).delay >= deadline
    requires first in s.pending && s.pending[first].replacementAttempts < MAX_REPLACEMENT_ATTEMPTS
    requires Clear(c, s, opp, price) && c.calculator.ApplyAdditionalBump(s.pending[first].gasPrice) == Bid(price)
    requires second == Transaction(c, opp, s.pending[first].nonce, price)
    requires o(s.world.calls + 1).receipt(first).NotMined? && o(s.world.calls + 3).receipt(first).NotMined?
    ensures var run := Monitor(o, c, s, first, deadline, opp);
            && run.result == Ok(Dropped(second, c.TimeoutSecs())) && run.state.world.calls == s.world.calls + 8
            && run.state.log == s.log + [Accepted(second, false)]
    ensures !SawReceipt(o, Polls(o, c, s, first, deadline, opp))
  {
    hide Monitor, Polls, RoundPolls, Clear, Transaction, Iterate, SawReceipt, Calculator.ApplyAdditionalBump, Settings.Poll,
      Settings.TimeoutSecs;
    ReplacingRound(o, c, s, first, deadline, opp, price);
    var s' := AfterReplacement(c, s, first, opp, price);
    OneRoundMore(o, c, s, s', first, second, deadline, opp);
    LateRound(o, c, s', second, deadline, opp);
    NothingSeen(o, first, s.world.calls, s.world.clock, s.world.clock + c.Poll());
  }

  lemma StillClear(c: Settings, s: Executor, s1: Executor, opp: ScoredOpportunity, price: U128)
    requires Clear(c, s, opp, price) && s1.guard == s.guard && s1.world.clock == s.world.clock
    ensures Clear(c, s1, opp, price)
  {
  }

  lemma NothingSeen(o: Oracle, first: TxHash, calls: nat, sent: nat, resent: nat)
    requires o(calls + 1).receipt(first).NotMined? && o(calls + 3).receipt(first).NotMined?
    ensures !SawReceipt(o, [Poll(calls + 1, first, true, sent), Poll(calls + 3, first, false, resent)] + [])
  {
  }

  // With numbers

  /** A bump of 10 percent, no minimum price, a hard cap of 100 and a soft cap of 50 gwei, one ETH a day, an enabled breaker
      with the largest possible maximum, a timeout of 2 s and a poll interval of 1 s. */
  function ExampleSettings(): Settings {
    Settings(1, Calculator(10.0, 0.0, 100.0, 50.0), Limits(true, U32_SIZE - 1, 1.0, 1.0, false, 50.0), 2, 1)
  }

  function ExampleState(failures: U32): Executor {
    Executor(7, true, Guard(failures, 0, 0, []), map[], World(0, 0), [])
  }

  /** A victim that pays 1 wei for each of 21000 units of gas, under this base fee. */
  function ExampleTicket(baseFee: U128): Ticket {
    var transfer := ParsedTransaction(None, 2_100_000, 21000, Some(1), None, [], Legacy, None);
    var analysis := ProfitabilityAnalysis(42000, 21000, 21000, 0, 21000, Finite(100.0), None);
    Ticket(ScoredOpportunity(transfer, analysis, 0, GasReplacement, Points(80.0)), NetworkState(baseFee, 0))
  }

  lemma ExampleEvaluated(baseFee: U128)
    ensures Evaluated(Criteria(1.0, 10.0, 100, 0, 0.0), ExampleTicket(baseFee).opportunity)
  {
    var tx := ExampleTicket(baseFee).opportunity.pending;
    assert tx.EffectiveGasPrice() == 1 && InferDexQuotes(tx, 0.0) == [];
    ExampleCost();
    ExampleRoi();
    hide NextBid, RoiPercent;
  }

  lemma ExampleCost()
    ensures NextBid(1, 10.0) == 1
  {
  }

  lemma ExampleRoi()
    ensures EthRepresentable(42000) && EthRepresentable(21000) && RoiPercent(42000, 21000) == Finite(100.0)
  {
    assert 21000 / WEI == 0 && 42000 / WEI == 0;
    assert WeiToEth(21000) == 21000.0 / WEI_PER_ETH && WeiToEth(42000) == 42000.0 / WEI_PER_ETH;
  }

  lemma ExampleReady(failures: U32, baseFee: U128)
    requires 1 <= baseFee <= 1000 && failures < U32_SIZE - 1
    ensures Ready(ExampleSettings(), ExampleState(failures), ExampleTicket(baseFee), baseFee)
  {
    var c := ExampleSettings();
    BidIsLargestOfThree(c.calculator, 1, ExampleTicket(baseFee).network);
    ExampleCost();
    hide NextBid;
    assert FloorToU128(c.calculator.minGasPrice * WEI_PER_GWEI) == 0;
    assert ApplyPercent(10.0, WeiToGwei(1)) <= 100.0;
    assert c.limits.SpendLimitWei() == 1_000_000_000_000_000_000;
  }

  lemma ExampleBump(price: U128, next: U128)
    requires (price == next == 5) || (price == 20 && next == 22)
    ensures ExampleSettings().calculator.ApplyAdditionalBump(price) == Bid(next)
    ensures WholeWeiBump(price, 10.0) <==> price == 20
  {
    BumpThroughGwei(price, 10.0);
    assert ApplyPercent(10.0, WeiToGwei(price)) <= 100.0;
  }

  lemma ExampleClear(price: U128)
    requires 1 <= price <= 1000
    ensures Clear(ExampleSettings(), ExampleState(0), ExampleTicket(1).opportunity, price)
  {
    assert ExampleSettings().limits.SpendLimitWei() == 1_000_000_000_000_000_000;
  }

  /** A receipt error that leaves no entry: a first bid of 5 wei, whose bump is lost. */
  lemma NoEntryLeft() returns (o: Oracle)
    ensures Evaluated(Criteria(1.0, 10.0, 100, 0, 0.0), ExampleTicket(5).opportunity) && ExampleTicket(5).Convertible()
    ensures var (s', result) := Handle(o, ExampleSettings(), ExampleState(0), ExampleTicket(5));
            result == Err(RpcFailed) && s'.pending == map[]
  {
    hide Handle, Evaluated, Ready, WholeWeiBump, Calculator.ApplyAdditionalBump;
    ExampleEvaluated(5);
    ExampleReady(0, 5);
    ExampleBump(5, 5);
    o := LostBumpLeavesNothing(ExampleSettings(), ExampleState(0), ExampleTicket(5), 5);
  }

  /** The wrap of the failure counter: one drop takes it from 2^32 - 2 to 0, and the breaker that should open stays closed. */
  lemma BreakerForgets() returns (o: Oracle)
    ensures ExampleTicket(5).Convertible()
    ensures var c, s := ExampleSettings(), ExampleState(U32_SIZE - 2);
            var (s', result) := Handle(o, c, s, ExampleTicket(5));
            && IsDrop(result) && c.limits.circuitBreakerEnabled
            && s'.guard.consecutiveFailures == 0 && !BreakerOpen(c.limits, s'.guard)
  {
    hide Handle, Ready;
    ExampleReady(U32_SIZE - 2, 5);
    o := DroppedAtOnce(ExampleSettings(), ExampleState(U32_SIZE - 2), ExampleTicket(5), 5);
    WrappedDropForgets(o, ExampleSettings(), ExampleState(U32_SIZE - 2), ExampleTicket(5));
  }

  /** A bid of 20 wei is mined after it was replaced by one of 22, and the run reports a drop without having seen it. */
  lemma DropHidesMinedBid() returns (o: Oracle)
    ensures ReceiptsPersist(o) && ExampleTicket(20).Convertible()
    ensures var c, s, t := ExampleSettings(), ExampleState(0), ExampleTicket(20);
            && IsDrop(Execute(o, c, s, t).result) && !SawReceipt(o, ExecutionPolls(o, c, s, t))
            && o(11).receipt(FirstBid(c, s, t, 20)).Mined?
  {
    hide Execute, ExecutionPolls, Ready, Clear, WholeWeiBump, ReceiptsPersist, SawReceipt, Calculator.ApplyAdditionalBump;
    ExampleReady(0, 20);
    ExampleBump(20, 22);
    ExampleClear(22);
    o := ReplacedBidMined(ExampleSettings(), ExampleState(0), ExampleTicket(20), 20, 22);
  }
}
