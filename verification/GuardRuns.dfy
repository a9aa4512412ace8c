/** The circuit breaker, the spend window and the nonce counter over one handled opportunity. */
module GuardRuns {
  import opened Units
  import opened GasAuction
  import opened Environment
  import opened Opportunities
  import opened Safety
  import opened Replacement

  // Failure counter

  lemma PreflightKeepsCounter(o: Oracle, c: Settings, s: Executor, opp: ScoredOpportunity, price: U128)
    requires Affordable(opp)
    ensures Check(o, c, s, opp, price).1.guard.consecutiveFailures == s.guard.consecutiveFailures
  {
  }

  lemma ReplaceKeepsCounter(o: Oracle, c: Settings, s: Executor, entry: PendingSubmission, opp: ScoredOpportunity)
    requires Affordable(opp)
    ensures var s' := Replace(o, c, s, entry, opp).0;
            s'.guard.consecutiveFailures == s.guard.consecutiveFailures && s'.nextNonce == s.nextNonce
  {
    var bid := c.calculator.ApplyAdditionalBump(entry.gasPrice);
    if bid.Bid? {
      PreflightKeepsCounter(o, c, s, opp, bid.price);
    }
    hide Preflight, Calculator.ApplyAdditionalBump;
  }

  /** The counter after an executor run with this result: a confirmation clears it, a drop or refusal adds one. */
  function ExecutorCount(count: U32, result: RunResult): U32 {
    match result
    case Ok(Confirmed(_, _, _)) => 0
    case Ok(Dropped(_, _)) => (count + 1) % U32_SIZE
    case Ok(Rejected) => (count + 1) % U32_SIZE
    case _ => count
  }

  lemma IterateCounter(o: Oracle, c: Settings, s: Executor, current: TxHash, deadline: nat, opp: ScoredOpportunity)
    requires Affordable(opp)
    ensures var i := Iterate(o, c, s, current, deadline, opp);
            && i.state.nextNonce == s.nextNonce
            && match i
               case Returned(s', result) => s'.guard.consecutiveFailures == ExecutorCount(s.guard.consecutiveFailures, result)
               case Again(s', _) => s'.guard.consecutiveFailures == s.guard.consecutiveFailures
  {
    var s2 := s.(world := Elapse(o, Elapse(o, s.world)));
    if current in s2.pending {
      var s4 := Rest(o, c, s2).(world := Elapse(o, Rest(o, c, s2).world));
      ReplaceKeepsCounter(o, c, s4, s2.pending[current], opp);
    }
    hide Replace;
  }

  lemma {:induction false} MonitorCounter(o: Oracle, c: Settings, s: Executor, current: TxHash, deadline: nat, opp: ScoredOpportunity)
    requires Affordable(opp)
    ensures var run := Monitor(o, c, s, current, deadline, opp);
            && run.state.nextNonce == s.nextNonce
            && run.state.guard.consecutiveFailures == ExecutorCount(s.guard.consecutiveFailures, run.result)
    decreases Max(deadline - s.world.clock, 0)
  {
    IterationRests(o, c, s, current, deadline, opp);
    IterateCounter(o, c, s, current, deadline, opp);
    hide Iterate;
    var i := Iterate(o, c, s, current, deadline, opp);
    if i.Again? {
      MonitorCounter(o, c, i.state, i.current, deadline, opp);
    }
  }

  /** The counter after a handled opportunity: the worker records a drop a second time. */
  function HandledCount(count: U32, result: RunResult): U32 {
    match result
    case Ok(Confirmed(_, _, _)) => 0
    case Ok(Dropped(_, _)) => (count + 2) % U32_SIZE
    case Ok(Rejected) => (count + 1) % U32_SIZE
    case _ => count
  }

  lemma StartCounter(o: Oracle, c: Settings, s: Executor, t: Ticket)
    requires t.Convertible()
    ensures match Start(o, c, s, t)
            case Stopped(s', result) => s'.guard.consecutiveFailures == ExecutorCount(s.guard.consecutiveFailures, result)
                                        && !IsDrop(result)
            case Launched(s', _) => s'.guard.consecutiveFailures == s.guard.consecutiveFailures
  {
    var bid := c.calculator.CalculateReplacementGasPrice(t.VictimPrice(), t.network);
    if bid.Bid? {
      PreflightKeepsCounter(o, c, s, t.opportunity, bid.price);
    }
    hide Preflight, Calculator.CalculateReplacementGasPrice;
  }

  lemma FollowUpCounter(o: Oracle, c: Settings, launch: Launch, opp: ScoredOpportunity)
    requires Affordable(opp) && launch.Launched?
    ensures var run := FollowUp(o, c, launch, opp);
            && run.state.nextNonce == launch.state.nextNonce
            && run.state.guard.consecutiveFailures == ExecutorCount(launch.state.guard.consecutiveFailures, run.result)
  {
    hide Monitor;
    var s1 := launch.state.(world := Elapse(o, launch.state.world));
    MonitorCounter(o, c, s1, launch.hash, s1.world.clock + c.TimeoutSecs() * SECOND, opp);
  }

  lemma HandleCounter(o: Oracle, c: Settings, s: Executor, t: Ticket)
    requires t.Convertible()
    ensures var (s', result) := Handle(o, c, s, t);
            s'.guard.consecutiveFailures == HandledCount(s.guard.consecutiveFailures, result)
  {
    hide Start, MonitorFromNow;
    StartCounter(o, c, s, t);
    var launch := Start(o, c, s, t);
    if launch.Launched? {
      FollowUpCounter(o, c, launch, t.opportunity);
    }
  }

  /** An open breaker (or an emergency stop) freezes the executor: nothing is signed, sent, recorded or even timed. */
  lemma OpenBreakerFreezes(o: Oracle, c: Settings, s: Executor, t: Ticket)
    requires t.Convertible() && (BreakerOpen(c.limits, s.guard) || c.limits.emergencyStop)
    ensures Handle(o, c, s, t).0 == s && Handle(o, c, s, t).1.Err?
  {
    hide Calculator.CalculateReplacementGasPrice, Monitor;
  }

  lemma WrappedByTwo(count: U32)
    ensures (count + 2) % U32_SIZE == if count < U32_SIZE - 2 then count + 2 else count + 2 - U32_SIZE
  {
  }

  /** The two failures of a drop are counted exactly unless the 32-bit counter wraps. */
  lemma DropCountsExactly(o: Oracle, c: Settings, s: Executor, t: Ticket)
    requires t.Convertible()
    ensures var (s', result) := Handle(o, c, s, t);
            IsDrop(result) ==>
              (s'.guard.consecutiveFailures == s.guard.consecutiveFailures + 2 <==> s.guard.consecutiveFailures < U32_SIZE - 2)
  {
    HandleCounter(o, c, s, t);
    WrappedByTwo(s.guard.consecutiveFailures);
    hide Handle;
  }

  /** With the maximum set to the largest 32-bit number, the drop that should open the breaker clears the counter. */
  lemma WrappedDropForgets(o: Oracle, c: Settings, s: Executor, t: Ticket)
    requires t.Convertible()
    requires c.limits.maxConsecutiveFailures == U32_SIZE - 1 && s.guard.consecutiveFailures == U32_SIZE - 2
    ensures var (s', result) := Handle(o, c, s, t);
            IsDrop(result) ==> s'.guard.consecutiveFailures == 0 && !BreakerOpen(c.limits, s'.guard)
  {
    HandleCounter(o, c, s, t);
    WrappedByTwo(s.guard.consecutiveFailures);
    hide Handle;
  }

  /** An enabled breaker opens, if it was closed, on every drop that reaches the maximum, exactly when the maximum cannot be
      skipped by the wrap. */
  lemma DropOpensBreaker(o: Oracle, c: Settings, s: Executor, t: Ticket)
    requires t.Convertible()
    requires c.limits.circuitBreakerEnabled && s.guard.consecutiveFailures < c.limits.maxConsecutiveFailures
    requires s.guard.consecutiveFailures + 2 >= c.limits.maxConsecutiveFailures
    ensures var (s', result) := Handle(o, c, s, t);
            IsDrop(result) ==>
              (BreakerOpen(c.limits, s'.guard)
               <==> c.limits.maxConsecutiveFailures < U32_SIZE - 1 || s.guard.consecutiveFailures < U32_SIZE - 2)
  {
    HandleCounter(o, c, s, t);
    WrappedByTwo(s.guard.consecutiveFailures);
    hide Handle;
  }

  // Spend window

  /** Recording any spend up to the gas limit stays within the daily limit exactly when the gas limit is reserved: an
      estimate that reserves less, as for a victim whose gas is free, would not do. */
  lemma SpendLimitExactly(o: Oracle, l: Limits, g: Guard, w: World, gasLimit: U128)
    requires SpendConsistent(l, g)
    ensures (forall spent: U128 :: spent <= gasLimit ==> SpendConsistent(l, SpendRecorded(o, g, w, spent).0))
            <==> Reserved(l, ResetIfNeeded(o, g, w).0, gasLimit)
  {
    hide ResetIfNeeded;
    ResetKeepsSpend(o, l, g, w, 0);
    var g1 := ResetIfNeeded(o, g, w).0;
    forall spent: U128 | spent <= gasLimit
      ensures SpendConsistent(l, SpendRecorded(o, g, w, spent).0) <==> Reserved(l, g1, spent)
    {
      assert (g1.recorded + [spent])[..|g1.recorded|] == g1.recorded;
    }
  }

  /** The most a receipt can report: no more than the gas limit, and a 128-bit number. */
  function MostGas(gasLimit: U256): U128 {
    Min(gasLimit, U128_MAX)
  }

  /** While one opportunity is monitored: the spend is consistent, and a reserve is kept that the polled bid cannot exceed. */
  predicate SpendReserved(c: Settings, opp: ScoredOpportunity, s: Executor, current: TxHash, reserve: nat) {
    && SpendConsistent(c.limits, s.guard)
    && Reserved(c.limits, s.guard, reserve)
    && current.gasLimit == opp.pending.gasLimit && MostGas(current.gasLimit) <= reserve
  }

  lemma ReplaceKeepsSpend(o: Oracle, c: Settings, s: Executor, entry: PendingSubmission, opp: ScoredOpportunity, reserve: nat)
    requires Affordable(opp) && SpendConsistent(c.limits, s.guard) && Reserved(c.limits, s.guard, reserve)
    ensures var (s', replacement) := Replace(o, c, s, entry, opp);
            && SpendConsistent(c.limits, s'.guard) && Reserved(c.limits, s'.guard, reserve)
            && (replacement.Some? ==> replacement.value.gasLimit == opp.pending.gasLimit)
  {
    var bid := c.calculator.ApplyAdditionalBump(entry.gasPrice);
    if bid.Bid? {
      PreflightReserves(o, c.limits, s.guard, s.world, opp.profitability, WeiToGwei(bid.price));
    }
    hide Preflight, SpendConsistent, Calculator.ApplyAdditionalBump;
  }

  lemma HonestSpend(o: Oracle, call: nat, hash: TxHash)
    requires HonestReceipts(o)
    ensures o(call).receipt(hash).GasUsed() <= MostGas(hash.gasLimit)
  {
  }

  /** A round keeps the reserve, and a round that ends the loop - by a receipt, a timeout or an error - leaves the spend
      consistent and within the limit, whether or not the window was reset on the way. */
  lemma IterateKeepsSpend(o: Oracle, c: Settings, s: Executor, current: TxHash, deadline: nat, opp: ScoredOpportunity, reserve: nat)
    requires Affordable(opp) && HonestReceipts(o) && SpendReserved(c, opp, s, current, reserve)
    ensures match Iterate(o, c, s, current, deadline, opp)
            case Returned(s', _) => SpendConsistent(c.limits, s'.guard)
            case Again(s', next) => SpendReserved(c, opp, s', next, reserve)
  {
    var s1 := s.(world := Elapse(o, s.world));
    var s2 := s1.(world := Elapse(o, s1.world));
    var receipt := o(s1.world.calls).receipt(current);
    HonestSpend(o, s1.world.calls, current);
    SpendWithinReserve(o, c.limits, SuccessRecorded(s2.guard), s2.world, receipt.GasUsed(), reserve);
    if current in s2.pending {
      var s4 := Rest(o, c, s2).(world := Elapse(o, Rest(o, c, s2).world));
      ReplaceKeepsSpend(o, c, s4, s2.pending[current], opp, reserve);
    }
    hide Replace, SpendRecorded, HonestReceipts, MostGas;
  }

  lemma {:induction false} MonitorKeepsSpend(o: Oracle, c: Settings, s: Executor, current: TxHash, deadline: nat,
                                             opp: ScoredOpportunity, reserve: nat)
    requires Affordable(opp) && HonestReceipts(o) && SpendReserved(c, opp, s, current, reserve)
    ensures SpendConsistent(c.limits, Monitor(o, c, s, current, deadline, opp).state.guard)
    decreases Max(deadline - s.world.clock, 0)
  {
    IterationRests(o, c, s, current, deadline, opp);
    IterateKeepsSpend(o, c, s, current, deadline, opp, reserve);
    hide Iterate, SpendReserved, SpendConsistent;
    var i := Iterate(o, c, s, current, deadline, opp);
    if i.Again? {
      MonitorKeepsSpend(o, c, i.state, i.current, deadline, opp, reserve);
    }
  }

  /** What a first bid leaves behind: the estimate is reserved. */
  lemma StartKeepsSpend(o: Oracle, c: Settings, s: Executor, t: Ticket)
    requires t.Convertible() && SpendConsistent(c.limits, s.guard)
    ensures match Start(o, c, s, t)
            case Stopped(s', _) => SpendConsistent(c.limits, s'.guard)
            case Launched(s', hash) =>
              && SpendConsistent(c.limits, s'.guard)
              && Reserved(c.limits, s'.guard, t.opportunity.profitability.replacementGasCostWei)
              && hash.gasLimit == t.opportunity.pending.gasLimit
  {
    var bid := c.calculator.CalculateReplacementGasPrice(t.VictimPrice(), t.network);
    if bid.Bid? {
      PreflightReserves(o, c.limits, s.guard, s.world, t.opportunity.profitability, WeiToGwei(bid.price));
    }
    hide Preflight, Calculator.CalculateReplacementGasPrice;
  }

  lemma FollowUpKeepsSpend(o: Oracle, c: Settings, launch: Launch, opp: ScoredOpportunity, reserve: nat)
    requires Affordable(opp) && launch.Launched? && HonestReceipts(o)
    requires SpendReserved(c, opp, launch.state, launch.hash, reserve)
    ensures SpendConsistent(c.limits, FollowUp(o, c, launch, opp).state.guard)
  {
    hide Monitor;
    var s1 := launch.state.(world := Elapse(o, launch.state.world));
    MonitorKeepsSpend(o, c, s1, launch.hash, s1.world.clock + c.TimeoutSecs() * SECOND, opp, reserve);
  }

  /** A handled opportunity keeps the recorded spend consistent and within the daily limit. */
  lemma HandleKeepsSpend(o: Oracle, c: Settings, s: Executor, t: Ticket)
    requires t.Convertible() && HonestReceipts(o)
    requires t.opportunity.pending.gasLimit <= t.opportunity.profitability.replacementGasCostWei
    requires SpendConsistent(c.limits, s.guard)
    ensures SpendConsistent(c.limits, Handle(o, c, s, t).0.guard)
  {
    hide Start, MonitorFromNow, HonestReceipts, SaturatedSum, Reserved;
    StartKeepsSpend(o, c, s, t);
    var launch := Start(o, c, s, t);
    if launch.Launched? {
      FollowUpKeepsSpend(o, c, launch, t.opportunity, t.opportunity.profitability.replacementGasCostWei);
    }
  }
}
