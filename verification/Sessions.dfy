/** Whole runs of the bot: any sequence of opportunities handled one after the other under the executor lock. */
module Sessions {
  import opened Units
  import opened GasAuction
  import opened Environment
  import opened Nonces
  import opened Opportunities
  import opened Safety
  import opened Replacement
  import opened GuardRuns

  predicate AllConvertible(tickets: seq<Ticket>) {
    forall i :: 0 <= i < |tickets| ==> tickets[i].Convertible()
  }

  /** The executor and the results after handling the tickets in order. */
  function HandleAll(o: Oracle, c: Settings, s: Executor, tickets: seq<Ticket>): (Executor, seq<RunResult>)
    requires AllConvertible(tickets)
  {
    if tickets == [] then (s, [])
    else
      var (s1, results) := HandleAll(o, c, s, tickets[..|tickets| - 1]);
      var (s2, result) := Handle(o, c, s1, tickets[|tickets| - 1]);
      (s2, results + [result])
  }

  /** The executor as initialize leaves it. */
  function Initial(nonce: U64, now: nat): Executor {
    Executor(nonce, true, Guard(0, 0, now, []), map[], World(now, 0), [])
  }

  // Circuit breaker

  function NextWeight(weight: nat, result: RunResult): nat {
    match result
    case Ok(Confirmed(_, _, _)) => 0
    case Ok(Dropped(_, _)) => weight + 2
    case Ok(Rejected) => weight + 1
    case _ => weight
  }

  /** The weighted number of failures since the last confirmation: a refusal weighs 1, a drop 2, an error nothing. */
  function FailureWeight(results: seq<RunResult>): nat {
    if results == [] then 0
    else NextWeight(FailureWeight(results[..|results| - 1]), results[|results| - 1])
  }

  lemma WeightAppend(results: seq<RunResult>, result: RunResult)
    ensures FailureWeight(results + [result]) == NextWeight(FailureWeight(results), result)
  {
    assert (results + [result])[..|results|] == results;
  }

  lemma WeightStep(weight: nat, result: RunResult)
    ensures HandledCount(weight % U32_SIZE, result) == NextWeight(weight, result) % U32_SIZE
  {
    WrappedSum(weight, 1);
    WrappedSum(weight, 2);
  }

  lemma WrappedSum(x: nat, y: nat)
    requires y <= 2
    ensures (x % U32_SIZE + y) % U32_SIZE == (x + y) % U32_SIZE
  {
  }

  lemma {:induction false} CounterIsFailureWeight(o: Oracle, c: Settings, s: Executor, tickets: seq<Ticket>)
    requires AllConvertible(tickets) && s.guard.consecutiveFailures == 0
    ensures var (s', results) := HandleAll(o, c, s, tickets);
            s'.guard.consecutiveFailures == FailureWeight(results) % U32_SIZE
  {
    if tickets != [] {
      var front, t := tickets[..|tickets| - 1], tickets[|tickets| - 1];
      CounterIsFailureWeight(o, c, s, front);
      var (s1, results) := HandleAll(o, c, s, front);
      HandleCounter(o, c, s1, t);
      WeightAppend(results, Handle(o, c, s1, t).1);
      WeightStep(FailureWeight(results), Handle(o, c, s1, t).1);
      hide Handle, FailureWeight, NextWeight, HandledCount;
    }
  }

  lemma BoundedStep(maximum: U32, weight: nat, result: RunResult)
    requires 1 <= maximum < U32_SIZE - 1 && weight <= maximum + 1 && (weight >= maximum ==> result.Err?)
    ensures HandledCount(weight, result) == NextWeight(weight, result) <= maximum + 1
  {
  }

  /** With the breaker enabled the count never wraps and never gets past the maximum plus one. */
  lemma {:induction false} BreakerBounded(o: Oracle, c: Settings, s: Executor, tickets: seq<Ticket>)
    requires AllConvertible(tickets) && s.guard.consecutiveFailures == 0
    requires c.limits.circuitBreakerEnabled && 1 <= c.limits.maxConsecutiveFailures < U32_SIZE - 1
    ensures var (s', results) := HandleAll(o, c, s, tickets);
            s'.guard.consecutiveFailures == FailureWeight(results) <= c.limits.maxConsecutiveFailures + 1
  {
    if tickets != [] {
      var front, t := tickets[..|tickets| - 1], tickets[|tickets| - 1];
      BreakerBounded(o, c, s, front);
      var (s1, results) := HandleAll(o, c, s, front);
      HandleCounter(o, c, s1, t);
      if BreakerOpen(c.limits, s1.guard) {
        OpenBreakerFreezes(o, c, s1, t);
      }
      WeightAppend(results, Handle(o, c, s1, t).1);
      BoundedStep(c.limits.maxConsecutiveFailures, FailureWeight(results), Handle(o, c, s1, t).1);
      hide Handle, FailureWeight, NextWeight, HandledCount;
    }
  }

  /** Once open, the breaker stays open: no later opportunity changes anything, and every one of them errs. */
  lemma {:induction false} BreakerLatches(o: Oracle, c: Settings, s: Executor, tickets: seq<Ticket>)
    requires AllConvertible(tickets) && BreakerOpen(c.limits, s.guard)
    ensures var (s', results) := HandleAll(o, c, s, tickets);
            s' == s && forall i :: 0 <= i < |results| ==> results[i].Err?
  {
    if tickets != [] {
      BreakerLatches(o, c, s, tickets[..|tickets| - 1]);
      OpenBreakerFreezes(o, c, s, tickets[|tickets| - 1]);
      hide Handle;
    }
  }

  // Spend window

  /** The estimate of every ticket covers its gas limit (see EstimatesCover). */
  predicate Covered(tickets: seq<Ticket>) {
    forall i :: 0 <= i < |tickets| ==>
      tickets[i].opportunity.pending.gasLimit <= tickets[i].opportunity.profitability.replacementGasCostWei
  }

  /** The tickets carry opportunities of a detector with the same bump, for transactions that pay for their gas. */
  predicate FromDetector(c: Settings, d: Criteria, tickets: seq<Ticket>) {
    && d.replacementBump == c.calculator.replacementBump
    && forall i :: 0 <= i < |tickets| ==> Evaluated(d, tickets[i].opportunity) && tickets[i].VictimPrice() >= 1
  }

  lemma EstimatesCover(c: Settings, d: Criteria, tickets: seq<Ticket>)
    requires c.Valid() && FromDetector(c, d, tickets)
    ensures Covered(tickets)
  {
    hide Evaluated;
    forall i | 0 <= i < |tickets|
      ensures tickets[i].opportunity.pending.gasLimit <= tickets[i].opportunity.profitability.replacementGasCostWei
    {
      EvaluatedCovers(d, tickets[i].opportunity);
    }
  }

  /** In every session the recorded spend is the saturated sum since the last reset and within the daily limit. */
  lemma {:induction false} SpendWithinLimit(o: Oracle, c: Settings, s: Executor, tickets: seq<Ticket>)
    requires AllConvertible(tickets) && Covered(tickets) && HonestReceipts(o)
    requires SpendConsistent(c.limits, s.guard)
    ensures SpendConsistent(c.limits, HandleAll(o, c, s, tickets).0.guard)
  {
    if tickets != [] {
      var front := tickets[..|tickets| - 1];
      SpendWithinLimit(o, c, s, front);
      HandleKeepsSpend(o, c, HandleAll(o, c, s, front).0, tickets[|tickets| - 1]);
      hide Handle, SpendConsistent, HonestReceipts;
    }
  }

  // Nonces

  /** The nonces used up by first broadcasts: the accepted ones and the ones whose signing failed. */
  function UsedNonces(log: seq<Event>): seq<U64> {
    if log == [] then []
    else
      var e := log[|log| - 1];
      UsedNonces(log[..|log| - 1]) + if e.first && !e.Refused? then [e.tx.nonce] else []
  }

  lemma UsedAppend(log: seq<Event>, e: Event)
    ensures UsedNonces(log + [e]) == UsedNonces(log) + if e.first && !e.Refused? then [e.tx.nonce] else []
  {
    assert (log + [e])[..|log|] == log;
  }

  lemma ReplaceUsesNone(o: Oracle, c: Settings, s: Executor, entry: PendingSubmission, opp: ScoredOpportunity)
    requires Affordable(opp)
    ensures UsedNonces(Replace(o, c, s, entry, opp).0.log) == UsedNonces(s.log)
  {
    hide Preflight, UsedNonces, Transaction, Calculator.ApplyAdditionalBump;
    var bid := c.calculator.ApplyAdditionalBump(entry.gasPrice);
    if bid.Bid? {
      var tx := Transaction(c, opp, entry.nonce, bid.price);
      UsedAppend(s.log, Unsigned(tx, false));
      UsedAppend(s.log, Refused(tx, false));
      UsedAppend(s.log, Accepted(tx, false));
    }
  }

  lemma IterateUsesNone(o: Oracle, c: Settings, s: Executor, current: TxHash, deadline: nat, opp: ScoredOpportunity)
    requires Affordable(opp)
    ensures UsedNonces(Iterate(o, c, s, current, deadline, opp).state.log) == UsedNonces(s.log)
  {
    hide Replace, UsedNonces;
    var s2 := s.(world := Elapse(o, Elapse(o, s.world)));
    if current in s2.pending {
      var s4 := Rest(o, c, s2).(world := Elapse(o, Rest(o, c, s2).world));
      ReplaceUsesNone(o, c, s4, s2.pending[current], opp);
    }
  }

  lemma {:induction false} MonitorUsesNone(o: Oracle, c: Settings, s: Executor, current: TxHash, deadline: nat, opp: ScoredOpportunity)
    requires Affordable(opp)
    ensures UsedNonces(Monitor(o, c, s, current, deadline, opp).state.log) == UsedNonces(s.log)
    decreases Max(deadline - s.world.clock, 0)
  {
    IterationRests(o, c, s, current, deadline, opp);
    IterateUsesNone(o, c, s, current, deadline, opp);
    hide Iterate, UsedNonces;
    var i := Iterate(o, c, s, current, deadline, opp);
    if i.Again? {
      MonitorUsesNone(o, c, i.state, i.current, deadline, opp);
    }
  }

  /** Either no nonce was used and the counter is back where it was, or exactly the next one was. */
  predicate NonceStep(s: Executor, s': Executor) {
    && s'.synced == s.synced
    && ((UsedNonces(s'.log) == UsedNonces(s.log) && s'.nextNonce == s.nextNonce)
        || (UsedNonces(s'.log) == UsedNonces(s.log) + [s.nextNonce] && s'.nextNonce == NextNonce(s.nextNonce)))
  }

  lemma StartNonces(o: Oracle, c: Settings, s: Executor, t: Ticket)
    requires t.Convertible()
    ensures var launch := Start(o, c, s, t);
            && NonceStep(s, launch.state)
            && (launch.Launched? ==> UsedNonces(launch.state.log) == UsedNonces(s.log) + [s.nextNonce])
            && (launch.Stopped? ==> launch.result != Err(RpcFailed))
  {
    var bid := c.calculator.CalculateReplacementGasPrice(t.VictimPrice(), t.network);
    if bid.Bid? {
      var tx := Transaction(c, t.opportunity, s.nextNonce, bid.price);
      UsedAppend(s.log, Unsigned(tx, true));
      UsedAppend(s.log, Refused(tx, true));
      UsedAppend(s.log, Accepted(tx, true));
      ReleaseUndoesAllocate(s.nextNonce);
    }
    hide Preflight, UsedNonces, Calculator.CalculateReplacementGasPrice;
  }

  lemma {:induction false} MonitorKeepsSync(o: Oracle, c: Settings, s: Executor, current: TxHash, deadline: nat, opp: ScoredOpportunity)
    requires Affordable(opp)
    ensures Monitor(o, c, s, current, deadline, opp).state.synced == s.synced
    decreases Max(deadline - s.world.clock, 0)
  {
    IterationRests(o, c, s, current, deadline, opp);
    IterateKeepsSync(o, c, s, current, deadline, opp);
    hide Iterate;
    var i := Iterate(o, c, s, current, deadline, opp);
    if i.Again? {
      MonitorKeepsSync(o, c, i.state, i.current, deadline, opp);
    }
  }

  lemma IterateKeepsSync(o: Oracle, c: Settings, s: Executor, current: TxHash, deadline: nat, opp: ScoredOpportunity)
    requires Affordable(opp)
    ensures Iterate(o, c, s, current, deadline, opp).state.synced == s.synced
  {
    hide Preflight, Calculator.ApplyAdditionalBump;
  }

  lemma FollowUpNonces(o: Oracle, c: Settings, launch: Launch, opp: ScoredOpportunity)
    requires Affordable(opp) && launch.Launched?
    ensures var s' := FollowUp(o, c, launch, opp).state;
            && UsedNonces(s'.log) == UsedNonces(launch.state.log)
            && s'.nextNonce == launch.state.nextNonce && s'.synced == launch.state.synced
  {
    FollowUpCounter(o, c, launch, opp);
    hide Monitor, UsedNonces;
    var s1 := launch.state.(world := Elapse(o, launch.state.world));
    var deadline := s1.world.clock + c.TimeoutSecs() * SECOND;
    MonitorUsesNone(o, c, s1, launch.hash, deadline, opp);
    MonitorKeepsSync(o, c, s1, launch.hash, deadline, opp);
  }

  lemma HandleNonces(o: Oracle, c: Settings, s: Executor, t: Ticket)
    requires t.Convertible()
    ensures NonceStep(s, Handle(o, c, s, t).0)
    ensures Handle(o, c, s, t).1 == Err(RpcFailed) ==>
              UsedNonces(Handle(o, c, s, t).0.log) == UsedNonces(s.log) + [s.nextNonce]
  {
    hide Start, MonitorFromNow, UsedNonces;
    StartNonces(o, c, s, t);
    var launch := Start(o, c, s, t);
    if launch.Launched? {
      FollowUpNonces(o, c, launch, t.opportunity);
    }
  }

  /** Used nonces count up from the synced one without gaps, and the counter points at the next. */
  predicate NoncesInOrder(synced: U64, s: Executor) {
    var used := UsedNonces(s.log);
    && s.synced
    && s.nextNonce == (synced + |used|) % U64_SIZE
    && forall i :: 0 <= i < |used| ==> used[i] == (synced + i) % U64_SIZE
  }

  lemma StepKeepsOrder(synced: U64, s: Executor, s': Executor)
    requires NoncesInOrder(synced, s) && NonceStep(s, s')
    ensures NoncesInOrder(synced, s') && |UsedNonces(s'.log)| <= |UsedNonces(s.log)| + 1
  {
    hide UsedNonces;
  }

  lemma {:induction false} NonceConservation(o: Oracle, c: Settings, nonce: U64, now: nat, tickets: seq<Ticket>)
    requires AllConvertible(tickets)
    ensures var s' := HandleAll(o, c, Initial(nonce, now), tickets).0;
            NoncesInOrder(nonce, s') && |UsedNonces(s'.log)| <= |tickets|
  {
    if tickets != [] {
      var front := tickets[..|tickets| - 1];
      NonceConservation(o, c, nonce, now, front);
      var s1 := HandleAll(o, c, Initial(nonce, now), front).0;
      HandleNonces(o, c, s1, tickets[|tickets| - 1]);
      StepKeepsOrder(nonce, s1, Handle(o, c, s1, tickets[|tickets| - 1]).0);
      hide Handle, NoncesInOrder, NonceStep, UsedNonces;
    }
  }

  lemma WrapDistinct(n: nat, i: nat, j: nat)
    requires i < j < i + U64_SIZE
    ensures (n + i) % U64_SIZE != (n + j) % U64_SIZE
  {
    var d := j - i;
    assert (n + j) == (n + i) + d;
  }

  /** Until the 64-bit counter has gone all the way round, no nonce is used twice. */
  lemma NoncesDistinct(synced: U64, s: Executor, i: nat, j: nat)
    requires NoncesInOrder(synced, s) && i < j < |UsedNonces(s.log)| <= U64_SIZE
    ensures UsedNonces(s.log)[i] != UsedNonces(s.log)[j]
  {
    hide UsedNonces;
    WrapDistinct(synced, i, j);
  }

  /** The first broadcasts the node accepted. */
  function AcceptedNonces(log: seq<Event>): seq<U64> {
    if log == [] then []
    else
      var e := log[|log| - 1];
      AcceptedNonces(log[..|log| - 1]) + if e.first && e.Accepted? then [e.tx.nonce] else []
  }

  predicate EverySigningSucceeded(log: seq<Event>) {
    forall i :: 0 <= i < |log| ==> !(log[i].first && log[i].Unsigned?)
  }

  /** Without signing failures the accepted first broadcasts are exactly the used nonces: a contiguous range. */
  lemma {:induction false} AcceptedAreUsed(log: seq<Event>)
    requires EverySigningSucceeded(log)
    ensures AcceptedNonces(log) == UsedNonces(log)
  {
    if log != [] {
      AcceptedAreUsed(log[..|log| - 1]);
    }
  }

  predicate AllDistinct(nonces: seq<U64>) {
    forall i, j :: 0 <= i < j < |nonces| ==> nonces[i] != nonces[j]
  }

  lemma AppendDistinct(nonces: seq<U64>, n: U64)
    ensures AllDistinct(nonces + [n]) <==> AllDistinct(nonces) && n !in nonces
  {
    var all := nonces + [n];
    assert forall i :: 0 <= i < |nonces| ==> nonces[i] == all[i];
    assert all[|nonces|] == n;
  }

  /** Accepted first nonces are among the used ones, and as distinct as these. */
  lemma {:induction false} AcceptedAmongUsed(log: seq<Event>)
    requires AllDistinct(UsedNonces(log))
    ensures AllDistinct(AcceptedNonces(log)) && forall n <- AcceptedNonces(log) :: n in UsedNonces(log)
  {
    if log != [] {
      var front, e := log[..|log| - 1], log[|log| - 1];
      if e.first && !e.Refused? {
        AppendDistinct(UsedNonces(front), e.tx.nonce);
      } else {
        assert UsedNonces(log) == UsedNonces(front);
      }
      AcceptedAmongUsed(front);
      AppendDistinct(AcceptedNonces(front), e.tx.nonce);
    }
  }

  /** In every session of at most 2^64 opportunities the accepted first broadcasts have pairwise distinct nonces, signing
      failures or not. */
  lemma AcceptedDistinct(o: Oracle, c: Settings, nonce: U64, now: nat, tickets: seq<Ticket>)
    requires AllConvertible(tickets) && |tickets| <= U64_SIZE
    ensures AllDistinct(AcceptedNonces(HandleAll(o, c, Initial(nonce, now), tickets).0.log))
  {
    NonceConservation(o, c, nonce, now, tickets);
    var s := HandleAll(o, c, Initial(nonce, now), tickets).0;
    hide HandleAll, UsedNonces, AcceptedNonces;
    forall i, j | 0 <= i < j < |UsedNonces(s.log)| ensures UsedNonces(s.log)[i] != UsedNonces(s.log)[j] {
      NoncesDistinct(nonce, s, i, j);
    }
    AcceptedAmongUsed(s.log);
  }
}
