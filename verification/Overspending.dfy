/** When an estimate that does not cover the gas limit lets a run exceed the daily spend limit. */
module Overspending {
  import opened Units
  import opened GasAuction
  import opened Transactions
  import opened Profitability
  import opened Environment
  import opened Opportunities
  import opened Safety
  import opened Replacement
  import opened GuardRuns

  /** A world that answers at once and agrees to everything; every transaction is mined and uses all its gas. */
  function Prompt(): Oracle {
    k => Reply(0, true, true, (tx: TxHash) => Mined(Some(1), Some(MostGas(tx.gasLimit))))
  }

  lemma PromptIsHonest()
    ensures HonestReceipts(Prompt())
  {
  }

  lemma PromptMonitoring(c: Settings, s: Executor, hash: TxHash, opp: ScoredOpportunity) returns (w: World)
    requires Affordable(opp)
    ensures var run, gas := MonitorFromNow(Prompt(), c, s, hash, opp), MostGas(hash.gasLimit);
            && run.result == Ok(Confirmed(hash, 1, gas)) && w.clock == s.world.clock
            && run.state.guard == SpendRecorded(Prompt(), SuccessRecorded(s.guard), w, gas).0
  {
    w := Elapse(Prompt(), Elapse(Prompt(), Elapse(Prompt(), s.world)));
    hide SpendRecorded, IterateReplacing;
    var s1 := s.(world := Elapse(Prompt(), s.world));
    var i := Iterate(Prompt(), c, s1, hash, s1.world.clock + c.TimeoutSecs() * SECOND, opp);
    assert i.Returned? && i.state.guard == SpendRecorded(Prompt(), SuccessRecorded(s.guard), w, MostGas(hash.gasLimit)).0;
  }

  /** After a passed check in a prompt world the spend window is not due for a restart. */
  predicate Open(s: Executor) {
    s.world.clock - s.guard.spendDayStarted < DAY
  }

  lemma PromptLaunch(c: Settings, s: Executor, t: Ticket)
    requires t.Convertible() && Start(Prompt(), c, s, t).Launched? && SpendConsistent(c.limits, s.guard)
    ensures var launch := Start(Prompt(), c, s, t);
            Open(launch.state) && SpendConsistent(c.limits, launch.state.guard) && launch.hash.gasLimit == t.opportunity.pending.gasLimit
  {
    hide Calculator.CalculateReplacementGasPrice;
  }

  lemma OpenWindowRecords(l: Limits, g: Guard, w: World, gas: U128)
    requires SpendConsistent(l, g) && w.clock - g.spendDayStarted < DAY
    ensures SpendConsistent(l, SpendRecorded(Prompt(), SuccessRecorded(g), w, gas).0) <==> Reserved(l, g, gas)
  {
    assert (g.recorded + [gas])[..|g.recorded|] == g.recorded;
  }

  lemma PromptFollowUp(c: Settings, launch: Launch, opp: ScoredOpportunity)
    requires Affordable(opp) && launch.Launched? && Open(launch.state) && SpendConsistent(c.limits, launch.state.guard)
    ensures var run := FollowUp(Prompt(), c, launch, opp);
            && !IsDrop(run.result)
            && (SpendConsistent(c.limits, run.state.guard)
                <==> Reserved(c.limits, launch.state.guard, MostGas(launch.hash.gasLimit)))
  {
    hide MonitorFromNow, SpendRecorded, SpendConsistent, Reserved;
    var w := PromptMonitoring(c, launch.state, launch.hash, opp);
    OpenWindowRecords(c.limits, launch.state.guard, w, MostGas(launch.hash.gasLimit));
  }

  /** A launched run keeps to the limit in this world exactly when the whole gas limit fits, whatever the estimate was. */
  lemma PromptRun(c: Settings, s: Executor, t: Ticket)
    requires t.Convertible() && Start(Prompt(), c, s, t).Launched? && SpendConsistent(c.limits, s.guard)
    ensures SpendConsistent(c.limits, Handle(Prompt(), c, s, t).0.guard)
            <==> Reserved(c.limits, Start(Prompt(), c, s, t).state.guard, MostGas(t.opportunity.pending.gasLimit))
  {
    PromptLaunch(c, s, t);
    hide Start, FollowUp, SpendConsistent, Reserved, Open;
    PromptFollowUp(c, Start(Prompt(), c, s, t), t.opportunity);
  }

  /** Once a bid has been launched with the spend window open, every honest world keeps the run within the daily limit exactly
      when the gas limit fits, whatever was estimated and however often the window restarts. */
  lemma LaunchedSpendExactly(c: Settings, launch: Launch, opp: ScoredOpportunity)
    requires Affordable(opp) && launch.Launched? && launch.hash.gasLimit == opp.pending.gasLimit
    requires Open(launch.state) && SpendConsistent(c.limits, launch.state.guard)
    ensures (forall o: Oracle :: HonestReceipts(o) ==> SpendConsistent(c.limits, FollowUp(o, c, launch, opp).state.guard))
            <==> Reserved(c.limits, launch.state.guard, MostGas(opp.pending.gasLimit))
  {
    hide FollowUp, SpendConsistent, Reserved, HonestReceipts, Open, MostGas;
    PromptIsHonest();
    PromptFollowUp(c, launch, opp);
    if Reserved(c.limits, launch.state.guard, MostGas(opp.pending.gasLimit)) {
      forall o: Oracle | HonestReceipts(o) ensures SpendConsistent(c.limits, FollowUp(o, c, launch, opp).state.guard) {
        FollowUpKeepsSpend(o, c, launch, opp, MostGas(opp.pending.gasLimit));
      }
    }
  }

  /** A plain transfer of 100 wei with a gas limit of 21000 and no gas price. */
  function FreeTransfer(): ParsedTransaction {
    ParsedTransaction(None, 100, 21000, None, None, [], Legacy, None)
  }

  function FreeTicket(): Ticket {
    var analysis := ProfitabilityAnalysis(2, 0, 0, 0, 2, Infinite, None);
    Ticket(ScoredOpportunity(FreeTransfer(), analysis, 0, GasReplacement, Unbounded), NetworkState(0, 0))
  }

  lemma FreeTicketEvaluates()
    ensures Evaluated(Criteria(1.0, 10.0, 100, 0, 0.0), FreeTicket().opportunity) && FreeTicket().Convertible()
  {
    FreeStaysFree(10.0);
    hide NextBid;
    assert FreeTransfer().EffectiveGasPrice() == 0;
    assert ReplacementGasCost(FreeTransfer(), 10.0) == 0;
    assert InferDexQuotes(FreeTransfer(), 0.0) == [];
  }

  lemma FreeBid(calculator: Calculator, t: Ticket)
    requires calculator == Calculator(10.0, 1.0, 100.0, 50.0) && t == FreeTicket()
    ensures t.Convertible() && calculator.CalculateReplacementGasPrice(t.VictimPrice(), t.network) == Bid(1_000_000_000)
  {
    BidIsLargestOfThree(calculator, 0, t.network);
    FreeStaysFree(10.0);
    assert FloorToU128(calculator.minGasPrice * WEI_PER_GWEI) == 1_000_000_000;
    hide NextBid;
  }

  /** A daily limit of 20000 wei. */
  function TightSettings(): Settings {
    Settings(1, Calculator(10.0, 1.0, 100.0, 50.0), Limits(false, 1, 20000.0 / WEI_PER_ETH, 1.0, false, 50.0), 1, 1)
  }

  function Fresh(): Executor {
    Executor(0, true, Guard(0, 0, 0, []), map[], World(0, 0), [])
  }

  lemma TightLimit()
    ensures TightSettings().limits.SpendLimitWei() == 20000
  {
    assert 20000.0 / WEI_PER_ETH * WEI_PER_ETH == 20000.0;
  }

  lemma FreeCheckPasses()
    ensures Check(Prompt(), TightSettings(), Fresh(), FreeTicket().opportunity, 1_000_000_000)
            == (Pass, Fresh().(world := Elapse(Prompt(), Fresh().world)))
  {
    TightLimit();
    assert WeiToGwei(1_000_000_000) == 1.0;
    hide Limits.SpendLimitWei;
  }

  lemma FreeLaunch()
    ensures FreeTicket().Convertible()
    ensures var launch := Start(Prompt(), TightSettings(), Fresh(), FreeTicket());
            launch.Launched? && launch.state.guard == Fresh().guard
  {
    FreeCheckPasses();
    FreeBid(TightSettings().calculator, FreeTicket());
    hide Check, Calculator.CalculateReplacementGasPrice;
  }

  /** A victim that pays nothing for its gas: the detector estimates no cost, the check passes, and the gas the confirmation
      records exceeds the limit. */
  lemma FreeGasOverspends()
    ensures var c, s, t := TightSettings(), Fresh(), FreeTicket();
            && c.Valid() && t.Convertible() && t.VictimPrice() == 0
            && Evaluated(Criteria(1.0, 10.0, 100, 0, 0.0), t.opportunity)
            && HonestReceipts(Prompt()) && SpendConsistent(c.limits, s.guard)
            && !SpendConsistent(c.limits, Handle(Prompt(), c, s, t).0.guard)
  {
    PromptIsHonest();
    TightLimit();
    FreeTicketEvaluates();
    FreeLaunch();
    PromptRun(TightSettings(), Fresh(), FreeTicket());
    hide Handle, Start, Evaluated, HonestReceipts, Prompt, Limits.SpendLimitWei;
  }
}
