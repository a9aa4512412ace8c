/** What the spend window records: exactly the gas of the confirmations since its last reset. */
module SpendLedger {
  import opened Units
  import opened GasAuction
  import opened Environment
  import opened Opportunities
  import opened Safety
  import opened Replacement
  import opened Sessions

  /** The gas a result confirms. */
  function GasOf(result: RunResult): seq<U128> {
    match result
    case Ok(Confirmed(_, _, gasUsed)) => [gasUsed]
    case _ => []
  }

  // The window, from the clock readings alone

  /** Where the window starts after these readings. */
  function StartAfter(start: nat, readings: seq<Reading>): nat {
    if readings == [] then start
    else
      var before, r := StartAfter(start, readings[..|readings| - 1]), readings[|readings| - 1];
      if Overdue(before, r) then r.next else before
  }

  /** One of these readings was taken a day or more after the window's start. */
  predicate Restarts(start: nat, readings: seq<Reading>) {
    && readings != []
    && var front := readings[..|readings| - 1];
       Restarts(start, front) || Overdue(StartAfter(start, front), readings[|readings| - 1])
  }

  lemma {:induction false} ReadingsCompose(start: nat, a: seq<Reading>, b: seq<Reading>)
    ensures StartAfter(start, a + b) == StartAfter(StartAfter(start, a), b)
    ensures Restarts(start, a + b) <==> Restarts(start, a) || Restarts(StartAfter(start, a), b)
  {
    if b == [] {
      assert a + b == a;
    } else {
      var front := b[..|b| - 1];
      ReadingsCompose(start, a, front);
      assert (a + b)[..|a + b| - 1] == a + front;
      hide Overdue;
    }
  }

  /** From executor s to executor s' the guard took these readings, and `gas` was recorded at the end. The window starts where
      the readings say, what was recorded before is forgotten exactly when it restarted, the amount stays the saturated sum,
      and a start that was not ahead of the clock still is not. */
  predicate Window(s: Executor, s': Executor, readings: seq<Reading>, gas: seq<U128>) {
    && s'.guard.spendDayStarted == StartAfter(s.guard.spendDayStarted, readings)
    && s'.guard.recorded == (if Restarts(s.guard.spendDayStarted, readings) then [] else s.guard.recorded) + gas
    && (Summed(s.guard) ==> Summed(s'.guard))
    && (s.guard.spendDayStarted <= s.world.clock <= s'.world.clock ==> s'.guard.spendDayStarted <= s'.world.clock)
    && s.world.clock <= s'.world.clock
  }

  predicate Summed(g: Guard) {
    g.dailySpendWei == SaturatedSum(g.recorded)
  }

  lemma WindowsCompose(s: Executor, s1: Executor, s2: Executor, a: seq<Reading>, b: seq<Reading>, gas: seq<U128>)
    requires Window(s, s1, a, []) && Window(s1, s2, b, gas)
    ensures Window(s, s2, a + b, gas)
  {
    ReadingsCompose(s.guard.spendDayStarted, a, b);
    hide StartAfter, Restarts, Summed;
  }

  /** Without a reading only time passes. */
  lemma NoReading(s: Executor, s': Executor)
    requires s'.world.clock >= s.world.clock
    requires s'.guard == s.guard.(consecutiveFailures := s'.guard.consecutiveFailures)
    ensures Window(s, s', [], [])
  {
  }

  lemma OneReading(start: nat, r: Reading)
    ensures StartAfter(start, [r]) == if Overdue(start, r) then r.next else start
    ensures Restarts(start, [r]) <==> Overdue(start, r)
  {
    assert [r][..0] == [];
  }

  lemma SumOne(recorded: seq<U128>, gas: U128)
    ensures SaturatedSum(recorded + [gas]) == Min(SaturatedSum(recorded) + gas, U128_MAX)
  {
    assert (recorded + [gas])[..|recorded|] == recorded;
  }

  /** The reading of a safety check: only a check that gets as far as the spend reads the clock. */
  function CheckReadings(o: Oracle, c: Settings, s: Executor, opp: ScoredOpportunity, price: U128): seq<Reading> {
    if ReachesSpendCheck(c.limits, s.guard, opp.profitability, WeiToGwei(price)) then [ReadingNow(o, s.world)] else []
  }

  lemma CheckWindow(o: Oracle, c: Settings, s: Executor, opp: ScoredOpportunity, price: U128)
    requires Affordable(opp)
    ensures Window(s, Check(o, c, s, opp, price).1, CheckReadings(o, c, s, opp, price), [])
  {
    CheckingExactly(o, c.limits, s.guard, s.world, opp.profitability, WeiToGwei(price));
    OneReading(s.guard.spendDayStarted, ReadingNow(o, s.world));
    hide Preflight, StartAfter, Restarts;
    if ReachesSpendCheck(c.limits, s.guard, opp.profitability, WeiToGwei(price)) {
    } else {
      NoReading(s, s);
    }
  }

  function ReplaceReadings(o: Oracle, c: Settings, s: Executor, entry: PendingSubmission, opp: ScoredOpportunity): seq<Reading> {
    match c.calculator.ApplyAdditionalBump(entry.gasPrice)
    case GasPriceExceeded => []
    case Bid(price) => CheckReadings(o, c, s, opp, price)
  }

  lemma ReplaceWindow(o: Oracle, c: Settings, s: Executor, entry: PendingSubmission, opp: ScoredOpportunity)
    requires Affordable(opp)
    ensures Window(s, Replace(o, c, s, entry, opp).0, ReplaceReadings(o, c, s, entry, opp), [])
  {
    hide Preflight, CheckReadings, StartAfter, Restarts, Summed, Calculator.ApplyAdditionalBump;
    var bid := c.calculator.ApplyAdditionalBump(entry.gasPrice);
    if bid.Bid? {
      CheckWindow(o, c, s, opp, bid.price);
    } else {
      NoReading(s, s);
    }
  }

  lemma RecordWindow(o: Oracle, s: Executor, s': Executor, spent: U128)
    requires (s'.guard, s'.world) == SpendRecorded(o, SuccessRecorded(s.guard), s.world, spent)
    ensures Window(s, s', [ReadingNow(o, s.world)], [spent])
  {
    RecordingExactly(o, SuccessRecorded(s.guard), s.world, spent);
    OneReading(s.guard.spendDayStarted, ReadingNow(o, s.world));
    SumOne(s.guard.recorded, spent);
    SumOne([], spent);
    hide SpendRecorded, StartAfter, Restarts, SaturatedSum;
    assert [] + [spent] == [spent];
    assert SaturatedSum([]) == 0 by { SumNothing(); }
  }

  lemma SumNothing()
    ensures SaturatedSum([]) == 0
  {
  }

  /** The readings of one round: that of the replacement's check, or that of the recorded spend. */
  function RoundReadings(o: Oracle, c: Settings, s: Executor, current: TxHash, deadline: nat, opp: ScoredOpportunity): seq<Reading> {
    var s1 := s.(world := Elapse(o, s.world));
    if s1.world.clock >= deadline then []
    else
      var receipt := o(s1.world.calls).receipt(current);
      var s2 := s1.(world := Elapse(o, s1.world));
      if receipt.Mined? then [ReadingNow(o, s2.world)]
      else if receipt.NotMined? && current in s2.pending && s2.pending[current].replacementAttempts < MAX_REPLACEMENT_ATTEMPTS then
        var s3 := Rest(o, c, s2);
        if o(s3.world.calls).receipt(current).NotMined?
        then ReplaceReadings(o, c, s3.(world := Elapse(o, s3.world)), s2.pending[current], opp) else []
      else []
  }

  lemma ReplacingWindow(o: Oracle, c: Settings, s: Executor, current: TxHash, opp: ScoredOpportunity)
    requires Affordable(opp) && current in s.pending
    ensures var i, s3 := IterateReplacing(o, c, s, current, opp), Rest(o, c, s);
            && (i.Returned? ==> GasOf(i.result) == [])
            && Window(s, i.state, if o(s3.world.calls).receipt(current).NotMined?
                                  then ReplaceReadings(o, c, s3.(world := Elapse(o, s3.world)), s.pending[current], opp) else [], [])
  {
    hide Replace, ReplaceReadings, StartAfter, Restarts, Summed;
    var s3 := Rest(o, c, s);
    var s4 := s3.(world := Elapse(o, s3.world));
    NoReading(s, s4);
    ReplaceWindow(o, c, s4, s.pending[current], opp);
    var i := IterateReplacing(o, c, s, current, opp);
    if o(s3.world.calls).receipt(current).NotMined? {
      var s5 := Replace(o, c, s4, s.pending[current], opp).0;
      WindowsCompose(s, s4, s5, [], ReplaceReadings(o, c, s4, s.pending[current], opp), []);
      assert [] + ReplaceReadings(o, c, s4, s.pending[current], opp) == ReplaceReadings(o, c, s4, s.pending[current], opp);
    }
  }

  /** One round records the gas of the confirmation it ends with, and nothing else. */
  lemma IterateWindow(o: Oracle, c: Settings, s: Executor, current: TxHash, deadline: nat, opp: ScoredOpportunity)
    requires Affordable(opp)
    ensures var i := Iterate(o, c, s, current, deadline, opp);
            Window(s, i.state, RoundReadings(o, c, s, current, deadline, opp), if i.Returned? then GasOf(i.result) else [])
  {
    hide IterateReplacing, ReplaceReadings, SpendRecorded, StartAfter, Restarts, Summed;
    var s2 := s.(world := Elapse(o, Elapse(o, s.world)));
    var receipt := o(s.world.calls + 1).receipt(current);
    var readings := RoundReadings(o, c, s, current, deadline, opp);
    var i := Iterate(o, c, s, current, deadline, opp);
    var gas := if i.Returned? then GasOf(i.result) else [];
    if Elapse(o, s.world).clock >= deadline || receipt.RpcError? {
      NoReading(s, i.state);
    } else if receipt.Mined? {
      NoReading(s, s2);
      RecordWindow(o, s2, i.state, receipt.GasUsed());
      WindowsCompose(s, s2, i.state, [], readings, gas);
      assert [] + readings == readings;
    } else if current in s2.pending && s2.pending[current].replacementAttempts < MAX_REPLACEMENT_ATTEMPTS {
      NoReading(s, s2);
      ReplacingWindow(o, c, s2, current, opp);
      WindowsCompose(s, s2, i.state, [], readings, gas);
      assert [] + readings == readings;
    } else {
      NoReading(s, i.state);
    }
  }

  /** All readings of the monitoring loop. */
  function MonitorReadings(o: Oracle, c: Settings, s: Executor, current: TxHash, deadline: nat, opp: ScoredOpportunity): seq<Reading>
    requires Affordable(opp)
    decreases Max(deadline - s.world.clock, 0)
  {
    IterationRests(o, c, s, current, deadline, opp);
    RoundReadings(o, c, s, current, deadline, opp)
    + match Iterate(o, c, s, current, deadline, opp)
      case Returned(_, _) => []
      case Again(s', next) => MonitorReadings(o, c, s', next, deadline, opp)
  }

  lemma {:induction false} MonitorWindow(o: Oracle, c: Settings, s: Executor, current: TxHash, deadline: nat, opp: ScoredOpportunity)
    requires Affordable(opp)
    ensures var run := Monitor(o, c, s, current, deadline, opp);
            Window(s, run.state, MonitorReadings(o, c, s, current, deadline, opp), GasOf(run.result))
    decreases Max(deadline - s.world.clock, 0)
  {
    IterationRests(o, c, s, current, deadline, opp);
    IterateWindow(o, c, s, current, deadline, opp);
    hide Iterate, RoundReadings, Window;
    var i, round := Iterate(o, c, s, current, deadline, opp), RoundReadings(o, c, s, current, deadline, opp);
    var run := Monitor(o, c, s, current, deadline, opp);
    if i.Again? {
      MonitorWindow(o, c, i.state, i.current, deadline, opp);
      WindowsCompose(s, i.state, run.state, round, MonitorReadings(o, c, i.state, i.current, deadline, opp), GasOf(run.result));
    } else {
      assert MonitorReadings(o, c, s, current, deadline, opp) == round;
    }
  }

  /** All readings while one opportunity is handled. */
  function HandleReadings(o: Oracle, c: Settings, s: Executor, t: Ticket): seq<Reading>
    requires t.Convertible()
  {
    StartReadings(o, c, s, t)
    + match Start(o, c, s, t)
      case Stopped(_, _) => []
      case Launched(s1, hash) =>
        var s2 := s1.(world := Elapse(o, s1.world));
        MonitorReadings(o, c, s2, hash, s2.world.clock + c.TimeoutSecs() * SECOND, t.opportunity)
  }

  function StartReadings(o: Oracle, c: Settings, s: Executor, t: Ticket): seq<Reading>
    requires t.Convertible()
  {
    match c.calculator.CalculateReplacementGasPrice(t.VictimPrice(), t.network)
    case GasPriceExceeded => []
    case Bid(price) => CheckReadings(o, c, s, t.opportunity, price)
  }

  lemma StartWindow(o: Oracle, c: Settings, s: Executor, t: Ticket)
    requires t.Convertible()
    ensures var launch := Start(o, c, s, t);
            Window(s, launch.state, StartReadings(o, c, s, t), []) && (launch.Stopped? ==> GasOf(launch.result) == [])
  {
    hide Preflight, CheckReadings, StartAfter, Restarts, Summed, Calculator.CalculateReplacementGasPrice;
    var bid := c.calculator.CalculateReplacementGasPrice(t.VictimPrice(), t.network);
    if bid.Bid? {
      CheckWindow(o, c, s, t.opportunity, bid.price);
      var s1, s' := Check(o, c, s, t.opportunity, bid.price).1, Start(o, c, s, t).state;
      NoReading(s1, s');
      var readings := StartReadings(o, c, s, t);
      WindowsCompose(s, s1, s', readings, [], []);
      assert readings + [] == readings;
    } else {
      NoReading(s, s);
    }
  }

  lemma FailureKeepsWindow(s: Executor, s': Executor, readings: seq<Reading>, gas: seq<U128>)
    requires Window(s, s', readings, gas)
    ensures Window(s, s'.(guard := FailureRecorded(s'.guard)), readings, gas)
  {
  }

  lemma FollowUpWindow(o: Oracle, c: Settings, s: Executor, s1: Executor, hash: TxHash, opp: ScoredOpportunity, a: seq<Reading>)
    requires Affordable(opp) && Window(s, s1, a, [])
    ensures var run, s2 := MonitorFromNow(o, c, s1, hash, opp), s1.(world := Elapse(o, s1.world));
            Window(s, run.state, a + MonitorReadings(o, c, s2, hash, s2.world.clock + c.TimeoutSecs() * SECOND, opp), GasOf(run.result))
  {
    hide Monitor, MonitorReadings, StartAfter, Restarts, Summed;
    var s2 := s1.(world := Elapse(o, s1.world));
    var deadline := s2.world.clock + c.TimeoutSecs() * SECOND;
    MonitorWindow(o, c, s2, hash, deadline, opp);
    NoReading(s1, s2);
    WindowsCompose(s, s1, s2, a, [], []);
    assert a + [] == a;
    var run := Monitor(o, c, s2, hash, deadline, opp);
    WindowsCompose(s, s2, run.state, a, MonitorReadings(o, c, s2, hash, deadline, opp), GasOf(run.result));
  }

  /** Handling an opportunity moves the window as its clock readings say, and records exactly the confirmed gas. */
  lemma HandleWindow(o: Oracle, c: Settings, s: Executor, t: Ticket)
    requires t.Convertible()
    ensures var (s', result) := Handle(o, c, s, t); Window(s, s', HandleReadings(o, c, s, t), GasOf(result))
  {
    hide Start, StartReadings, MonitorFromNow, MonitorReadings, Window, FailureRecorded;
    StartWindow(o, c, s, t);
    var launch, first := Start(o, c, s, t), StartReadings(o, c, s, t);
    var run := Execute(o, c, s, t);
    if launch.Launched? {
      FollowUpWindow(o, c, s, launch.state, launch.hash, t.opportunity, first);
    } else {
      assert first + [] == first;
    }
    FailureKeepsWindow(s, run.state, HandleReadings(o, c, s, t), GasOf(run.result));
  }

  /** The gas of all confirmations, in order. */
  function GasOfAll(results: seq<RunResult>): seq<U128> {
    if results == [] then [] else GasOfAll(results[..|results| - 1]) + GasOf(results[|results| - 1])
  }

  lemma GasAppend(results: seq<RunResult>, k: nat, result: RunResult)
    requires k <= |results|
    ensures GasOfAll((results + [result])[k..]) == GasOfAll(results[k..]) + GasOf(result)
  {
    assert (results + [result])[k..] == results[k..] + [result];
    assert (results[k..] + [result])[..|results| - k] == results[k..];
  }

  lemma LastGas(results: seq<RunResult>, result: RunResult)
    ensures GasOfAll((results + [result])[|results|..]) == GasOf(result)
  {
    assert (results + [result])[|results|..] == [result];
    assert [result][..0] == [];
  }

  /** The clock readings of a session. */
  function SessionReadings(o: Oracle, c: Settings, s: Executor, tickets: seq<Ticket>): seq<Reading>
    requires AllConvertible(tickets)
  {
    if tickets == [] then []
    else
      var front := tickets[..|tickets| - 1];
      SessionReadings(o, c, s, front) + HandleReadings(o, c, HandleAll(o, c, s, front).0, tickets[|tickets| - 1])
  }

  /** The position of the ticket during which a reading was last taken a day or more after the window's start; 0 if none. */
  function LastRestart(o: Oracle, c: Settings, s: Executor, tickets: seq<Ticket>): (k: nat)
    requires AllConvertible(tickets)
    ensures k <= |tickets|
  {
    if tickets == [] then 0
    else
      var front := tickets[..|tickets| - 1];
      var start := StartAfter(s.guard.spendDayStarted, SessionReadings(o, c, s, front));
      if Restarts(start, HandleReadings(o, c, HandleAll(o, c, s, front).0, tickets[|tickets| - 1]))
      then |front| else LastRestart(o, c, s, front)
  }

  /** What a session has recorded. */
  predicate LedgerHolds(o: Oracle, c: Settings, s: Executor, tickets: seq<Ticket>, s': Executor, results: seq<RunResult>)
    requires AllConvertible(tickets)
  {
    && |results| == |tickets|
    && s'.guard.spendDayStarted == StartAfter(s.guard.spendDayStarted, SessionReadings(o, c, s, tickets)) <= s'.world.clock
    && s'.guard.recorded == GasOfAll(results[LastRestart(o, c, s, tickets)..])
    && s'.guard.dailySpendWei == SaturatedSum(s'.guard.recorded)
  }

  lemma LedgerStep(o: Oracle, c: Settings, s: Executor, tickets: seq<Ticket>, t: Ticket, s1: Executor, s': Executor,
                   results: seq<RunResult>, result: RunResult)
    requires AllConvertible(tickets) && t.Convertible() && s1 == HandleAll(o, c, s, tickets).0
    requires LedgerHolds(o, c, s, tickets, s1, results)
    requires Window(s1, s', HandleReadings(o, c, s1, t), GasOf(result))
    ensures AllConvertible(tickets + [t]) && LedgerHolds(o, c, s, tickets + [t], s', results + [result])
  {
    hide HandleAll, HandleReadings, StartAfter, Restarts, GasOfAll, GasOf, SaturatedSum;
    var all, readings := tickets + [t], HandleReadings(o, c, s1, t);
    assert all[..|all| - 1] == tickets;
    ReadingsCompose(s.guard.spendDayStarted, SessionReadings(o, c, s, tickets), readings);
    GasAppend(results, LastRestart(o, c, s, tickets), result);
    LastGas(results, result);
  }

  /** In every session the window starts where the clock readings say, never ahead of the clock; the recorded amounts are the
      gas of the confirmations since the last restart, and the daily spend is their saturated sum. */
  lemma {:induction false} LedgerLaw(o: Oracle, c: Settings, s: Executor, tickets: seq<Ticket>)
    requires AllConvertible(tickets) && s.guard.recorded == [] && s.guard.dailySpendWei == 0
    requires s.guard.spendDayStarted <= s.world.clock
    ensures var (s', results) := HandleAll(o, c, s, tickets); LedgerHolds(o, c, s, tickets, s', results)
  {
    hide Handle, HandleReadings, Window, LedgerHolds;
    if tickets != [] {
      var front, t := tickets[..|tickets| - 1], tickets[|tickets| - 1];
      assert front + [t] == tickets;
      LedgerLaw(o, c, s, front);
      var (s1, results) := HandleAll(o, c, s, front);
      HandleWindow(o, c, s1, t);
      LedgerStep(o, c, s, front, t, s1, Handle(o, c, s1, t).0, results, Handle(o, c, s1, t).1);
    } else {
      EmptyLedger(o, c, s);
    }
  }

  lemma EmptyLedger(o: Oracle, c: Settings, s: Executor)
    requires s.guard.recorded == [] && s.guard.dailySpendWei == 0 && s.guard.spendDayStarted <= s.world.clock
    ensures LedgerHolds(o, c, s, [], s, []) && HandleAll(o, c, s, []) == (s, [])
  {
    SumNothing();
  }
}
