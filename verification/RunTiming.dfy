/** How long rounds and whole executions take, apart from the time the outside world takes to answer. */
module RunTiming {
  import opened Units
  import opened Environment
  import opened GasAuction
  import opened Opportunities
  import opened Safety
  import opened Replacement
  import opened Outcomes
  import opened RequestPacing

  /** The delays of the interactions from one to before another. */
  function Delays(o: Oracle, from: nat, to: nat): nat
    requires from <= to
  {
    if from == to then 0 else Delays(o, from, to - 1) + o(to - 1).delay
  }

  /** Between two moments the outside world took its delays, and the executor slept for this long. */
  predicate Timed(o: Oracle, w: World, w': World, slept: nat) {
    w.calls <= w'.calls && w'.clock == w.clock + Delays(o, w.calls, w'.calls) + slept
  }

  lemma {:induction false} DelaysJoin(o: Oracle, from: nat, middle: nat, to: nat)
    requires from <= middle <= to
    ensures Delays(o, from, to) == Delays(o, from, middle) + Delays(o, middle, to)
  {
    if middle < to {
      DelaysJoin(o, from, middle, to - 1);
    }
  }

  lemma TimedJoin(o: Oracle, w: World, w1: World, w': World, slept: nat, slept': nat)
    requires Timed(o, w, w1, slept) && Timed(o, w1, w', slept')
    ensures Timed(o, w, w', slept + slept')
  {
    DelaysJoin(o, w.calls, w1.calls, w'.calls);
  }

  /** One interaction with the outside world, or one sleep. */
  lemma OneStep(o: Oracle, w: World)
    ensures Timed(o, w, w, 0) && Timed(o, w, Elapse(o, w), 0) && forall d: nat :: Timed(o, w, Slept(o, w, d), d)
  {
    assert Delays(o, w.calls, w.calls + 1) == Delays(o, w.calls, w.calls) + o(w.calls).delay;
  }

  lemma ResetTimed(o: Oracle, g: Guard, w: World)
    ensures Timed(o, w, ResetIfNeeded(o, g, w).1, 0)
  {
    hide Timed;
    var w1 := Elapse(o, w);
    OneStep(o, w);
    OneStep(o, w1);
    TimedJoin(o, w, w1, Elapse(o, w1), 0, 0);
  }

  lemma CheckTimed(o: Oracle, c: Settings, s: Executor, opp: ScoredOpportunity, price: U128)
    requires Affordable(opp)
    ensures Timed(o, s.world, Check(o, c, s, opp, price).1.world, 0)
  {
    hide Timed, ResetIfNeeded;
    OneStep(o, s.world);
    ResetTimed(o, s.guard, s.world);
  }

  lemma ReplaceTimed(o: Oracle, c: Settings, s: Executor, entry: PendingSubmission, opp: ScoredOpportunity)
    requires Affordable(opp)
    ensures Timed(o, s.world, Replace(o, c, s, entry, opp).0.world, 0)
  {
    hide Timed, Check, Transaction, Calculator.ApplyAdditionalBump;
    OneStep(o, s.world);
    var bid := c.calculator.ApplyAdditionalBump(entry.gasPrice);
    if bid.Bid? {
      CheckTimed(o, c, s, opp, bid.price);
      var w1 := Check(o, c, s, opp, bid.price).1.world;
      TwoSteps(o, s.world, w1);
    }
  }

  /** Signing, and perhaps sending. */
  lemma TwoSteps(o: Oracle, w: World, w1: World)
    requires Timed(o, w, w1, 0)
    ensures Timed(o, w, Elapse(o, w1), 0) && Timed(o, w, Elapse(o, Elapse(o, w1)), 0)
  {
    hide Timed;
    OneStep(o, w1);
    OneStep(o, Elapse(o, w1));
    TimedJoin(o, w, w1, Elapse(o, w1), 0, 0);
    TimedJoin(o, w, Elapse(o, w1), Elapse(o, Elapse(o, w1)), 0, 0);
  }

  /** How long a round sleeps: not at all if its first request, or the deadline, settles the run; twice the interval if its second
      request finds no receipt and the bid is not replaced either; else once. */
  function Sleeps(o: Oracle, c: Settings, s: Executor, current: TxHash, deadline: nat, opp: ScoredOpportunity): nat
    requires Affordable(opp)
  {
    var i, polls := Iterate(o, c, s, current, deadline, opp), RoundPolls(o, c, s, current, deadline);
    if i.Returned? && |polls| < 2 then 0
    else if |polls| == 2 && Answer(o, polls[1]).NotMined? && i.state.pending == s.pending then 2 * Interval(c)
    else Interval(c)
  }

  lemma ReplacingTime(o: Oracle, c: Settings, s: Executor, current: TxHash, opp: ScoredOpportunity)
    requires Affordable(opp) && current in s.pending
    ensures var i, receipt := IterateReplacing(o, c, s, current, opp), o(s.world.calls + 1).receipt(current);
            Timed(o, s.world, i.state.world,
                  if receipt.NotMined? && i.state.pending == s.pending then 2 * Interval(c) else Interval(c))
  {
    hide Replace, Timed;
    var s3 := Rest(o, c, s);
    var s4 := s3.(world := Elapse(o, s3.world));
    OneStep(o, s.world);
    OneStep(o, s3.world);
    TimedJoin(o, s.world, s3.world, s4.world, Interval(c), 0);
    if o(s.world.calls + 1).receipt(current).NotMined? {
      var (s5, replacement) := Replace(o, c, s4, s.pending[current], opp);
      ReplaceTimed(o, c, s4, s.pending[current], opp);
      ReplaceTabled(o, c, s4, s.pending[current], opp);
      TimedJoin(o, s.world, s4.world, s5.world, Interval(c), 0);
      OneStep(o, s5.world);
      if replacement.Some? {
        assert current !in s5.pending - {current};
      } else {
        TimedJoin(o, s.world, s5.world, Rest(o, c, s5).world, Interval(c), Interval(c));
      }
    }
  }

  lemma ConfirmTimed(o: Oracle, s: Executor, current: TxHash, receipt: Receipt)
    ensures Timed(o, s.world, Confirm(o, s, current, receipt).world, 0)
  {
    hide Timed, ResetIfNeeded;
    ResetTimed(o, SuccessRecorded(s.guard), s.world);
  }

  /** The time a round takes, exactly. */
  lemma RoundTime(o: Oracle, c: Settings, s: Executor, current: TxHash, deadline: nat, opp: ScoredOpportunity)
    requires Affordable(opp)
    ensures Timed(o, s.world, Iterate(o, c, s, current, deadline, opp).state.world, Sleeps(o, c, s, current, deadline, opp))
  {
    hide Timed, IterateReplacing, Confirm;
    var w1 := Elapse(o, s.world);
    var w2 := Elapse(o, w1);
    var s2 := s.(world := w2);
    OneStep(o, s.world);
    OneStep(o, w1);
    TimedJoin(o, s.world, w1, w2, 0, 0);
    if w1.clock < deadline {
      var receipt := o(w1.calls).receipt(current);
      if receipt.Mined? {
        ConfirmTimed(o, s2, current, receipt);
        TimedJoin(o, s.world, w2, Confirm(o, s2, current, receipt).world, 0, 0);
      } else if receipt.NotMined? {
        WaitingTime(o, c, s, s2, current, opp);
        if current in s.pending {
          ReplacingAnswers(o, c, s2, current, opp);
        }
      }
    }
  }

  lemma WaitingTime(o: Oracle, c: Settings, s: Executor, s2: Executor, current: TxHash, opp: ScoredOpportunity)
    requires Affordable(opp) && Timed(o, s.world, s2.world, 0)
    ensures Timed(o, s.world, Rest(o, c, s2).world, Interval(c))
    ensures current in s2.pending ==>
              var i, receipt := IterateReplacing(o, c, s2, current, opp), o(s2.world.calls + 1).receipt(current);
              Timed(o, s.world, i.state.world,
                    if receipt.NotMined? && i.state.pending == s2.pending then 2 * Interval(c) else Interval(c))
  {
    hide Timed, IterateReplacing;
    OneStep(o, s2.world);
    TimedJoin(o, s.world, s2.world, Rest(o, c, s2).world, 0, Interval(c));
    if current in s2.pending {
      ReplacingTime(o, c, s2, current, opp);
      var i, receipt := IterateReplacing(o, c, s2, current, opp), o(s2.world.calls + 1).receipt(current);
      TimedJoin(o, s.world, s2.world, i.state.world, 0,
                if receipt.NotMined? && i.state.pending == s2.pending then 2 * Interval(c) else Interval(c));
    }
  }

  /** Besides the delays since this interaction, the deadline is overrun by less than two intervals. */
  predicate Prompt(o: Oracle, c: Settings, from: nat, deadline: nat, w: World) {
    from <= w.calls && w.clock < deadline + 2 * Interval(c) + Delays(o, from, w.calls)
  }

  lemma PromptRound(o: Oracle, c: Settings, s: Executor, current: TxHash, deadline: nat, opp: ScoredOpportunity, from: nat)
    requires Affordable(opp) && Prompt(o, c, from, deadline, s.world)
    ensures Prompt(o, c, from, deadline, Iterate(o, c, s, current, deadline, opp).state.world)
  {
    RoundTime(o, c, s, current, deadline, opp);
    if Sleeps(o, c, s, current, deadline, opp) > 0 {
      SleepsBeforeDeadline(o, c, s, current, deadline, opp);
    }
    hide Iterate, Sleeps, Delays;
    DelaysJoin(o, from, s.world.calls, Iterate(o, c, s, current, deadline, opp).state.world.calls);
  }

  lemma SleepsBeforeDeadline(o: Oracle, c: Settings, s: Executor, current: TxHash, deadline: nat, opp: ScoredOpportunity)
    requires Affordable(opp) && Sleeps(o, c, s, current, deadline, opp) > 0
    ensures s.world.clock < deadline && Sleeps(o, c, s, current, deadline, opp) <= 2 * Interval(c)
  {
    hide IterateReplacing;
  }

  lemma {:induction false} PromptMonitor(o: Oracle, c: Settings, s: Executor, current: TxHash, deadline: nat, opp: ScoredOpportunity,
                                         from: nat)
    requires Affordable(opp) && Prompt(o, c, from, deadline, s.world)
    ensures Prompt(o, c, from, deadline, Monitor(o, c, s, current, deadline, opp).state.world)
    decreases Max(deadline - s.world.clock, 0)
  {
    IterationRests(o, c, s, current, deadline, opp);
    PromptRound(o, c, s, current, deadline, opp, from);
    hide Iterate, Prompt;
    var i := Iterate(o, c, s, current, deadline, opp);
    if i.Again? {
      PromptMonitor(o, c, i.state, i.current, deadline, opp, from);
    }
  }

  lemma StartTimed(o: Oracle, c: Settings, s: Executor, t: Ticket)
    requires t.Convertible()
    ensures Timed(o, s.world, Start(o, c, s, t).state.world, 0)
  {
    hide Timed, Check, Transaction, Calculator.CalculateReplacementGasPrice;
    OneStep(o, s.world);
    var bid := c.calculator.CalculateReplacementGasPrice(t.VictimPrice(), t.network);
    if bid.Bid? {
      CheckTimed(o, c, s, t.opportunity, bid.price);
      TwoSteps(o, s.world, Check(o, c, s, t.opportunity, bid.price).1.world);
    }
  }

  /** However an execution ends: apart from the delays of the outside world, it takes less than the timeout and two poll
      intervals. */
  lemma ExecutionTime(o: Oracle, c: Settings, s: Executor, t: Ticket)
    requires t.Convertible()
    ensures var w := Execute(o, c, s, t).state.world;
            && w.calls >= s.world.calls
            && w.clock < s.world.clock + Max(c.confirmationTimeoutSecs, 1) * 1_000_000_000 + 2 * Interval(c)
                         + Delays(o, s.world.calls, w.calls)
  {
    hide Start, Monitor, Delays;
    StartTimed(o, c, s, t);
    var launch := Start(o, c, s, t);
    if launch.Launched? {
      var w := Elapse(o, launch.state.world);
      OneStep(o, launch.state.world);
      TimedJoin(o, s.world, launch.state.world, w, 0, 0);
      assert Delays(o, w.calls, w.calls) == 0 by {
        OneStep(o, w);
      }
      PromptMonitor(o, c, launch.state.(world := w), launch.hash, w.clock + c.TimeoutSecs() * SECOND, t.opportunity, w.calls);
      DelaysJoin(o, s.world.calls, w.calls, Execute(o, c, s, t).state.world.calls);
    }
  }
}
