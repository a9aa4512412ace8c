/** What every execution of one opportunity guarantees, whatever the signer, the node and the clock do. */
module Runs {
  import opened Units
  import opened Environment
  import opened Opportunities
  import opened Replacement

  // Termination of the monitoring loop

  /** After n rounds that did not return, n poll intervals have passed; so a loop of n + 1 rounds took less than the
      time to the deadline plus one interval. */
  lemma {:induction false} MonitorRounds(o: Oracle, c: Settings, s: Executor, current: TxHash, deadline: nat,
                                         opp: ScoredOpportunity, poll: nat)
    requires Affordable(opp) && poll == c.Poll()
    ensures var rounds := Monitor(o, c, s, current, deadline, opp).rounds;
            rounds >= 1 && (rounds - 1) * poll < Max(deadline - s.world.clock, 0) + poll
    decreases Max(deadline - s.world.clock, 0)
  {
    IterationRests(o, c, s, current, deadline, opp);
    hide Iterate, Settings.Poll;
    var i := Iterate(o, c, s, current, deadline, opp);
    if i.Again? {
      MonitorRounds(o, c, i.state, i.current, deadline, opp, poll);
      OneMore(Monitor(o, c, i.state, i.current, deadline, opp).rounds, poll);
    }
  }

  lemma OneMore(rounds: nat, poll: nat)
    ensures rounds * poll == (rounds - 1) * poll + poll
  {
  }

  function CeilDiv(x: nat, y: nat): nat
    requires y > 0
  {
    (x + y - 1) / y
  }

  lemma RoundsBound(rounds: nat, timeout: nat, poll: nat)
    requires poll > 0 && rounds >= 1 && (rounds - 1) * poll < timeout + poll
    ensures rounds <= CeilDiv(timeout, poll) + 1
  {
    var q := CeilDiv(timeout, poll);
    assert q * poll >= timeout by {
      assert (timeout + poll - 1) == q * poll + (timeout + poll - 1) % poll;
    }
    if rounds - 1 >= q + 1 {
      MulMonotone(q + 1, rounds - 1, poll);
    }
  }

  lemma MulMonotone(x: nat, y: nat, z: nat)
    requires x <= y
    ensures x * z <= y * z
  {
  }

  /** Nanoseconds cancel. */
  lemma InSeconds(rounds: nat, timeout: nat, poll: nat)
    requires rounds >= 1 && (rounds - 1) * (poll * SECOND) < timeout * SECOND + poll * SECOND
    ensures (rounds - 1) * poll < timeout + poll
  {
    assert (rounds - 1) * (poll * SECOND) == ((rounds - 1) * poll) * SECOND;
  }

  /** Every execution polls at most ceil(timeout / poll) + 1 times, for the configured times of at least a second. */
  lemma ExecutionTerminates(o: Oracle, c: Settings, s: Executor, t: Ticket)
    requires t.Convertible()
    ensures Execute(o, c, s, t).rounds <= CeilDiv(Max(c.confirmationTimeoutSecs, 1), Max(c.pollIntervalSecs, 1)) + 1
  {
    hide Start, Monitor, CeilDiv;
    var launch := Start(o, c, s, t);
    if launch.Launched? {
      var w := Elapse(o, launch.state.world);
      var s1 := launch.state.(world := w);
      MonitorRounds(o, c, s1, launch.hash, w.clock + c.TimeoutSecs() * SECOND, t.opportunity, c.Poll());
      InSeconds(Execute(o, c, s, t).rounds, c.TimeoutSecs(), Max(c.pollIntervalSecs, 1));
      RoundsBound(Execute(o, c, s, t).rounds, c.TimeoutSecs(), Max(c.pollIntervalSecs, 1));
    }
  }
}
