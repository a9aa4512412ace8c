/** What a reported drop does not mean: the receipt request before a replacement may have been answered with a receipt. */
module DroppedBids {
  import opened Units
  import opened GasAuction
  import opened Environment
  import opened Opportunities
  import opened Safety
  import opened Replacement
  import opened BidChains
  import opened Outcomes

  /** A node that has given a receipt keeps giving one. */
  ghost predicate ReceiptsPersist(o: Oracle) {
    forall j: nat, k: nat, hash: TxHash :: j <= k && o(j).receipt(hash).Mined? ==> o(k).receipt(hash).Mined?
  }

  lemma ReceiptPersists(o: Oracle, j: nat, k: nat, hash: TxHash)
    requires ReceiptsPersist(o) && j <= k && o(j).receipt(hash).Mined?
    ensures o(k).receipt(hash).Mined?
  {
  }

  predicate SawReceipt(o: Oracle, polls: seq<Poll>) {
    exists p <- polls :: Answer(o, p).Mined?
  }

  /** The last request before the final reading of the clock came before a replacement and was answered with a receipt of
      the dropped hash: the deadline passed before the next round could see it. */
  predicate SeenTooLate(o: Oracle, polls: seq<Poll>, calls: nat, hash: TxHash) {
    && calls >= 2 && polls != []
    && var last := polls[|polls| - 1];
       last.call == calls - 2 && last.hash == hash && !last.first && Answer(o, last).Mined?
  }

  /** After a receipt at the second request, the next round drops the bid or confirms it. */
  lemma ReceiptDecides(o: Oracle, c: Settings, s: Executor, current: TxHash, deadline: nat, opp: ScoredOpportunity)
    requires Affordable(opp) && ReceiptsPersist(o) && s.world.calls > 0 && o(s.world.calls - 1).receipt(current).Mined?
    requires IsDrop(Monitor(o, c, s, current, deadline, opp).result)
    ensures Polls(o, c, s, current, deadline, opp) == []
    ensures Monitor(o, c, s, current, deadline, opp).state.world.calls == s.world.calls + 1
    ensures Monitor(o, c, s, current, deadline, opp).result.outcome.hash == current
  {
    hide IterateReplacing;
    ReceiptPersists(o, s.world.calls - 1, s.world.calls + 1, current);
    hide ReceiptsPersist;
  }

  /** A round that goes on after having seen a receipt saw it at its last request, and polls the same hash next. */
  lemma ReceiptWithinRound(o: Oracle, c: Settings, s: Executor, current: TxHash, deadline: nat, opp: ScoredOpportunity)
    requires Affordable(opp) && Iterate(o, c, s, current, deadline, opp).Again?
    requires SawReceipt(o, RoundPolls(o, c, s, current, deadline))
    ensures var i, polls := Iterate(o, c, s, current, deadline, opp), RoundPolls(o, c, s, current, deadline);
            && i.current == current && i.state.world.calls > 0 && polls != []
            && polls[|polls| - 1].call == i.state.world.calls - 1 && polls[|polls| - 1].hash == current && !polls[|polls| - 1].first
            && o(i.state.world.calls - 1).receipt(current).Mined?
  {
    hide IterateReplacing;
    var s2 := s.(world := Elapse(o, Elapse(o, s.world)));
    if current in s2.pending {
      ReplacingAnswers(o, c, s2, current, opp);
    }
  }

  lemma SawAppended(o: Oracle, a: seq<Poll>, b: seq<Poll>)
    ensures SawReceipt(o, a + b) <==> SawReceipt(o, a) || SawReceipt(o, b)
  {
    hide Answer;
    if SawReceipt(o, a) {
      var p :| p in a && Answer(o, p).Mined?;
      assert p in a + b;
    }
    if SawReceipt(o, b) {
      var p :| p in b && Answer(o, p).Mined?;
      assert p in a + b;
    }
  }

  lemma TooLateWasSeen(o: Oracle, polls: seq<Poll>, calls: nat, hash: TxHash)
    requires SeenTooLate(o, polls, calls, hash)
    ensures SawReceipt(o, polls)
  {
    assert polls[|polls| - 1] in polls;
  }

  /** While receipts persist, a dropped bid had a receipt seen for it exactly when it was seen too late. */
  lemma {:induction false} DropSawReceiptExactly(o: Oracle, c: Settings, s: Executor, current: TxHash, deadline: nat,
                                                 opp: ScoredOpportunity)
    requires Affordable(opp) && ReceiptsPersist(o) && IsDrop(Monitor(o, c, s, current, deadline, opp).result)
    ensures var run, polls := Monitor(o, c, s, current, deadline, opp), Polls(o, c, s, current, deadline, opp);
            SawReceipt(o, polls) <==> SeenTooLate(o, polls, run.state.world.calls, run.result.outcome.hash)
    decreases Max(deadline - s.world.clock, 0)
  {
    hide ReceiptsPersist, Iterate, RoundPolls, SawReceipt;
    IterationRests(o, c, s, current, deadline, opp);
    var i, round := Iterate(o, c, s, current, deadline, opp), RoundPolls(o, c, s, current, deadline);
    var run, polls := Monitor(o, c, s, current, deadline, opp), Polls(o, c, s, current, deadline, opp);
    if i.Again? {
      var rest := Polls(o, c, i.state, i.current, deadline, opp);
      SawAppended(o, round, rest);
      if SawReceipt(o, round) {
        ReceiptWithinRound(o, c, s, current, deadline, opp);
        ReceiptDecides(o, c, i.state, i.current, deadline, opp);
        assert polls == round;
      } else {
        DropSawReceiptExactly(o, c, i.state, i.current, deadline, opp);
        assert rest != [] ==> polls[|polls| - 1] == rest[|rest| - 1];
      }
    } else {
      DropSeesNothing(o, c, s, current, deadline, opp);
    }
    if SeenTooLate(o, polls, run.state.world.calls, run.result.outcome.hash) {
      TooLateWasSeen(o, polls, run.state.world.calls, run.result.outcome.hash);
    }
  }

  lemma DropSeesNothing(o: Oracle, c: Settings, s: Executor, current: TxHash, deadline: nat, opp: ScoredOpportunity)
    requires Affordable(opp)
    requires Iterate(o, c, s, current, deadline, opp).Returned? && IsDrop(Iterate(o, c, s, current, deadline, opp).result)
    ensures RoundPolls(o, c, s, current, deadline) == [] && !SawReceipt(o, Polls(o, c, s, current, deadline, opp))
  {
    hide IterateReplacing;
    var s2 := s.(world := Elapse(o, Elapse(o, s.world)));
    if current in s2.pending {
      ReplacingAnswers(o, c, s2, current, opp);
    }
  }

  lemma StartNeverDrops(o: Oracle, c: Settings, s: Executor, t: Ticket)
    requires t.Convertible()
    ensures Start(o, c, s, t).Stopped? ==> !IsDrop(Start(o, c, s, t).result)
  {
    hide Preflight, Calculator.CalculateReplacementGasPrice;
  }

  /** The same for a whole execution. */
  lemma DroppedExecution(o: Oracle, c: Settings, s: Executor, t: Ticket)
    requires c.Valid() && t.Convertible() && ReceiptsPersist(o)
    ensures var run, polls := Execute(o, c, s, t), ExecutionPolls(o, c, s, t);
            IsDrop(run.result) ==>
              (SawReceipt(o, polls) <==> SeenTooLate(o, polls, run.state.world.calls, run.result.outcome.hash))
  {
    hide Start, Monitor, Polls, ReceiptsPersist, SawReceipt, SeenTooLate, Monitoring;
    StartNeverDrops(o, c, s, t);
    var launch := Start(o, c, s, t);
    if launch.Launched? && IsDrop(Execute(o, c, s, t).result) {
      var s1 := launch.state.(world := Elapse(o, launch.state.world));
      DropSawReceiptExactly(o, c, s1, launch.hash, s1.world.clock + c.TimeoutSecs() * SECOND, t.opportunity);
    }
  }

  /** A prompt node that mines everything from interaction `mined` on, after which the bot is late. */
  function LateReading(mined: nat, delay: nat): Oracle {
    k => Reply(if k == mined + 1 then delay else 0, true, true, hash => if k >= mined then Mined(Some(1), Some(21000)) else NotMined)
  }

  /** It happens: whenever a polled bid may still be replaced and one poll interval fits before the deadline, some node gives
      a receipt before the deadline and the bid is dropped all the same. The drop counts as a failure, and the gas of the
      mined bid is never recorded. */
  lemma MinedBidDropped(c: Settings, s: Executor, current: TxHash, deadline: nat, opp: ScoredOpportunity) returns (o: Oracle)
    requires Affordable(opp) && s.world.clock + c.Poll() < deadline
    requires current in s.pending && s.pending[current].replacementAttempts < MAX_REPLACEMENT_ATTEMPTS
    ensures ReceiptsPersist(o)
    ensures var run, polls := Monitor(o, c, s, current, deadline, opp), Polls(o, c, s, current, deadline, opp);
            && run.result == Ok(Dropped(current, c.TimeoutSecs()))
            && SeenTooLate(o, polls, run.state.world.calls, current)
            && run.state.guard == FailureRecorded(s.guard)
    ensures var read := s.world.calls + 3;   // the request before the replacement; the clock then stood before the deadline
            o(read).receipt(current) == Mined(Some(1), Some(21000)) && s.world.clock + c.Poll() + o(read).delay < deadline
  {
    o := LateReading(s.world.calls + 3, deadline);
    var s2 := s.(world := Elapse(o, Elapse(o, s.world)));
    var s4 := Rest(o, c, s2).(world := Elapse(o, Rest(o, c, s2).world));
    assert IterateReplacing(o, c, s2, current, opp) == Again(s4, current);
    assert Iterate(o, c, s, current, deadline, opp) == Again(s4, current);
    LateRound(o, c, s4, current, deadline, opp);
    OneMoreRound(o, c, s, s4, current, deadline, opp);
    hide Iterate, IterateReplacing;
  }

  lemma LateRound(o: Oracle, c: Settings, s: Executor, current: TxHash, deadline: nat, opp: ScoredOpportunity)
    requires Affordable(opp) && Elapse(o, s.world).clock >= deadline
    ensures Polls(o, c, s, current, deadline, opp) == []
    ensures Monitor(o, c, s, current, deadline, opp)
            == Run(Drop(c, s.(world := Elapse(o, s.world)), current), Ok(Dropped(current, c.TimeoutSecs())), 1)
  {
  }

  lemma OneMoreRound(o: Oracle, c: Settings, s: Executor, s': Executor, current: TxHash, deadline: nat, opp: ScoredOpportunity)
    requires Affordable(opp) && Iterate(o, c, s, current, deadline, opp) == Again(s', current)
    requires Polls(o, c, s', current, deadline, opp) == []
    ensures Polls(o, c, s, current, deadline, opp) == RoundPolls(o, c, s, current, deadline)
    ensures var run := Monitor(o, c, s', current, deadline, opp);
            Monitor(o, c, s, current, deadline, opp) == run.(rounds := run.rounds + 1)
  {
    hide Iterate, RoundPolls;
  }
}
