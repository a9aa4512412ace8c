/** How long the monitoring loop waits between its receipt requests. */
module RequestPacing {
  import opened Units
  import opened GasAuction
  import opened Environment
  import opened Opportunities
  import opened Replacement
  import opened BidChains
  import opened PendingTable
  import opened Outcomes
  import opened Scenarios

  /** The configured poll interval, in nanoseconds. */
  function Interval(c: Settings): nat {
    Max(c.pollIntervalSecs, 1) * 1_000_000_000
  }

  /** When the answer to a request arrives. */
  function Answered(o: Oracle, p: Poll): nat {
    p.sent + o(p.call).delay
  }

  /** A request for the same hash waits at least a poll interval after the answer to the one before, unless that was a
      receipt. */
  predicate Waits(o: Oracle, c: Settings, p: Poll, q: Poll) {
    p.hash == q.hash && !Answer(o, p).Mined? ==> q.sent >= Answered(o, p) + Interval(c)
  }

  predicate Spaced(o: Oracle, c: Settings, polls: seq<Poll>) {
    forall i :: 0 <= i < |polls| - 1 ==> Waits(o, c, polls[i], polls[i + 1])
  }

  lemma ReplaceTabled(o: Oracle, c: Settings, s: Executor, entry: PendingSubmission, opp: ScoredOpportunity)
    requires Affordable(opp)
    ensures var (s', replacement) := Replace(o, c, s, entry, opp);
            && s'.world.clock >= s.world.clock
            && (replacement.None? ==> s'.pending == s.pending)
            && (replacement.Some? ==> replacement.value in s'.pending)
  {
    ReplaceAdvances(o, c, s, entry, opp);
    hide Check, Calculator.ApplyAdditionalBump, Transaction;
    var bid := c.calculator.ApplyAdditionalBump(entry.gasPrice);
    if bid.Bid? {
      CheckKeepsTable(o, c, s, opp, bid.price);
    }
  }

  lemma CheckKeepsTable(o: Oracle, c: Settings, s: Executor, opp: ScoredOpportunity, price: U128)
    requires Affordable(opp)
    ensures Check(o, c, s, opp, price).1.pending == s.pending
  {
  }

  /** After its second request was answered without a receipt, a round that does not replace the bid has waited twice: before
      the request and after it. */
  lemma WaitsTwice(o: Oracle, c: Settings, s: Executor, current: TxHash, deadline: nat, opp: ScoredOpportunity)
    requires Affordable(opp) && Iterate(o, c, s, current, deadline, opp).Again?
    requires |RoundPolls(o, c, s, current, deadline)| == 2 && Answer(o, RoundPolls(o, c, s, current, deadline)[1]).NotMined?
    requires Iterate(o, c, s, current, deadline, opp).state.pending == s.pending
    ensures var i := Iterate(o, c, s, current, deadline, opp);
            i.current == current && i.state.world.clock >= s.world.clock + 2 * Interval(c)
  {
    hide Replace;
    var s2 := s.(world := Elapse(o, Elapse(o, s.world)));
    var s4 := Rest(o, c, s2).(world := Elapse(o, Rest(o, c, s2).world));
    ReplaceTabled(o, c, s4, s.pending[current], opp);
  }

  /** The requests of a round are spaced. */
  lemma RoundSpaced(o: Oracle, c: Settings, s: Executor, current: TxHash, deadline: nat)
    ensures Spaced(o, c, RoundPolls(o, c, s, current, deadline))
    ensures forall p <- RoundPolls(o, c, s, current, deadline) :: p.hash == current && p.sent >= s.world.clock
  {
  }

  lemma ReplacingWaits(o: Oracle, c: Settings, s: Executor, current: TxHash, opp: ScoredOpportunity)
    requires Affordable(opp) && current in s.pending && IterateReplacing(o, c, s, current, opp).Again?
    requires o(s.world.calls + 1).receipt(current).NotMined?
    ensures var i, asked := IterateReplacing(o, c, s, current, opp), Rest(o, c, s).world.clock;
            i.current == current && current in i.state.pending ==> i.state.world.clock >= asked + o(s.world.calls + 1).delay + Interval(c)
  {
    hide Replace;
    var s4 := Rest(o, c, s).(world := Elapse(o, Rest(o, c, s).world));
    ReplaceTabled(o, c, s4, s.pending[current], opp);
  }

  /** If the same hash is polled next, the next round starts at least an interval after the last answer, unless that was a
      receipt or the bid was replaced by itself. */
  lemma RoundEndsSpaced(o: Oracle, c: Settings, s: Executor, current: TxHash, deadline: nat, opp: ScoredOpportunity)
    requires Affordable(opp) && Iterate(o, c, s, current, deadline, opp).Again?
    ensures var i, polls := Iterate(o, c, s, current, deadline, opp), RoundPolls(o, c, s, current, deadline);
            && polls != []
            && (i.current == current && (current in s.pending ==> current in i.state.pending) && !Answer(o, polls[|polls| - 1]).Mined? ==>
                  i.state.world.clock >= Answered(o, polls[|polls| - 1]) + Interval(c))
  {
    hide IterateReplacing;
    var s2 := s.(world := Elapse(o, Elapse(o, s.world)));
    if current in s2.pending && s2.pending[current].replacementAttempts < MAX_REPLACEMENT_ATTEMPTS {
      ReplacingAnswers(o, c, s2, current, opp);
      if o(s2.world.calls + 1).receipt(current).NotMined? {
        ReplacingWaits(o, c, s2, current, opp);
      }
    }
  }

  lemma FirstPoll(o: Oracle, c: Settings, s: Executor, current: TxHash, deadline: nat, opp: ScoredOpportunity)
    requires Affordable(opp)
    ensures var polls := Polls(o, c, s, current, deadline, opp);
            polls != [] ==> polls[0].hash == current && polls[0].sent >= s.world.clock
  {
    RoundSpaced(o, c, s, current, deadline);
    var round := RoundPolls(o, c, s, current, deadline);
    if round == [] {
      assert Elapse(o, s.world).clock >= deadline;
      assert Iterate(o, c, s, current, deadline, opp).Returned?;
    } else {
      assert round[0] in round;
    }
    hide Iterate, RoundPolls;
  }

  lemma SpacedJoined(o: Oracle, c: Settings, a: seq<Poll>, b: seq<Poll>)
    requires Spaced(o, c, a) && Spaced(o, c, b)
    requires a != [] && b != [] ==> Waits(o, c, a[|a| - 1], b[0])
    ensures Spaced(o, c, a + b)
  {
    hide Waits;
    var all := a + b;
    forall i | 0 <= i < |all| - 1 ensures Waits(o, c, all[i], all[i + 1]) {
      if i >= |a| {
        assert all[i] == b[i - |a|] && all[i + 1] == b[i - |a| + 1];
      }
    }
  }

  /** The bump of the first price raises it, and the hard cap is representable. */
  predicate Raises(c: Settings, first: U128) {
    WholeWeiBump(first, c.calculator.replacementBump) && c.calculator.maxGasPrice * WEI_PER_GWEI < U128_MAX as real
  }

  /** Then the polled hash is always in the table. */
  lemma AlwaysTabled(c: Settings, opp: ScoredOpportunity, nonce: U64, first: U128, base: seq<Event>, s: Executor, current: TxHash)
    requires c.Valid() && Raises(c, first) && Monitoring(c, opp, nonce, first, base, s, current) && Shown(c, first, base, s, current)
    ensures current in s.pending
  {
    EntryByFirstBump(c, opp, nonce, first, BidsSince(s.log, base));
    hide BidChain, HasEntry, WholeWeiBump;
  }

  lemma {:induction false} MonitorSpaced(o: Oracle, c: Settings, opp: ScoredOpportunity, nonce: U64, first: U128, base: seq<Event>,
                                         s: Executor, current: TxHash, deadline: nat)
    requires c.Valid() && Affordable(opp) && Raises(c, first)
    requires Monitoring(c, opp, nonce, first, base, s, current) && Shown(c, first, base, s, current)
    ensures Spaced(o, c, Polls(o, c, s, current, deadline, opp))
    decreases Max(deadline - s.world.clock, 0)
  {
    hide Iterate, RoundPolls, Spaced, Monitoring, Shown, Raises, Answer, Answered, Interval, Settings.Valid;
    IterationRests(o, c, s, current, deadline, opp);
    IterateMonitors(o, c, opp, nonce, first, base, s, current, deadline);
    IterateShown(o, c, opp, nonce, first, base, s, current, deadline);
    RoundSpaced(o, c, s, current, deadline);
    var i, round := Iterate(o, c, s, current, deadline, opp), RoundPolls(o, c, s, current, deadline);
    if i.Again? {
      MonitorSpaced(o, c, opp, nonce, first, base, i.state, i.current, deadline);
      AlwaysTabled(c, opp, nonce, first, base, i.state, i.current);
      RoundEndsSpaced(o, c, s, current, deadline, opp);
      FirstPoll(o, c, i.state, i.current, deadline, opp);
      assert round[|round| - 1] in round;
      SpacedJoined(o, c, round, Polls(o, c, i.state, i.current, deadline, opp));
    } else {
      assert round + [] == round;
    }
  }

  /** Two consecutive requests of one execution for the same hash are at least a poll interval apart, unless the earlier one
      was answered with a receipt, whenever the bump of the first price raises it. */
  lemma ExecutionSpaced(o: Oracle, c: Settings, s: Executor, t: Ticket, price: U128)
    requires c.Valid() && t.Convertible() && Raises(c, price)
    requires c.calculator.CalculateReplacementGasPrice(t.VictimPrice(), t.network) == Bid(price)
    ensures Spaced(o, c, ExecutionPolls(o, c, s, t))
  {
    hide Start, FollowUpPolls, Monitoring, BidChain, Raises, Spaced, Settings.Valid, HasEntry,
      Calculator.CalculateReplacementGasPrice, Bids;
    StartMonitors(o, c, s, t);
    LaunchTabled(o, c, s, t);
    var launch := Start(o, c, s, t);
    if launch.Launched? {
      FirstHasEntry(c, price);
      FollowUpSpaced(o, c, launch.state, launch.hash, t.opportunity, s.nextNonce, price, s.log);
    } else {
      NothingSpaced(o, c);
    }
  }

  lemma FirstHasEntry(c: Settings, first: U128)
    ensures HasEntry(c, first, 1)
  {
  }

  lemma FollowUpSpaced(o: Oracle, c: Settings, s: Executor, hash: TxHash, opp: ScoredOpportunity, nonce: U64, first: U128,
                       base: seq<Event>)
    requires c.Valid() && Affordable(opp) && Raises(c, first)
    requires Monitoring(c, opp, nonce, first, base, s, hash) && Shown(c, first, base, s, hash)
    ensures Spaced(o, c, FollowUpPolls(o, c, s, hash, opp))
  {
    hide Polls, Monitoring, BidChain, Raises, Spaced, HasEntry, Settings.Valid, Bids;
    var s1 := s.(world := Elapse(o, s.world));
    WorldIsIrrelevant(c, opp, nonce, first, base, s, s1, hash);
    MonitorSpaced(o, c, opp, nonce, first, base, s1, hash, s1.world.clock + c.TimeoutSecs() * SECOND);
  }

  lemma NothingSpaced(o: Oracle, c: Settings)
    ensures Spaced(o, c, [])
  {
  }

  lemma LaunchTabled(o: Oracle, c: Settings, s: Executor, t: Ticket)
    requires t.Convertible()
    ensures var launch := Start(o, c, s, t); launch.Launched? ==> launch.hash in launch.state.pending
  {
    hide Safety.Preflight, Calculator.CalculateReplacementGasPrice;
  }

  /** When the bump is lost, the bid is replaced by itself, and the next round asks for it at once. */
  lemma LostBumpUnspaced(c: Settings, s: Executor, t: Ticket, price: U128) returns (o: Oracle)
    requires Ready(c, s, t, price) && !WholeWeiBump(price, c.calculator.replacementBump)
    requires c.calculator.ApplyAdditionalBump(price).Bid?
    ensures !Spaced(o, c, ExecutionPolls(o, c, s, t))
  {
    hide Execute, Polls, ExecutionPolls, LoopStart, Clear, OnlyCurrent, Transaction, WholeWeiBump, NonceUnused,
      Calculator.ApplyAdditionalBump, Calculator.CalculateReplacementGasPrice, Settings.Poll, Settings.TimeoutSecs, Monitor;
    o := FailsAt(s.world.calls + 12);
    SameBidAgain(c.calculator, price);
    LoopStartHolds(c, s, t, price);
    CalmExecution(o, c, s, t, price);
    LostBumpPolls(c, LoopStart(c, s, t, price), FirstBid(c, s, t, price), Deadline(c, s), t.opportunity);
  }

  lemma LostBumpPolls(c: Settings, s: Executor, current: TxHash, deadline: nat, opp: ScoredOpportunity)
    requires current in s.pending && s.pending[current].replacementAttempts == 0
    requires current == Transaction(c, opp, s.pending[current].nonce, s.pending[current].gasPrice)
    requires c.calculator.ApplyAdditionalBump(s.pending[current].gasPrice) == Bid(s.pending[current].gasPrice)
    requires Clear(c, s, opp, s.pending[current].gasPrice) && s.world.clock + c.Poll() < deadline
    ensures !Spaced(FailsAt(s.world.calls + 8), c, Polls(FailsAt(s.world.calls + 8), c, s, current, deadline, opp))
  {
    var o, price := FailsAt(s.world.calls + 8), s.pending[current].gasPrice;
    ReplacingRound(o, c, s, current, deadline, opp, price);
    var s' := AfterReplacement(c, s, current, opp, price);
    OneRoundMore(o, c, s, s', current, current, deadline, opp);
    FailingPolls(c, s', current, deadline, opp, s.world.calls + 8);
    hide Iterate, Polls, RoundPolls, Clear, Transaction, Calculator.ApplyAdditionalBump;
    var polls := Polls(o, c, s, current, deadline, opp);
    assert polls[1].sent == polls[2].sent && polls[1].hash == polls[2].hash;
    assert !Waits(o, c, polls[1], polls[2]);
  }

  lemma FailingPolls(c: Settings, s: Executor, current: TxHash, deadline: nat, opp: ScoredOpportunity, call: nat)
    requires Affordable(opp) && call == s.world.calls + 1 && s.world.clock < deadline
    ensures Polls(FailsAt(call), c, s, current, deadline, opp) == [Poll(call, current, true, s.world.clock)]
  {
  }

  /** So for a first bid that can be made and bumped, the requests are spaced in every world exactly when the bump raises
      the first price. */
  lemma SpacedExactly(c: Settings, s: Executor, t: Ticket, price: U128)
    requires Ready(c, s, t, price) && c.calculator.ApplyAdditionalBump(price).Bid?
    requires c.calculator.maxGasPrice * WEI_PER_GWEI < U128_MAX as real
    ensures (forall o: Oracle :: Spaced(o, c, ExecutionPolls(o, c, s, t))) <==> WholeWeiBump(price, c.calculator.replacementBump)
  {
    hide ExecutionPolls, Spaced, WholeWeiBump, Clear, NonceUnused, Calculator.ApplyAdditionalBump,
      Calculator.CalculateReplacementGasPrice, Settings.Valid;
    if WholeWeiBump(price, c.calculator.replacementBump) {
      forall o: Oracle ensures Spaced(o, c, ExecutionPolls(o, c, s, t)) {
        ExecutionSpaced(o, c, s, t, price);
      }
    } else {
      var o := LostBumpUnspaced(c, s, t, price);
    }
  }
}
