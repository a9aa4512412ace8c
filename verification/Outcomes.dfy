/** What the reported outcome of an execution means: the requests it made, and the evidence behind every result. */
module Outcomes {
  import opened Units
  import opened GasAuction
  import opened Environment
  import opened Opportunities
  import opened Replacement
  import opened BidChains

  /** A receipt request: at which interaction, for which hash, whether it opens a round of the loop, and when it was sent.
      The other kind comes before a replacement. */
  datatype Poll = Poll(call: nat, hash: TxHash, first: bool, sent: nat)

  function Answer(o: Oracle, p: Poll): Receipt {
    o(p.call).receipt(p.hash)
  }

  /** The requests of one round. */
  function RoundPolls(o: Oracle, c: Settings, s: Executor, current: TxHash, deadline: nat): seq<Poll> {
    var w := Elapse(o, s.world);
    if w.clock >= deadline then []
    else
      var opening := Poll(w.calls, current, true, w.clock);
      if Answer(o, opening).NotMined? && current in s.pending && s.pending[current].replacementAttempts < MAX_REPLACEMENT_ATTEMPTS
      then [opening, Poll(w.calls + 2, current, false, Slept(o, Elapse(o, w), c.Poll()).clock)] else [opening]
  }

  /** All requests of the monitoring loop, in order. */
  function Polls(o: Oracle, c: Settings, s: Executor, current: TxHash, deadline: nat, opp: ScoredOpportunity): seq<Poll>
    requires Affordable(opp)
    decreases Max(deadline - s.world.clock, 0)
  {
    IterationRests(o, c, s, current, deadline, opp);
    RoundPolls(o, c, s, current, deadline)
    + match Iterate(o, c, s, current, deadline, opp)
      case Returned(_, _) => []
      case Again(s', next) => Polls(o, c, s', next, deadline, opp)
  }

  /** Answers with which the loop goes on: no receipt at the opening of a round; before a replacement, anything but an
      error - a receipt seen there does not settle the loop. */
  predicate Unsettled(o: Oracle, polls: seq<Poll>) {
    forall p <- polls :: if p.first then Answer(o, p).NotMined? else !Answer(o, p).RpcError?
  }

  predicate Within(polls: seq<Poll>, from: nat, to: nat) {
    forall p <- polls :: from <= p.call < to
  }

  /** The evidence for the end of a monitoring loop that last polled `current`. A confirmation repeats the receipt given to
      the last request, which opened a round; a drop comes after the deadline, and no round had opened with a receipt; an
      error is the last request unanswered. */
  predicate Justified(o: Oracle, c: Settings, deadline: nat, from: nat, polls: seq<Poll>, s': Executor, result: RunResult,
                      current: TxHash)
  {
    && Within(polls, from, s'.world.calls)
    && match result
       case Ok(Confirmed(hash, block, gas)) =>
         && hash == current && polls != [] && Unsettled(o, polls[..|polls| - 1])
         && var last := polls[|polls| - 1];
            && last.first && last.hash == hash
            && var receipt := Answer(o, last);
               && receipt.Mined?
               && block == (if receipt.blockNumber.Some? then receipt.blockNumber.value else 0)
               && gas == (if receipt.gasUsed.Some? then receipt.gasUsed.value else 0)
       case Ok(Dropped(hash, secs)) =>
         hash == current && secs == c.TimeoutSecs() && s'.world.clock >= deadline && Unsettled(o, polls)
       case Err(error) =>
         && error == RpcFailed && polls != [] && Unsettled(o, polls[..|polls| - 1])
         && var last := polls[|polls| - 1];
            last.hash == current && last.call == s'.world.calls - 1 && Answer(o, last).RpcError?
       case _ => false
  }

  lemma CallsGrow(o: Oracle, c: Settings, s: Executor, entry: PendingSubmission, opp: ScoredOpportunity)
    requires Affordable(opp)
    ensures Replace(o, c, s, entry, opp).0.world.calls >= s.world.calls
  {
    hide Calculator.ApplyAdditionalBump;
  }

  /** What the second request of a round means for it. */
  lemma ReplacingAnswers(o: Oracle, c: Settings, s: Executor, current: TxHash, opp: ScoredOpportunity)
    requires Affordable(opp) && current in s.pending
    ensures var i, receipt := IterateReplacing(o, c, s, current, opp), o(s.world.calls + 1).receipt(current);
            && i.state.world.calls >= s.world.calls + 2
            && (i.Returned? <==> receipt.RpcError?)
            && (i.Returned? ==> i.result == Err(RpcFailed) && i.state == s.(world := i.state.world)
                                && i.state.world.calls == s.world.calls + 2)
            && (receipt.Mined? ==> i.Again? && i.current == current && i.state.world.calls == s.world.calls + 2)
  {
    hide Replace;
    var s4 := Rest(o, c, s).(world := Elapse(o, Rest(o, c, s).world));
    CallsGrow(o, c, s4, s.pending[current], opp);
  }

  lemma IterateJustified(o: Oracle, c: Settings, s: Executor, current: TxHash, deadline: nat, opp: ScoredOpportunity)
    requires Affordable(opp)
    ensures var i, polls := Iterate(o, c, s, current, deadline, opp), RoundPolls(o, c, s, current, deadline);
            && i.state.world.calls >= s.world.calls
            && match i
               case Returned(s', result) => s'.log == s.log && Justified(o, c, deadline, s.world.calls, polls, s', result, current)
               case Again(s', _) => Within(polls, s.world.calls, s'.world.calls) && Unsettled(o, polls)
  {
    hide IterateReplacing;
    var s2 := s.(world := Elapse(o, Elapse(o, s.world)));
    if current in s2.pending {
      ReplacingAnswers(o, c, s2, current, opp);
    }
  }

  /** Earlier requests that did not settle the loop come before the evidence. */
  lemma EarlierPolls(o: Oracle, c: Settings, deadline: nat, from: nat, middle: nat, earlier: seq<Poll>, polls: seq<Poll>,
                     s': Executor, result: RunResult, current: TxHash)
    requires from <= middle <= s'.world.calls && Within(earlier, from, middle) && Unsettled(o, earlier)
    requires Justified(o, c, deadline, middle, polls, s', result, current)
    ensures Justified(o, c, deadline, from, earlier + polls, s', result, current)
  {
    hide Answer;
    if polls != [] {
      assert (earlier + polls)[..|earlier + polls| - 1] == earlier + polls[..|polls| - 1];
    }
  }

  lemma {:induction false} CallsAdvance(o: Oracle, c: Settings, s: Executor, current: TxHash, deadline: nat, opp: ScoredOpportunity)
    requires Affordable(opp)
    ensures Monitor(o, c, s, current, deadline, opp).state.world.calls >= s.world.calls
    decreases Max(deadline - s.world.clock, 0)
  {
    IterationRests(o, c, s, current, deadline, opp);
    IterateJustified(o, c, s, current, deadline, opp);
    hide Iterate, Justified;
    var i := Iterate(o, c, s, current, deadline, opp);
    if i.Again? {
      CallsAdvance(o, c, i.state, i.current, deadline, opp);
    }
  }

  /** The loop ends with evidence about the last bid of the chain. */
  lemma {:induction false} MonitorJustified(o: Oracle, c: Settings, opp: ScoredOpportunity, nonce: U64, first: U128,
                                            base: seq<Event>, s: Executor, current: TxHash, deadline: nat)
    requires c.Valid() && Affordable(opp) && Monitoring(c, opp, nonce, first, base, s, current)
    ensures var run := Monitor(o, c, s, current, deadline, opp);
            && Extends(run.state.log, base)
            && var bids := BidsSince(run.state.log, base);
               bids != [] && Justified(o, c, deadline, s.world.calls, Polls(o, c, s, current, deadline, opp), run.state, run.result,
                                       bids[|bids| - 1])
    decreases Max(deadline - s.world.clock, 0)
  {
    IterationRests(o, c, s, current, deadline, opp);
    IterateMonitors(o, c, opp, nonce, first, base, s, current, deadline);
    IterateJustified(o, c, s, current, deadline, opp);
    hide Iterate, Justified, BidChain, RoundPolls, Unsettled;
    var i, round := Iterate(o, c, s, current, deadline, opp), RoundPolls(o, c, s, current, deadline);
    if i.Again? {
      MonitorJustified(o, c, opp, nonce, first, base, i.state, i.current, deadline);
      CallsAdvance(o, c, i.state, i.current, deadline, opp);
      var run := Monitor(o, c, s, current, deadline, opp);
      var bids := BidsSince(run.state.log, base);
      EarlierPolls(o, c, deadline, s.world.calls, i.state.world.calls, round, Polls(o, c, i.state, i.current, deadline, opp),
                   run.state, run.result, bids[|bids| - 1]);
    } else {
      assert Polls(o, c, s, current, deadline, opp) == round;
    }
  }

  // Whole executions

  /** The receipt requests of an execution. */
  function ExecutionPolls(o: Oracle, c: Settings, s: Executor, t: Ticket): seq<Poll>
    requires t.Convertible()
  {
    match Start(o, c, s, t)
    case Stopped(_, _) => []
    case Launched(s1, hash) => FollowUpPolls(o, c, s1, hash, t.opportunity)
  }

  function FollowUpPolls(o: Oracle, c: Settings, s: Executor, hash: TxHash, opp: ScoredOpportunity): seq<Poll>
    requires Affordable(opp)
  {
    var s1 := s.(world := Elapse(o, s.world));
    Polls(o, c, s1, hash, s1.world.clock + c.TimeoutSecs() * SECOND, opp)
  }

  /** How far an execution got, read off its history: nothing signed, signing failed, first broadcast refused, or a chain
      of accepted bids with evidence for the result. */
  predicate Explained(o: Oracle, c: Settings, s: Executor, t: Ticket, s': Executor, result: RunResult)
    requires t.Convertible() && Extends(s'.log, s.log)
  {
    var bids, events := BidsSince(s'.log, s.log), s'.log[|s.log|..];
    match result
    case Err(BidTooHigh) => s' == s && c.calculator.CalculateReplacementGasPrice(t.VictimPrice(), t.network).GasPriceExceeded?
    case Err(Blocked(_)) => events == []
    case Err(NonceConflict) => events == [] && !s.synced
    case Err(SigningFailed) => |events| == 1 && events[0].Unsigned? && events[0].first
    case Ok(Rejected) => |events| == 1 && events[0].Refused? && events[0].first
    case _ =>
      bids != [] && Justified(o, c, s.world.clock + c.TimeoutSecs() * SECOND, s.world.calls, ExecutionPolls(o, c, s, t), s', result,
                               bids[|bids| - 1])
  }

  lemma StartExplained(o: Oracle, c: Settings, s: Executor, t: Ticket)
    requires c.Valid() && t.Convertible()
    ensures var launch := Start(o, c, s, t);
            && launch.state.world.clock >= s.world.clock && launch.state.world.calls >= s.world.calls
            && (launch.Stopped? ==> Extends(launch.state.log, s.log) && Explained(o, c, s, t, launch.state, launch.result))
  {
    hide Calculator.CalculateReplacementGasPrice, Justified, ExecutionPolls;
    var bid := c.calculator.CalculateReplacementGasPrice(t.VictimPrice(), t.network);
    if bid.Bid? {
      CheckKeeps(o, c, s, t.opportunity, bid.price);
    }
  }

  lemma LaterDeadline(o: Oracle, c: Settings, deadline: nat, deadline1: nat, from: nat, from1: nat, polls: seq<Poll>, s': Executor,
                      result: RunResult, current: TxHash)
    requires deadline <= deadline1 && from <= from1 && Justified(o, c, deadline1, from1, polls, s', result, current)
    ensures Justified(o, c, deadline, from, polls, s', result, current)
    ensures result.Ok? ==> result.outcome.Confirmed? || result.outcome.Dropped?
    ensures result.Err? ==> result.error == RpcFailed
  {
    hide Unsettled, Answer;
  }

  lemma FollowUpJustified(o: Oracle, c: Settings, launch: Launch, opp: ScoredOpportunity, nonce: U64, first: U128,
                          base: seq<Event>, deadline: nat, from: nat)
    requires c.Valid() && Affordable(opp) && launch.Launched? && Monitoring(c, opp, nonce, first, base, launch.state, launch.hash)
    requires deadline <= launch.state.world.clock + c.TimeoutSecs() * SECOND && from <= launch.state.world.calls
    ensures var run := FollowUp(o, c, launch, opp);
            && Extends(run.state.log, base)
            && var bids := BidsSince(run.state.log, base);
               && bids != [] && Justified(o, c, deadline, from, FollowUpPolls(o, c, launch.state, launch.hash, opp), run.state, run.result,
                                       bids[|bids| - 1])
               && (run.result.Ok? ==> run.result.outcome.Confirmed? || run.result.outcome.Dropped?)
               && (run.result.Err? ==> run.result.error == RpcFailed)
  {
    hide Monitor, Polls, Monitoring, Justified, Settings.Valid;
    var s1 := launch.state.(world := Elapse(o, launch.state.world));
    var later := s1.world.clock + c.TimeoutSecs() * SECOND;
    WorldIsIrrelevant(c, opp, nonce, first, base, launch.state, s1, launch.hash);
    MonitorJustified(o, c, opp, nonce, first, base, s1, launch.hash, later);
    var run := Monitor(o, c, s1, launch.hash, later, opp);
    var bids := BidsSince(run.state.log, base);
    LaterDeadline(o, c, deadline, later, from, s1.world.calls, FollowUpPolls(o, c, launch.state, launch.hash, opp), run.state,
                  run.result, bids[|bids| - 1]);
  }

  lemma NothingToFollow(o: Oracle, c: Settings, launch: Launch, opp: ScoredOpportunity)
    requires Affordable(opp) && launch.Stopped?
    ensures FollowUp(o, c, launch, opp) == Run(launch.state, launch.result, 0)
  {
  }

  lemma SettledExplained(o: Oracle, c: Settings, s: Executor, t: Ticket, s': Executor, result: RunResult)
    requires t.Convertible() && Extends(s'.log, s.log)
    requires result.Ok? ==> result.outcome.Confirmed? || result.outcome.Dropped?
    requires result.Err? ==> result.error == RpcFailed
    requires var bids := BidsSince(s'.log, s.log);
             bids != [] && Justified(o, c, s.world.clock + c.TimeoutSecs() * SECOND, s.world.calls, ExecutionPolls(o, c, s, t), s',
                                     result, bids[|bids| - 1])
    ensures Explained(o, c, s, t, s', result)
  {
    hide Justified, BidsSince, ExecutionPolls;
  }

  /** Every result of an execution is explained by its history: a confirmation by a receipt the node gave for the last bid, a
      drop by the whole timeout having passed without a round that opened with a receipt, a receipt error by an unanswered
      request, and everything else by having stopped before any bid was accepted. */
  lemma ResultsAreExplained(o: Oracle, c: Settings, s: Executor, t: Ticket)
    requires c.Valid() && t.Convertible()
    ensures var run := Execute(o, c, s, t);
            Extends(run.state.log, s.log) && Explained(o, c, s, t, run.state, run.result)
  {
    hide Start, FollowUp, FollowUpPolls, Monitoring, Justified, Explained, BidsSince, Extends, Settings.Valid, Settings.TimeoutSecs,
      Calculator.CalculateReplacementGasPrice;
    StartExplained(o, c, s, t);
    StartMonitors(o, c, s, t);
    var launch := Start(o, c, s, t);
    if launch.Stopped? {
      NothingToFollow(o, c, launch, t.opportunity);
    } else {
      var first := c.calculator.CalculateReplacementGasPrice(t.VictimPrice(), t.network).price;
      FollowUpJustified(o, c, launch, t.opportunity, s.nextNonce, first, s.log, s.world.clock + c.TimeoutSecs() * SECOND,
                        s.world.calls);
      var run := Execute(o, c, s, t);
      SettledExplained(o, c, s, t, run.state, run.result);
    }
  }
}
