/** When a provider is asked and when it is skipped, over any sequence of calls: told from the clock and from what its
    earlier attempts came to. */
module ProviderHistory {
  import opened Units
  import opened Backoff
  import opened Connection

  /** What came of an attempt, and when it was recorded. */
  datatype Event = Faulted(at: nat) | Replied(at: nat)

  /** The rotation step at which a call that starts at `start` comes to provider i. */
  function StepOf(start: nat, i: nat, n: nat): (j: nat)
    requires i < n
    ensures j < n
  {
    if i >= start % n then i - start % n else i + n - start % n
  }

  lemma StepOfRotation(start: nat, i: nat, n: nat)
    requires i < n
    ensures Rotation(start, StepOf(start, i, n), n) == i
  {
    var q, r := start / n, start % n;
    if i >= r {
      QuotientUnique(start + (i - r), n, q, i);
    } else {
      assert n * (q + 1) == n * q + n;
      QuotientUnique(start + (i + n - r), n, q + 1, i);
    }
  }

  lemma OnlyStep(start: nat, j: nat, i: nat, n: nat)
    requires j < n && i < n && Rotation(start, j, n) == i
    ensures j == StepOf(start, i, n)
  {
    StepOfRotation(start, i, n);
    var k := StepOf(start, i, n);
    hide Rotation;
    if j < k {
      RotationInjective(start, j, k, n);
    } else if k < j {
      RotationInjective(start, k, j, n);
    }
  }

  function EventOf(visit: Visit): seq<Event> {
    match visit
    case Skipped(_) => []
    case Failure(_, _, at) => [Faulted(at)]
    case Answered(_, _, at) => [Replied(at)]
  }

  /** What the visits of one call add to the history of provider i. */
  function EventsOf(visits: seq<Visit>, start: nat, i: nat, n: nat): seq<Event>
    requires i < n
  {
    var j := StepOf(start, i, n);
    if j < |visits| then EventOf(visits[j]) else []
  }

  datatype Pool = Pool(slots: seq<Slot>, clock: Clock)

  /** The pool after calls that started at these providers, one after the other. */
  function AfterCalls(net: Network, p: Policy, pool: Pool, starts: seq<nat>): (after: Pool)
    ensures |after.slots| == |pool.slots|
  {
    if starts == [] then pool
    else
      var before := AfterCalls(net, p, pool, starts[..|starts| - 1]);
      var call := Attempt(net, p, before.slots, before.clock, starts[|starts| - 1], 0, None);
      Pool(call.slots, call.clock)
  }

  /** The visits of the next call. */
  function NextVisits(net: Network, p: Policy, pool: Pool, starts: seq<nat>, start: nat): seq<Visit> {
    var before := AfterCalls(net, p, pool, starts);
    Visits(net, p, before.slots, before.clock, start, 0)
  }

  /** All attempts at provider i, in order. */
  function History(net: Network, p: Policy, pool: Pool, starts: seq<nat>, i: nat): seq<Event>
    requires i < |pool.slots|
  {
    if starts == [] then []
    else
      var front, start := starts[..|starts| - 1], starts[|starts| - 1];
      History(net, p, pool, front, i) + EventsOf(NextVisits(net, p, pool, front, start), start, i, |pool.slots|)
  }

  /** How many faults in a row the history ends with. */
  function Streak(history: seq<Event>): nat {
    if history == [] || history[|history| - 1].Replied? then 0 else Streak(history[..|history| - 1]) + 1
  }

  function Faults(history: seq<Event>): nat {
    if history == [] then 0 else Faults(history[..|history| - 1]) + if history[|history| - 1].Faulted? then 1 else 0
  }

  function LastReply(history: seq<Event>): Option<nat> {
    if history == [] then None
    else if history[|history| - 1].Replied? then Some(history[|history| - 1].at) else LastReply(history[..|history| - 1])
  }

  /** The slot of a provider is a summary of its history. */
  predicate Summarises(p: Policy, slot: Slot, history: seq<Event>) {
    && slot.totalRequests == |history| && slot.failedRequests == Faults(history)
    && slot.consecutiveFailures == Streak(history) && slot.lastSuccess == LastReply(history)
    && slot.backoffUntil
         == if history == [] || history[|history| - 1].Replied? then None
            else Some(history[|history| - 1].at + ProviderBackoff(p.initialBackoff, p.maxBackoff, Streak(history)) * MILLISECOND)
  }

  lemma Extended(history: seq<Event>, e: Event)
    ensures Streak(history + [e]) == if e.Replied? then 0 else Streak(history) + 1
    ensures Faults(history + [e]) == Faults(history) + if e.Faulted? then 1 else 0
    ensures LastReply(history + [e]) == if e.Replied? then Some(e.at) else LastReply(history)
  {
    assert (history + [e])[..|history|] == history;
  }

  lemma VisitSummarises(net: Network, p: Policy, visit: Visit, before: Slot, after: Slot, history: seq<Event>)
    requires Explains(net, p, visit, before, after) && Summarises(p, before, history)
    ensures Summarises(p, after, history + EventOf(visit))
  {
    hide InBackoff, ProviderBackoff, Streak, Faults, LastReply;
    match visit {
      case Skipped(_) => assert history + [] == history;
      case Failure(_, _, at) => Extended(history, Faulted(at));
      case Answered(_, _, at) =>
        Extended(history, Replied(at));
    }
  }

  /** One call's visit of provider i, if it got that far. */
  lemma VisitOf(net: Network, p: Policy, slots: seq<Slot>, clock: Clock, start: nat, i: nat)
    requires i < |slots|
    ensures var visits, j, call := Visits(net, p, slots, clock, start, 0), StepOf(start, i, |slots|), Attempt(net, p, slots, clock, start, 0, None);
            if j < |visits| then Explains(net, p, visits[j], slots[i], call.slots[i]) else call.slots[i] == slots[i]
  {
    var visits := FailoverSpec(net, p, slots, clock, start);
    var n, j := |slots|, StepOf(start, i, |slots|);
    StepOfRotation(start, i, n);
    hide Attempt, Visits, Explains, Concludes, Follows, Rotation, StepOf;
    if j >= |visits| {
      forall k | 0 <= k < |visits| ensures Rotation(start, k, n) != i {
        if Rotation(start, k, n) == i {
          OnlyStep(start, k, i, n);
        }
      }
    }
  }

  /** After any sequence of calls the slot of every provider is the summary of its history. */
  lemma {:induction false} SlotsFollowHistory(net: Network, p: Policy, n: nat, clock: Clock, starts: seq<nat>, i: nat)
    requires i < n
    ensures var pool := Pool(NewSlots(n), clock);
            Summarises(p, AfterCalls(net, p, pool, starts).slots[i], History(net, p, pool, starts, i))
  {
    var pool := Pool(NewSlots(n), clock);
    if starts != [] {
      var front, start := starts[..|starts| - 1], starts[|starts| - 1];
      SlotsFollowHistory(net, p, n, clock, front, i);
      var before := AfterCalls(net, p, pool, front);
      VisitOf(net, p, before.slots, before.clock, start, i);
      hide Attempt, Visits, Explains, Summarises, StepOf, EventOf;
      var visits, j := NextVisits(net, p, pool, front, start), StepOf(start, i, n);
      var history := History(net, p, pool, front, i);
      var call := Attempt(net, p, before.slots, before.clock, start, 0, None);
      if j < |visits| {
        VisitSummarises(net, p, visits[j], before.slots[i], call.slots[i], history);
      } else {
        assert history + [] == history;
      }
    }
  }

  /** The last attempt failed, as the f-th in a row, and the exponential interval after it has not run out at this time. */
  predicate Within(p: Policy, history: seq<Event>, time: nat) {
    && history != [] && history[|history| - 1].Faulted?
    && time < history[|history| - 1].at + IdealBackoff(p.initialBackoff, p.maxBackoff, Max(Streak(history) - 1, 0)) * 1_000_000
  }

  lemma BackoffByHistory(p: Policy, slot: Slot, history: seq<Event>, time: nat)
    requires Summarises(p, slot, history) && Streak(history) <= U32_SIZE
    ensures InBackoff(slot, time) <==> Within(p, history, time)
  {
    if history != [] && history[|history| - 1].Faulted? {
      ProviderBackoffExact(p.initialBackoff, p.maxBackoff, Streak(history));
    }
    hide ProviderBackoff, IdealBackoff;
  }

  /** After any sequence of calls, the next one skips a provider exactly when it reaches it within the exponential interval
      after its last attempt, a failure; every other provider it reaches is asked. */
  lemma SkippedExactly(net: Network, p: Policy, n: nat, clock: Clock, starts: seq<nat>, start: nat, j: nat)
    requires n > 0 && j < |NextVisits(net, p, Pool(NewSlots(n), clock), starts, start)|
    requires Streak(History(net, p, Pool(NewSlots(n), clock), starts, Rotation(start, j, n))) <= U32_SIZE
    ensures var pool := Pool(NewSlots(n), clock);
            var visit := NextVisits(net, p, pool, starts, start)[j];
            visit.Skipped? <==> Within(p, History(net, p, pool, starts, Rotation(start, j, n)), visit.reached)
  {
    var pool := Pool(NewSlots(n), clock);
    var before, i := AfterCalls(net, p, pool, starts), Rotation(start, j, n);
    var visits := FailoverSpec(net, p, before.slots, before.clock, start);
    SlotsFollowHistory(net, p, n, clock, starts, i);
    hide Attempt, Visits, AfterCalls, History, Summarises, Concludes, Follows, Rotation, Within, InBackoff, Streak;
    BackoffByHistory(p, before.slots[i], History(net, p, pool, starts, i), visits[j].reached);
  }

  /** The next call reports that all providers failed exactly when it reaches every one of them within its interval. */
  lemma AllFailedExactly(net: Network, p: Policy, n: nat, clock: Clock, starts: seq<nat>, start: nat)
    requires n > 0
    requires forall i :: 0 <= i < n ==> Streak(History(net, p, Pool(NewSlots(n), clock), starts, i)) <= U32_SIZE
    ensures var pool := Pool(NewSlots(n), clock);
            var before, visits := AfterCalls(net, p, pool, starts), NextVisits(net, p, pool, starts, start);
            Attempt(net, p, before.slots, before.clock, start, 0, None).outcome.AllProvidersFailed?
            <==> |visits| == n && forall j :: 0 <= j < n ==>
                   Within(p, History(net, p, pool, starts, Rotation(start, j, n)), visits[j].reached)
  {
    var pool := Pool(NewSlots(n), clock);
    var before := AfterCalls(net, p, pool, starts);
    var visits := FailoverSpec(net, p, before.slots, before.clock, start);
    hide Attempt, Visits, AfterCalls, History, Story, Follows, Rotation, Within, Streak;
    forall j | 0 <= j < |visits|
      ensures visits[j].Skipped? <==> Within(p, History(net, p, pool, starts, Rotation(start, j, n)), visits[j].reached)
    {
      SkippedExactly(net, p, n, clock, starts, start, j);
    }
  }
}
