/** The shared counters of src/blockchain/connection.rs under every interleaving of concurrent calls. */
module ProviderCounters {
  /** Where one attempt at a provider stands, between two atomic operations on the provider's slot.
      `Requested`: the request is counted and in flight. After an answer the streak is cleared, the time noted and the
      backoff lifted; after a fault the failure is counted, then the streak, then the backoff is set. */
  datatype Phase =
    | Requested
    | Answered | StreakCleared | SuccessTimed | Succeeded
    | Faulted | FailureCounted | StreakCounted | BackedOff

  datatype Attempt = Attempt(provider: nat, phase: Phase)

  datatype Counters = Counters(consecutiveFailures: nat, failedRequests: nat, totalRequests: nat)

  /** Every attempt ever begun stays in `attempts`, in the phase it has reached. */
  datatype Pool = Pool(slots: seq<Counters>, attempts: seq<Attempt>)

  /** The scheduler's choice: some call begins an attempt, or an attempt performs its next atomic operation; the network
      chooses whether a request in flight is answered. The backoff test before an attempt is not atomic with it, so an
      attempt may begin at any provider at any time. */
  datatype Action = Begin(provider: nat) | Advance(attempt: nat, answered: bool)

  function Moved(phase: Phase, answered: bool): Phase {
    match phase
    case Requested => if answered then Answered else Faulted
    case Answered => StreakCleared
    case StreakCleared => SuccessTimed
    case SuccessTimed => Succeeded
    case Succeeded => Succeeded
    case Faulted => FailureCounted
    case FailureCounted => StreakCounted
    case StreakCounted => BackedOff
    case BackedOff => BackedOff
  }

  /** The effect on the slot of leaving a phase. */
  function Effect(slot: Counters, phase: Phase): Counters {
    match phase
    case Answered => slot.(consecutiveFailures := 0)
    case Faulted => slot.(failedRequests := slot.failedRequests + 1)
    case FailureCounted => slot.(consecutiveFailures := slot.consecutiveFailures + 1)
    case _ => slot
  }

  predicate WellFormed(s: Pool) {
    forall k :: 0 <= k < |s.attempts| ==> s.attempts[k].provider < |s.slots|
  }

  function Perform(s: Pool, a: Action): (s': Pool)
    requires WellFormed(s)
    ensures WellFormed(s') && |s'.slots| == |s.slots|
  {
    match a
    case Begin(i) =>
      if i >= |s.slots| then s
      else Pool(s.slots[i := s.slots[i].(totalRequests := s.slots[i].totalRequests + 1)], s.attempts + [Attempt(i, Requested)])
    case Advance(k, answered) =>
      if k >= |s.attempts| then s
      else
        var Attempt(i, phase) := s.attempts[k];
        Pool(s.slots[i := Effect(s.slots[i], phase)], s.attempts[k := Attempt(i, Moved(phase, answered))])
  }

  function PerformAll(s: Pool, schedule: seq<Action>): (s': Pool)
    requires WellFormed(s)
    ensures WellFormed(s') && |s'.slots| == |s.slots|
  {
    if schedule == [] then s
    else Perform(PerformAll(s, schedule[..|schedule| - 1]), schedule[|schedule| - 1])
  }

  function Idle(providers: nat): (s: Pool)
    ensures WellFormed(s) && |s.slots| == providers
  {
    Pool(seq(providers, i => Counters(0, 0, 0)), [])
  }

  /** How many attempts at provider i are in a phase. */
  function Tally(s: Pool, i: nat, phase: Phase): nat {
    multiset(s.attempts)[Attempt(i, phase)]
  }

  function InFlight(s: Pool, i: nat): nat {
    Tally(s, i, Requested) + Tally(s, i, Answered) + Tally(s, i, Faulted)
  }

  function Successes(s: Pool, i: nat): nat {
    Tally(s, i, StreakCleared) + Tally(s, i, SuccessTimed) + Tally(s, i, Succeeded)
  }

  function Failures(s: Pool, i: nat): nat {
    Tally(s, i, FailureCounted) + Tally(s, i, StreakCounted) + Tally(s, i, BackedOff)
  }

  /** The counters of provider i agree with the attempts made at it. A failure is counted before it extends the streak, so
      the streak never gets ahead even by the failures caught between the two increments. */
  predicate Balanced(s: Pool, i: nat)
    requires i < |s.slots|
  {
    var slot := s.slots[i];
    && slot.totalRequests == Successes(s, i) + Failures(s, i) + InFlight(s, i)
    && slot.failedRequests == Failures(s, i)
    && slot.consecutiveFailures + Tally(s, i, FailureCounted) <= slot.failedRequests
  }

  lemma BeginKeepsBalance(s: Pool, a: Action, i: nat)
    requires WellFormed(s) && i < |s.slots| && Balanced(s, i) && a.Begin? && a.provider < |s.slots|
    ensures Balanced(Perform(s, a), i)
  {
    hide Tally;
    TallyAfterBegin(s, a, i);
  }

  lemma OtherKeepsBalance(s: Pool, a: Action, i: nat)
    requires WellFormed(s) && i < |s.slots| && Balanced(s, i)
    requires a.Advance? && a.attempt < |s.attempts| && s.attempts[a.attempt].provider != i
    ensures Balanced(Perform(s, a), i)
  {
    hide Tally;
    TallyAfterAdvance(s, a, i);
  }

  lemma AdvanceKeepsBalance(s: Pool, a: Action, i: nat)
    requires WellFormed(s) && i < |s.slots| && Balanced(s, i)
    requires a.Advance? && a.attempt < |s.attempts| && s.attempts[a.attempt].provider == i
    ensures Balanced(Perform(s, a), i)
  {
    hide Tally, WellFormed;
    TallyAfterAdvance(s, a, i);
  }

  lemma PerformKeepsBalance(s: Pool, a: Action, i: nat)
    requires WellFormed(s) && i < |s.slots| && Balanced(s, i)
    ensures Balanced(Perform(s, a), i)
  {
    hide Balanced;
    if a.Begin? && a.provider < |s.slots| {
      BeginKeepsBalance(s, a, i);
    } else if a.Advance? && a.attempt < |s.attempts| {
      if s.attempts[a.attempt].provider == i {
        AdvanceKeepsBalance(s, a, i);
      } else {
        OtherKeepsBalance(s, a, i);
      }
    }
  }

  lemma TallyAfterBegin(s: Pool, a: Action, i: nat)
    requires WellFormed(s) && a.Begin? && a.provider < |s.slots|
    ensures forall phase :: Tally(Perform(s, a), i, phase)
                            == Tally(s, i, phase) + if i == a.provider && phase == Requested then 1 else 0
  {
  }

  lemma TallyAfterAdvance(s: Pool, a: Action, i: nat)
    requires WellFormed(s) && a.Advance? && a.attempt < |s.attempts|
    ensures var Attempt(j, from) := s.attempts[a.attempt];
            && (i != j ==> forall phase :: Tally(Perform(s, a), i, phase) == Tally(s, i, phase))
            && (i == j ==> Tally(s, i, from) >= 1 && forall phase ::
                  Tally(Perform(s, a), i, phase) == Tally(s, i, phase) - (if phase == from then 1 else 0)
                                                     + (if phase == Moved(from, a.answered) then 1 else 0))
  {
  }

  /** Whatever the interleaving of concurrent calls and whatever the network answers, at every moment and at every provider:
      consecutive failures <= failed requests <= total requests, and the total is the completed successes plus the
      failures plus the attempts in flight. */
  lemma {:induction false} CountersBalance(providers: nat, schedule: seq<Action>, i: nat)
    requires i < providers
    ensures var s := PerformAll(Idle(providers), schedule);
            && Balanced(s, i)
            && s.slots[i].consecutiveFailures <= s.slots[i].failedRequests <= s.slots[i].totalRequests
            && s.slots[i].totalRequests == Successes(s, i) + s.slots[i].failedRequests + InFlight(s, i)
  {
    if schedule != [] {
      CountersBalance(providers, schedule[..|schedule| - 1], i);
      PerformKeepsBalance(PerformAll(Idle(providers), schedule[..|schedule| - 1]), schedule[|schedule| - 1], i);
    }
    hide Tally, Perform;
  }

  /** An attempt at provider i that nothing interrupts, answered or not. */
  function Solo(s: Pool, i: nat, answered: bool): Pool
    requires WellFormed(s)
  {
    var step := Advance(|s.attempts|, answered);
    Perform(Perform(Perform(Perform(Perform(s, Begin(i)), step), step), step), step)
  }

  /** It counts one request; an answer clears the streak, a fault counts one failure and extends the streak by one; no other
      provider and no other attempt is touched. */
  lemma SoloAttempt(s: Pool, i: nat, answered: bool)
    requires WellFormed(s) && i < |s.slots|
    ensures var before, s' := s.slots[i], Solo(s, i, answered);
            && s'.slots == s.slots[i := Counters(if answered then 0 else before.consecutiveFailures + 1,
                                                 before.failedRequests + if answered then 0 else 1,
                                                 before.totalRequests + 1)]
            && s'.attempts == s.attempts + [Attempt(i, if answered then Succeeded else BackedOff)]
  {
    var s1 := Perform(s, Begin(i));
    var k := |s.attempts|;
    SoloStep(s1, k, answered);
    var s2 := Perform(s1, Advance(k, answered));
    SoloStep(s2, k, answered);
    var s3 := Perform(s2, Advance(k, answered));
    SoloStep(s3, k, answered);
    var s4 := Perform(s3, Advance(k, answered));
    SoloStep(s4, k, answered);
    var s5 := Perform(s4, Advance(k, answered));
    hide Perform;
    assert s5.attempts[..k] == s.attempts;
    assert s5.attempts == s5.attempts[..k] + [s5.attempts[k]];
  }

  lemma SoloStep(s: Pool, k: nat, answered: bool)
    requires WellFormed(s) && k < |s.attempts|
    ensures var Attempt(i, phase) := s.attempts[k];
            Perform(s, Advance(k, answered))
            == Pool(s.slots[i := Effect(s.slots[i], phase)], s.attempts[k := Attempt(i, Moved(phase, answered))])
  {
  }
}
