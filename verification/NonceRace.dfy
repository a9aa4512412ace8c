/** Why the executor needs its mutex: NonceManager of src/execution/gas_auction.rs, one atomic operation at a time.

    Allocation is one atomic fetch-and-add, but a release loads the counter and stores it in two steps. The worker pool
    runs every opportunity inside the executor's mutex; `locked` says whether it does. */
module NonceRace {
  import opened Units
  import opened Nonces
  import opened Sessions

  datatype Phase =
    | Outside
    | Entered
    | Allocated(nonce: U64)
    | Refused(nonce: U64)                 // the node refused the broadcast, the nonce is to be released
    | Loaded(nonce: U64, current: U64)    // the release has read the counter
    | Closing
    | Left

  /** `kept` lists the nonces that were not released: broadcast, or lost to a signing failure. */
  datatype State = State(next: U64, lock: Option<nat>, tasks: seq<Phase>, kept: seq<U64>)

  /** The scheduler moves one task; `keep` is the fate of the nonce when the step decides it. */
  datatype Action = Action(task: nat, keep: bool)

  function At(s: State, i: nat, phase: Phase): State
    requires i < |s.tasks|
  {
    s.(tasks := s.tasks[i := phase])
  }

  function Step(locked: bool, s: State, a: Action): State {
    if a.task >= |s.tasks| then s
    else
      var i := a.task;
      match s.tasks[i]
      case Outside =>
        if !locked then At(s, i, Entered) else if s.lock.Some? then s else At(s, i, Entered).(lock := Some(i))
      case Entered => At(s, i, Allocated(s.next)).(next := NextNonce(s.next))
      case Allocated(n) => if a.keep then At(s, i, Closing).(kept := s.kept + [n]) else At(s, i, Refused(n))
      case Refused(n) => At(s, i, Loaded(n, s.next))
      case Loaded(n, current) => At(s, i, Closing).(next := if NextNonce(n) == current then n else s.next)
      case Closing => At(s, i, Left).(lock := None)
      case Left => s
  }

  function Run(locked: bool, s: State, schedule: seq<Action>): State {
    if schedule == [] then s else Step(locked, Run(locked, s, schedule[..|schedule| - 1]), schedule[|schedule| - 1])
  }

  function Initially(synced: U64, tasks: nat): State {
    State(synced, None, seq(tasks, i => Outside), [])
  }

  predicate Inside(phase: Phase) {
    !phase.Outside? && !phase.Left?
  }

  predicate InOrder(synced: U64, kept: seq<U64>) {
    forall j :: 0 <= j < |kept| ==> kept[j] == (synced + j) % U64_SIZE
  }

  /** The counter and the nonce in hand, given that the nonces before `due` have been kept. */
  predicate InHand(s: State, phase: Phase, due: U64) {
    match phase
    case Allocated(n) => n == due && s.next == NextNonce(due)
    case Refused(n) => n == due && s.next == NextNonce(due)
    case Loaded(n, current) => n == due && current == s.next == NextNonce(due)
    case _ => s.next == due
  }

  predicate Exclusive(s: State) {
    && (forall i :: 0 <= i < |s.tasks| ==> (Inside(s.tasks[i]) <==> s.lock == Some(i)))
    && (s.lock.Some? ==> s.lock.value < |s.tasks|)
  }

  predicate Orderly(synced: U64, s: State) {
    && Exclusive(s)
    && InOrder(synced, s.kept)
    && InHand(s, if s.lock.Some? then s.tasks[s.lock.value] else Outside, (synced + |s.kept|) % U64_SIZE)
  }

  lemma StepKeepsExclusion(s: State, a: Action)
    requires Exclusive(s)
    ensures Exclusive(Step(true, s, a))
  {
    hide NextNonce;
  }

  lemma StepKeepsOrder(synced: U64, s: State, a: Action)
    requires Orderly(synced, s)
    ensures Orderly(synced, Step(true, s, a))
  {
    StepKeepsExclusion(s, a);
    if a.task < |s.tasks| && s.lock == Some(a.task) {
      HolderKeepsOrder(synced, s, a);
    }
  }

  lemma HolderKeepsOrder(synced: U64, s: State, a: Action)
    requires Orderly(synced, s) && s.lock == Some(a.task)
    ensures Orderly(synced, Step(true, s, a))
  {
    StepKeepsExclusion(s, a);
    hide Exclusive;
  }

  /** Under the mutex, in every interleaving: the kept nonces count up from the synced one without gaps or repetition. */
  lemma {:induction false} LockedRunsAreOrderly(synced: U64, s: State, schedule: seq<Action>)
    requires Orderly(synced, s)
    ensures Orderly(synced, Run(true, s, schedule))
  {
    if schedule != [] {
      LockedRunsAreOrderly(synced, s, schedule[..|schedule| - 1]);
      StepKeepsOrder(synced, Run(true, s, schedule[..|schedule| - 1]), schedule[|schedule| - 1]);
    }
    hide Step, Orderly;
  }

  predicate Distinct(kept: seq<U64>) {
    forall i, j :: 0 <= i < j < |kept| ==> kept[i] != kept[j]
  }

  /** In no run of at most 2^64 kept nonces is a nonce kept twice. */
  ghost predicate NeverTwice(locked: bool, synced: U64) {
    forall tasks: nat, schedule: seq<Action> ::
      var kept := Run(locked, Initially(synced, tasks), schedule).kept; |kept| <= U64_SIZE ==> Distinct(kept)
  }

  lemma InOrderIsDistinct(synced: U64, kept: seq<U64>)
    requires InOrder(synced, kept) && |kept| <= U64_SIZE
    ensures Distinct(kept)
  {
    forall i, j | 0 <= i < j < |kept| ensures kept[i] != kept[j] {
      WrapDistinct(synced, i, j);
    }
  }

  // Without the mutex

  lemma RunThen(s: State, schedule: seq<Action>, a: Action)
    ensures Run(false, s, schedule + [a]) == Step(false, Run(false, s, schedule), a)
  {
    assert (schedule + [a])[..|schedule|] == schedule;
    hide Step;
  }

  /** Without the mutex, a task that enters, allocates a nonce and keeps it. */
  lemma Keep(s: State, schedule: seq<Action>, i: nat) returns (longer: seq<Action>)
    requires var t := Run(false, s, schedule); i < |t.tasks| && t.tasks[i].Outside?
    ensures var t := Run(false, s, schedule);
            Run(false, s, longer) == t.(next := NextNonce(t.next), tasks := t.tasks[i := Closing], kept := t.kept + [t.next])
  {
    hide Run;
    var a := Action(i, true);
    RunThen(s, schedule, a);
    RunThen(s, schedule + [a], a);
    RunThen(s, schedule + [a] + [a], a);
    longer := schedule + [a] + [a] + [a];
    var t := Run(false, s, schedule);
    assert t.tasks[i := Entered][i := Allocated(t.next)][i := Closing] == t.tasks[i := Closing];
  }

  /** Without the mutex, a task whose broadcast is refused and that has loaded the counter, but not yet stored it. */
  lemma HalfRelease(s: State, i: nat) returns (schedule: seq<Action>)
    requires i < |s.tasks| && s.tasks[i].Outside?
    ensures Run(false, s, schedule) == s.(next := NextNonce(s.next), tasks := s.tasks[i := Loaded(s.next, NextNonce(s.next))])
  {
    hide Run;
    var a := Action(i, false);
    assert Run(false, s, []) == s by { RunNothing(s); }
    RunThen(s, [], a);
    RunThen(s, [] + [a], a);
    RunThen(s, [] + [a] + [a], a);
    RunThen(s, [] + [a] + [a] + [a], a);
    schedule := [] + [a] + [a] + [a] + [a];
    assert s.tasks[i := Entered][i := Allocated(s.next)][i := Refused(s.next)][i := Loaded(s.next, NextNonce(s.next))]
        == s.tasks[i := Loaded(s.next, NextNonce(s.next))];
  }

  lemma RunNothing(s: State)
    ensures Run(false, s, []) == s
  {
  }

  /** Without the mutex four tasks suffice: the first loads the counter for its release, the second keeps the next nonce,
      the first stores, and the third and fourth are given the released nonce and the second task's nonce again. */
  lemma UnlockedRace(synced: U64) returns (schedule: seq<Action>)
    ensures var kept := Run(false, Initially(synced, 4), schedule).kept; |kept| == 3 && kept[0] == kept[2]
  {
    hide Run;
    var s := Initially(synced, 4);
    schedule := HalfRelease(s, 0);
    schedule := Keep(s, schedule, 1);
    RunThen(s, schedule, Action(0, false));
    schedule := schedule + [Action(0, false)];
    schedule := Keep(s, schedule, 2);
    schedule := Keep(s, schedule, 3);
  }

  /** Nonces are never kept twice exactly when opportunities are handled under the mutex. */
  lemma MutexIsNeeded(locked: bool, synced: U64)
    ensures NeverTwice(locked, synced) <==> locked
  {
    if locked {
      forall tasks: nat, schedule: seq<Action> | |Run(true, Initially(synced, tasks), schedule).kept| <= U64_SIZE
        ensures Distinct(Run(true, Initially(synced, tasks), schedule).kept)
      {
        LockedRunsAreOrderly(synced, Initially(synced, tasks), schedule);
        InOrderIsDistinct(synced, Run(true, Initially(synced, tasks), schedule).kept);
      }
    } else {
      var schedule := UnlockedRace(synced);
      assert !Distinct(Run(false, Initially(synced, 4), schedule).kept);
    }
  }
}
