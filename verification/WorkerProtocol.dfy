/** src/runtime/worker.rs as a protocol: any number of analysis tasks, interleaved at every atomic step.

    Spawned tasks share the semaphore, the metrics, the mutex around the detector and the mutex around the executor. What the
    executor does while its mutex is held is the specification of the execution engine. */
module WorkerProtocol {
  import opened Units
  import opened Environment
  import opened GasAuction
  import opened Opportunities
  import opened Safety
  import opened Replacement
  import opened Sessions
  import opened GuardRuns
  import opened PendingTable
  import opened SpendLedger
  import opened TableSessions

  /** The pool's settings; without an executor the bot only watches. */
  datatype Config = Config(workers: nat, hasExecutor: bool, oracle: Oracle, settings: Settings, start: Executor) {
    function Permits(): nat {
      Max(workers, 1)
    }
  }

  /** Where a task stands. */
  datatype Phase =
    | Admitted                     // has its permit, about to run
    | Started                      // counted as active
    | Evaluating                   // holds the detector
    | Found(ticket: Ticket)        // released the detector with an opportunity
    | Waiting(ticket: Ticket)      // counted the opportunity, waits for the executor
    | Executing(ticket: Ticket)    // holds the executor, which is about to run
    | Settled(result: RunResult)   // holds the executor, which has returned
    | Penalising                   // holds the executor; a drop is counted, but not yet recorded as a failure
    | Closing                      // holds the executor, everything recorded
    | Finishing                    // holds no lock
    | Leaving                      // no longer counted as active
    | Done                         // gave its permit back
  {
    predicate HoldsExecutor() {
      Executing? || Settled? || Penalising? || Closing?
    }
  }

  datatype State = State(
    permits: nat, tasks: seq<Phase>, activeWorkers: int, detected: nat, successes: nat, failures: nat,
    detector: Option<nat>, lock: Option<nat>, executor: Executor, handled: seq<Ticket>)

  /** The scheduler's choice; a task whose next step is not possible stays where it is. `found` is what the detector
      returns when the step is the end of an evaluation (only amounts that convert to 128 bits are considered). */
  datatype Action = Admit | Move(task: nat, found: Option<Ticket>)

  function Initially(cfg: Config): State {
    State(cfg.Permits(), [], 0, 0, 0, 0, None, None, cfg.start, [])
  }

  function At(s: State, i: nat, phase: Phase): State
    requires i < |s.tasks|
  {
    s.(tasks := s.tasks[i := phase])
  }

  function AdmitTask(s: State): State {
    if s.permits == 0 then s else s.(permits := s.permits - 1, tasks := s.tasks + [Admitted])
  }

  predicate IsSuccess(result: RunResult) {
    result.Ok? && (result.outcome.Confirmed? || result.outcome.Replaced?)
  }

  /** From admission to the decision whether there is something to execute. */
  function Analyse(cfg: Config, s: State, i: nat, found: Option<Ticket>): State
    requires i < |s.tasks|
  {
    match s.tasks[i]
    case Admitted => At(s, i, Started).(activeWorkers := s.activeWorkers + 1)
    case Started => if s.detector.Some? then s else At(s, i, Evaluating).(detector := Some(i))
    case Evaluating =>
      if found.None? then At(s, i, Finishing).(detector := None)
      else if found.value.Convertible() then At(s, i, Found(found.value)).(detector := None)
      else s
    case Found(ticket) => At(s, i, if cfg.hasExecutor then Waiting(ticket) else Finishing).(detected := s.detected + 1)
    case _ => s
  }

  /** From waiting for the executor to letting go of it. */
  function Trade(cfg: Config, s: State, i: nat): State
    requires i < |s.tasks|
  {
    match s.tasks[i]
    case Waiting(ticket) =>
      if s.lock.Some? then s else At(s, i, Executing(ticket)).(lock := Some(i), handled := s.handled + [ticket])
    case Executing(ticket) =>
      if !ticket.Convertible() then s
      else
        var run := Execute(cfg.oracle, cfg.settings, s.executor, ticket);
        At(s, i, Settled(run.result)).(executor := run.state)
    case Settled(result) =>
      At(s, i, if IsDrop(result) then Penalising else Closing)
        .(successes := s.successes + if IsSuccess(result) then 1 else 0,
          failures := s.failures + if IsSuccess(result) then 0 else 1)
    case Penalising => At(s, i, Closing).(executor := s.executor.(guard := FailureRecorded(s.executor.guard)))
    case Closing => At(s, i, Finishing).(lock := None)
    case _ => s
  }

  function Leave(s: State, i: nat): State
    requires i < |s.tasks|
  {
    match s.tasks[i]
    case Finishing => At(s, i, Leaving).(activeWorkers := s.activeWorkers - 1)
    case Leaving => At(s, i, Done).(permits := s.permits + 1)
    case _ => s
  }

  function Next(cfg: Config, s: State, a: Action): State {
    match a
    case Admit => AdmitTask(s)
    case Move(i, found) =>
      if i >= |s.tasks| then s
      else
        match s.tasks[i]
        case Admitted | Started | Evaluating | Found(_) => Analyse(cfg, s, i, found)
        case Finishing | Leaving | Done => Leave(s, i)
        case _ => Trade(cfg, s, i)
  }

  function Run(cfg: Config, schedule: seq<Action>): State {
    if schedule == [] then Initially(cfg) else Next(cfg, Run(cfg, schedule[..|schedule| - 1]), schedule[|schedule| - 1])
  }

  // Counting tasks

  /** The groups of tasks the shared counters are about. */
  datatype Group = Live | Active | Unrecorded

  function Weight(phase: Phase, group: Group): nat {
    match group
    case Live => if phase.Done? then 0 else 1
    case Active => if phase.Admitted? || phase.Leaving? || phase.Done? then 0 else 1
    case Unrecorded => if phase.Waiting? || phase.Executing? || phase.Settled? then 1 else 0
  }

  function Count(tasks: seq<Phase>, group: Group): nat {
    if tasks == [] then 0 else Count(tasks[..|tasks| - 1], group) + Weight(tasks[|tasks| - 1], group)
  }

  lemma CountAppend(tasks: seq<Phase>, phase: Phase, group: Group)
    ensures Count(tasks + [phase], group) == Count(tasks, group) + Weight(phase, group)
  {
    assert (tasks + [phase])[..|tasks|] == tasks;
  }

  lemma {:induction false} CountUpdate(tasks: seq<Phase>, i: nat, phase: Phase, group: Group)
    requires i < |tasks|
    ensures Count(tasks[i := phase], group) == Count(tasks, group) - Weight(tasks[i], group) + Weight(phase, group)
  {
    var front, last := tasks[..|tasks| - 1], |tasks| - 1;
    if i == last {
      assert tasks[i := phase][..last] == front;
    } else {
      assert tasks[i := phase][..last] == front[i := phase];
      CountUpdate(front, i, phase, group);
    }
  }

  lemma {:induction false} CountAtMost(tasks: seq<Phase>)
    ensures Count(tasks, Active) <= Count(tasks, Live)
  {
    if tasks != [] {
      CountAtMost(tasks[..|tasks| - 1]);
    }
  }

  // Invariants

  /** Permits, gauge and opportunity counters agree with the spawned tasks. */
  predicate Conserved(cfg: Config, s: State) {
    && s.permits + Count(s.tasks, Live) == cfg.Permits()
    && s.activeWorkers == Count(s.tasks, Active)
    && (cfg.hasExecutor ==> s.detected == s.successes + s.failures + Count(s.tasks, Unrecorded))
    && (!cfg.hasExecutor ==> s.successes == s.failures == Count(s.tasks, Unrecorded) == 0)
  }

  /** Each mutex is held by exactly the worker that is inside it. */
  predicate Exclusive(s: State) {
    && (forall i :: 0 <= i < |s.tasks| ==> (s.tasks[i].Evaluating? <==> s.detector == Some(i)))
    && (forall i :: 0 <= i < |s.tasks| ==> (s.tasks[i].HoldsExecutor() <==> s.lock == Some(i)))
    && (s.detector.Some? ==> s.detector.value < |s.tasks|)
    && (s.lock.Some? ==> s.lock.value < |s.tasks|)
  }

  /** What a step changes of the shared counters, given the phases it leaves and enters. */
  predicate Accounted(cfg: Config, s: State, s': State, from: Phase, to: Phase) {
    && s'.permits + Weight(to, Live) == s.permits + Weight(from, Live)
    && s'.activeWorkers == s.activeWorkers - Weight(from, Active) + Weight(to, Active)
    && (cfg.hasExecutor ==>
          s'.detected - s'.successes - s'.failures - Weight(to, Unrecorded)
            == s.detected - s.successes - s.failures - Weight(from, Unrecorded))
    && (!cfg.hasExecutor && Weight(from, Unrecorded) == 0 ==>
          Weight(to, Unrecorded) == 0 && s'.successes == s.successes && s'.failures == s.failures)
  }

  /** A mutex changes hands only by a task that enters or leaves it, and only when it is free. */
  predicate Handover(holder: Option<nat>, holder': Option<nat>, i: nat, before: bool, after: bool) {
    && (!before && after ==> holder.None?)
    && holder' == if after && !before then Some(i) else if before && !after then None else holder
  }

  /** One task moved from a phase to another, with this effect on what all tasks share. */
  predicate Moved(cfg: Config, s: State, s': State, i: nat, to: Phase)
    requires i < |s.tasks|
  {
    var from := s.tasks[i];
    && s'.tasks == s.tasks[i := to]
    && Accounted(cfg, s, s', from, to)
    && Handover(s.detector, s'.detector, i, from.Evaluating?, to.Evaluating?)
    && Handover(s.lock, s'.lock, i, from.HoldsExecutor(), to.HoldsExecutor())
  }

  lemma AnalyseMoves(cfg: Config, s: State, i: nat, found: Option<Ticket>) returns (to: Phase)
    requires i < |s.tasks|
    ensures Moved(cfg, s, Analyse(cfg, s, i, found), i, to)
  {
    to := Analyse(cfg, s, i, found).tasks[i];
  }

  lemma TradeMoves(cfg: Config, s: State, i: nat) returns (to: Phase)
    requires i < |s.tasks|
    ensures Moved(cfg, s, Trade(cfg, s, i), i, to)
  {
    hide Execute, FailureRecorded;
    to := Trade(cfg, s, i).tasks[i];
  }

  lemma LeaveMoves(cfg: Config, s: State, i: nat) returns (to: Phase)
    requires i < |s.tasks|
    ensures Moved(cfg, s, Leave(s, i), i, to)
  {
    to := Leave(s, i).tasks[i];
  }

  lemma TaskMoves(cfg: Config, s: State, i: nat, found: Option<Ticket>) returns (to: Phase)
    requires i < |s.tasks|
    ensures Moved(cfg, s, Next(cfg, s, Move(i, found)), i, to)
  {
    hide Moved, Analyse, Trade, Leave;
    match s.tasks[i] {
      case Admitted | Started | Evaluating | Found(_) => to := AnalyseMoves(cfg, s, i, found);
      case Finishing | Leaving | Done => to := LeaveMoves(cfg, s, i);
      case _ => to := TradeMoves(cfg, s, i);
    }
  }

  lemma AdmitKeepsConserved(cfg: Config, s: State)
    requires Conserved(cfg, s)
    ensures Conserved(cfg, AdmitTask(s))
  {
    hide Count;
    CountAppend(s.tasks, Admitted, Live);
    CountAppend(s.tasks, Admitted, Active);
    CountAppend(s.tasks, Admitted, Unrecorded);
  }

  lemma MoveKeepsConserved(cfg: Config, s: State, i: nat, found: Option<Ticket>)
    requires i < |s.tasks| && Conserved(cfg, s)
    ensures Conserved(cfg, Next(cfg, s, Move(i, found)))
  {
    hide Count, Weight, Next;
    var to := TaskMoves(cfg, s, i, found);
    CountUpdate(s.tasks, i, to, Live);
    CountUpdate(s.tasks, i, to, Active);
    CountUpdate(s.tasks, i, to, Unrecorded);
    CountPositive(s.tasks, i, Unrecorded);
  }

  lemma {:induction false} CountPositive(tasks: seq<Phase>, i: nat, group: Group)
    requires i < |tasks|
    ensures Weight(tasks[i], group) <= Count(tasks, group)
  {
    if i < |tasks| - 1 {
      CountPositive(tasks[..|tasks| - 1], i, group);
    }
  }

  lemma AdmitKeepsExclusive(s: State)
    requires Exclusive(s)
    ensures Exclusive(AdmitTask(s))
  {
  }

  lemma MoveKeepsExclusive(cfg: Config, s: State, i: nat, found: Option<Ticket>)
    requires i < |s.tasks| && Exclusive(s)
    ensures Exclusive(Next(cfg, s, Move(i, found)))
  {
    hide Next, Accounted, Phase.HoldsExecutor;
    var to := TaskMoves(cfg, s, i, found);
  }

  // Serial execution

  function Wins(results: seq<RunResult>): (wins: nat)
    ensures wins <= |results|
  {
    if results == [] then 0
    else Wins(results[..|results| - 1]) + if IsSuccess(results[|results| - 1]) then 1 else 0
  }

  lemma WinsAppend(results: seq<RunResult>, result: RunResult)
    ensures Wins(results + [result]) == Wins(results) + if IsSuccess(result) then 1 else 0
  {
    assert (results + [result])[..|results|] == results;
  }

  /** The execution metrics agree with the results. */
  predicate Tallied(s: State, results: seq<RunResult>) {
    s.successes == Wins(results) && s.failures == |results| - Wins(results)
  }

  predicate TicketsConvertible(s: State) {
    && AllConvertible(s.handled)
    && forall i :: 0 <= i < |s.tasks| && (s.tasks[i].Found? || s.tasks[i].Waiting? || s.tasks[i].Executing?) ==>
         s.tasks[i].ticket.Convertible()
  }

  function Served(cfg: Config, tickets: seq<Ticket>): (Executor, seq<RunResult>)
    requires AllConvertible(tickets)
  {
    HandleAll(cfg.oracle, cfg.settings, cfg.start, tickets)
  }

  /** The executor and the metrics inside the critical section, when the tickets before this one left `base`. */
  predicate Inside(cfg: Config, s: State, phase: Phase, base: Executor, results: seq<RunResult>, ticket: Ticket)
    requires ticket.Convertible()
  {
    var run := Execute(cfg.oracle, cfg.settings, base, ticket);
    match phase
    case Executing(t) => t == ticket && s.executor == base && Tallied(s, results)
    case Settled(result) => result == run.result && s.executor == run.state && Tallied(s, results)
    case Penalising => IsDrop(run.result) && s.executor == run.state && Tallied(s, results + [run.result])
    case Closing => (s.executor, run.result) == Handle(cfg.oracle, cfg.settings, base, ticket) && Tallied(s, results + [run.result])
    case _ => false
  }

  /** The shared executor is where handling the tickets one after the other, in the order in which their tasks took the
      mutex, would have brought it; while the mutex is held, somewhere inside the handling of the last of them. */
  predicate Serial(cfg: Config, s: State) {
    && TicketsConvertible(s)
    && if s.lock.None? then s.executor == Served(cfg, s.handled).0 && Tallied(s, Served(cfg, s.handled).1)
       else
         && s.lock.value < |s.tasks| && s.handled != []
         && var (base, results) := Served(cfg, s.handled[..|s.handled| - 1]);
            Inside(cfg, s, s.tasks[s.lock.value], base, results, s.handled[|s.handled| - 1])
  }

  lemma ServedAppend(cfg: Config, tickets: seq<Ticket>, t: Ticket)
    requires AllConvertible(tickets) && t.Convertible()
    ensures AllConvertible(tickets + [t])
    ensures var (base, results) := Served(cfg, tickets);
            var (s', result) := Handle(cfg.oracle, cfg.settings, base, t);
            Served(cfg, tickets + [t]) == (s', results + [result])
  {
    assert (tickets + [t])[..|tickets|] == tickets;
    hide Handle;
  }

  lemma AcquireKeepsSerial(cfg: Config, s: State, i: nat)
    requires i < |s.tasks| && Serial(cfg, s) && s.tasks[i].Waiting? && s.lock.None?
    ensures Serial(cfg, Trade(cfg, s, i))
  {
    hide Execute, Handle, Served, Wins, Ticket.Convertible;
    var s' := Trade(cfg, s, i);
    assert s'.handled[..|s'.handled| - 1] == s.handled;
  }

  lemma InsideKeepsSerial(cfg: Config, s: State, i: nat)
    requires i < |s.tasks| && Serial(cfg, s) && s.lock == Some(i) && !s.tasks[i].Closing?
    ensures Serial(cfg, Trade(cfg, s, i))
  {
    hide Execute, Served, Wins, Ticket.Convertible;
    var (base, results) := Served(cfg, s.handled[..|s.handled| - 1]);
    var ticket := s.handled[|s.handled| - 1];
    WinsAppend(results, Execute(cfg.oracle, cfg.settings, base, ticket).result);
  }

  lemma ReleaseKeepsSerial(cfg: Config, s: State, i: nat)
    requires i < |s.tasks| && Serial(cfg, s) && s.lock == Some(i) && s.tasks[i].Closing?
    ensures Serial(cfg, Trade(cfg, s, i))
  {
    hide Execute, Handle, Served, Wins, Ticket.Convertible;
    var front, ticket := s.handled[..|s.handled| - 1], s.handled[|s.handled| - 1];
    ServedAppend(cfg, front, ticket);
    assert front + [ticket] == s.handled;
  }

  /** Steps of tasks outside the critical section. */
  lemma OutsideKeepsSerial(cfg: Config, s: State, s': State, i: nat)
    requires i < |s.tasks| && Serial(cfg, s) && s.lock != Some(i)
    requires |s'.tasks| == |s.tasks| && s'.tasks == s.tasks[i := s'.tasks[i]]
    requires s' == s.(tasks := s'.tasks, permits := s'.permits, activeWorkers := s'.activeWorkers, detected := s'.detected,
                      detector := s'.detector)
    requires s'.tasks[i].Found? || s'.tasks[i].Waiting? || s'.tasks[i].Executing? ==> s'.tasks[i].ticket.Convertible()
    ensures Serial(cfg, s')
  {
    hide Execute, Served, Wins, Ticket.Convertible;
  }

  lemma AdmitKeepsSerial(cfg: Config, s: State)
    requires Serial(cfg, s)
    ensures Serial(cfg, AdmitTask(s))
  {
    hide Execute, Served, Wins, Ticket.Convertible;
  }

  lemma AnalyseKeepsSerial(cfg: Config, s: State, i: nat, found: Option<Ticket>)
    requires i < |s.tasks| && Serial(cfg, s) && s.lock != Some(i)
    ensures Serial(cfg, Analyse(cfg, s, i, found))
  {
    hide Execute, Served, Serial, Ticket.Convertible;
    var s' := Analyse(cfg, s, i, found);
    assert TicketsConvertible(s) by { SerialConvertible(cfg, s); }
    OutsideKeepsSerial(cfg, s, s', i);
  }

  lemma SerialConvertible(cfg: Config, s: State)
    requires Serial(cfg, s)
    ensures TicketsConvertible(s)
  {
  }

  lemma LeaveKeepsSerial(cfg: Config, s: State, i: nat)
    requires i < |s.tasks| && Serial(cfg, s) && s.lock != Some(i)
    ensures Serial(cfg, Leave(s, i))
  {
    hide Execute, Served, Serial, Ticket.Convertible;
    SerialConvertible(cfg, s);
    OutsideKeepsSerial(cfg, s, Leave(s, i), i);
  }

  lemma TradeKeepsSerial(cfg: Config, s: State, i: nat)
    requires i < |s.tasks| && Serial(cfg, s) && Exclusive(s)
    ensures Serial(cfg, Trade(cfg, s, i))
  {
    hide Execute, Served, Serial;
    match s.tasks[i] {
      case Waiting(_) =>
        if s.lock.None? {
          AcquireKeepsSerial(cfg, s, i);
        }
      case Closing => ReleaseKeepsSerial(cfg, s, i);
      case Executing(_) | Settled(_) | Penalising => InsideKeepsSerial(cfg, s, i);
      case _ =>
    }
  }

  lemma MoveKeepsSerial(cfg: Config, s: State, i: nat, found: Option<Ticket>)
    requires i < |s.tasks| && Serial(cfg, s) && Exclusive(s)
    ensures Serial(cfg, Next(cfg, s, Move(i, found)))
  {
    hide Serial, Analyse, Trade, Leave;
    match s.tasks[i] {
      case Admitted | Started | Evaluating | Found(_) => AnalyseKeepsSerial(cfg, s, i, found);
      case Finishing | Leaving | Done => LeaveKeepsSerial(cfg, s, i);
      case _ => TradeKeepsSerial(cfg, s, i);
    }
  }

  lemma NextKeepsAll(cfg: Config, s: State, a: Action)
    requires Conserved(cfg, s) && Exclusive(s) && Serial(cfg, s)
    ensures var s' := Next(cfg, s, a); Conserved(cfg, s') && Exclusive(s') && Serial(cfg, s')
  {
    hide Conserved, Exclusive, Serial, AdmitTask;
    match a
    case Admit =>
      AdmitKeepsConserved(cfg, s);
      AdmitKeepsExclusive(s);
      AdmitKeepsSerial(cfg, s);
    case Move(i, found) =>
      if i < |s.tasks| {
        MoveKeepsConserved(cfg, s, i, found);
        MoveKeepsExclusive(cfg, s, i, found);
        MoveKeepsSerial(cfg, s, i, found);
      }
  }

  /** In every interleaving: permits, gauge and counters are conserved, each mutex has at most one holder, and the shared
      executor and its metrics are those of handling the opportunities one after the other. */
  lemma {:induction false} EveryInterleaving(cfg: Config, schedule: seq<Action>)
    ensures var s := Run(cfg, schedule); Conserved(cfg, s) && Exclusive(s) && Serial(cfg, s)
  {
    if schedule != [] {
      EveryInterleaving(cfg, schedule[..|schedule| - 1]);
      NextKeepsAll(cfg, Run(cfg, schedule[..|schedule| - 1]), schedule[|schedule| - 1]);
      hide Next, Conserved, Exclusive, Serial;
    }
  }

  /** As many tasks as configured, at least one, can be alive at a time; every other permit is free. The gauge never shows more
      than the live tasks. */
  lemma GaugeWithinPool(cfg: Config, schedule: seq<Action>)
    ensures var s := Run(cfg, schedule);
            && 0 <= s.activeWorkers <= Count(s.tasks, Live) <= Max(cfg.workers, 1)
            && s.permits == Max(cfg.workers, 1) - Count(s.tasks, Live)
            && (Count(s.tasks, Live) == 0 ==> s.activeWorkers == 0)
  {
    hide Run;
    EveryInterleaving(cfg, schedule);
    CountAtMost(Run(cfg, schedule).tasks);
  }

  /** No two tasks are ever inside the same mutex. */
  lemma MutualExclusion(cfg: Config, schedule: seq<Action>, i: nat, j: nat)
    requires i < j < |Run(cfg, schedule).tasks|
    ensures var tasks := Run(cfg, schedule).tasks;
            !(tasks[i].Evaluating? && tasks[j].Evaluating?) && !(tasks[i].HoldsExecutor() && tasks[j].HoldsExecutor())
  {
    hide Run, Conserved, Serial;
    EveryInterleaving(cfg, schedule);
  }

  /** The moves of a schedule that find an opportunity counted. */
  function Detections(cfg: Config, schedule: seq<Action>): nat {
    if schedule == [] then 0
    else
      var front, a := schedule[..|schedule| - 1], schedule[|schedule| - 1];
      var tasks := Run(cfg, front).tasks;
      Detections(cfg, front) + if a.Move? && a.task < |tasks| && tasks[a.task].Found? then 1 else 0
  }

  lemma DetectedStep(cfg: Config, s: State, a: Action)
    ensures Next(cfg, s, a).detected == s.detected + if a.Move? && a.task < |s.tasks| && s.tasks[a.task].Found? then 1 else 0
  {
    hide Execute, Ticket.Convertible;
  }

  /** With or without an executor, every opportunity found is counted, once. */
  lemma {:induction false} EveryFindIsCounted(cfg: Config, schedule: seq<Action>)
    ensures Run(cfg, schedule).detected == Detections(cfg, schedule)
  {
    if schedule != [] {
      EveryFindIsCounted(cfg, schedule[..|schedule| - 1]);
      DetectedStep(cfg, Run(cfg, schedule[..|schedule| - 1]), schedule[|schedule| - 1]);
      hide Next;
    }
  }

  /** The laws of serial sessions hold of the concurrent bot whenever the executor is free. */
  lemma ConcurrentLaws(cfg: Config, schedule: seq<Action>, nonce: U64, now: nat)
    requires cfg.settings.Valid() && cfg.start == Initial(nonce, now) && Run(cfg, schedule).lock.None?
    ensures var c, s := cfg.settings, Run(cfg, schedule);
            && AllConvertible(s.handled)
            && NoncesInOrder(nonce, s.executor)
            && (c.limits.circuitBreakerEnabled && c.limits.maxConsecutiveFailures < U32_SIZE - 1 ==>
                  s.executor.guard.consecutiveFailures <= c.limits.maxConsecutiveFailures + 1)
            && (|s.handled| < U64_SIZE ==> TableInOrder(c, s.executor, Leftovers(cfg.oracle, c, cfg.start, s.handled)))
            && (HonestReceipts(cfg.oracle) && Covered(s.handled) ==> SpendConsistent(c.limits, s.executor.guard))
  {
    hide Run, NoncesInOrder, TableInOrder, HandleAll, Covered, HonestReceipts, SpendConsistent, FailureWeight, Leftovers,
      Conserved, Exclusive;
    EveryInterleaving(cfg, schedule);
    var c, s := cfg.settings, Run(cfg, schedule);
    assert AllConvertible(s.handled) by { SerialConvertible(cfg, s); }
    NonceConservation(cfg.oracle, c, nonce, now, s.handled);
    if c.limits.circuitBreakerEnabled && c.limits.maxConsecutiveFailures < U32_SIZE - 1 {
      BreakerBounded(cfg.oracle, c, cfg.start, s.handled);
    }
    if |s.handled| < U64_SIZE {
      TableLaw(cfg.oracle, c, nonce, now, s.handled);
    }
    if HonestReceipts(cfg.oracle) && Covered(s.handled) {
      InitialSpend(c, nonce, now);
      SpendWithinLimit(cfg.oracle, c, cfg.start, s.handled);
    }
  }

  /** How many results there are of each kind. */
  datatype Kinds = Kinds(confirmed: nat, dropped: nat, rejected: nat, erred: nat)

  function KindsOf(results: seq<RunResult>): Kinds {
    if results == [] then Kinds(0, 0, 0, 0)
    else
      var k := KindsOf(results[..|results| - 1]);
      match results[|results| - 1]
      case Ok(Confirmed(_, _, _)) => k.(confirmed := k.confirmed + 1)
      case Ok(Dropped(_, _)) => k.(dropped := k.dropped + 1)
      case Ok(Rejected) => k.(rejected := k.rejected + 1)
      case Ok(Replaced(_, _)) => k
      case Err(_) => k.(erred := k.erred + 1)
  }

  predicate NoneReplaced(results: seq<RunResult>) {
    forall i :: 0 <= i < |results| ==> !(results[i].Ok? && results[i].outcome.Replaced?)
  }

  lemma HandleNeverReplaces(o: Oracle, c: Settings, s: Executor, t: Ticket)
    requires t.Convertible()
    ensures var result := Handle(o, c, s, t).1; !(result.Ok? && result.outcome.Replaced?)
  {
    hide Preflight, Monitor, Calculator.CalculateReplacementGasPrice;
    var launch := Start(o, c, s, t);
    if launch.Launched? {
      var s1 := launch.state.(world := Elapse(o, launch.state.world));
      MonitorNeverReplaces(o, c, s1, launch.hash, s1.world.clock + c.TimeoutSecs() * SECOND, t.opportunity);
    }
  }

  lemma {:induction false} MonitorNeverReplaces(o: Oracle, c: Settings, s: Executor, current: TxHash, deadline: nat, opp: ScoredOpportunity)
    requires Affordable(opp)
    ensures var result := Monitor(o, c, s, current, deadline, opp).result; !(result.Ok? && result.outcome.Replaced?)
    decreases Max(deadline - s.world.clock, 0)
  {
    IterationRests(o, c, s, current, deadline, opp);
    IterateOutcome(o, c, s, current, deadline, opp);
    hide Iterate;
    var i := Iterate(o, c, s, current, deadline, opp);
    if i.Again? {
      MonitorNeverReplaces(o, c, i.state, i.current, deadline, opp);
    }
  }

  lemma {:induction false} ServedNeverReplaces(cfg: Config, tickets: seq<Ticket>)
    requires AllConvertible(tickets)
    ensures NoneReplaced(Served(cfg, tickets).1) && |Served(cfg, tickets).1| == |tickets|
  {
    if tickets != [] {
      var front, t := tickets[..|tickets| - 1], tickets[|tickets| - 1];
      ServedNeverReplaces(cfg, front);
      HandleNeverReplaces(cfg.oracle, cfg.settings, Served(cfg, front).0, t);
      hide Handle;
    }
  }

  lemma {:induction false} WinsAreConfirmations(results: seq<RunResult>)
    requires NoneReplaced(results)
    ensures var k := KindsOf(results); Wins(results) == k.confirmed && |results| == k.confirmed + k.dropped + k.rejected + k.erred
    ensures |GasOfAll(results)| == KindsOf(results).confirmed
  {
    if results != [] {
      WinsAreConfirmations(results[..|results| - 1]);
    }
  }

  /** The execution metrics whenever the executor is free: a success for every confirmation, a failure for every drop, refusal
      and error, and one of them for every handled opportunity. */
  lemma MetricsByKind(cfg: Config, schedule: seq<Action>)
    requires Run(cfg, schedule).lock.None?
    ensures var s := Run(cfg, schedule);
            && AllConvertible(s.handled)
            && var k := KindsOf(Served(cfg, s.handled).1);
               && s.successes == k.confirmed == |GasOfAll(Served(cfg, s.handled).1)|
               && s.failures == k.dropped + k.rejected + k.erred
               && s.successes + s.failures == |s.handled|
  {
    hide Run, HandleAll, KindsOf, GasOfAll, Conserved, Exclusive;
    EveryInterleaving(cfg, schedule);
    var s := Run(cfg, schedule);
    assert AllConvertible(s.handled) by { SerialConvertible(cfg, s); }
    ServedNeverReplaces(cfg, s.handled);
    WinsAreConfirmations(Served(cfg, s.handled).1);
  }

  /** So do distinctness of the accepted first nonces and the spend ledger. */
  lemma ConcurrentHistory(cfg: Config, schedule: seq<Action>, nonce: U64, now: nat)
    requires cfg.start == Initial(nonce, now) && Run(cfg, schedule).lock.None?
    ensures var s := Run(cfg, schedule);
            && AllConvertible(s.handled)
            && (|s.handled| <= U64_SIZE ==> AllDistinct(AcceptedNonces(s.executor.log)))
            && LedgerHolds(cfg.oracle, cfg.settings, cfg.start, s.handled, s.executor, Served(cfg, s.handled).1)
  {
    hide Run, HandleAll, AcceptedNonces, LedgerHolds, Conserved, Exclusive;
    EveryInterleaving(cfg, schedule);
    var s := Run(cfg, schedule);
    assert AllConvertible(s.handled) by { SerialConvertible(cfg, s); }
    if |s.handled| <= U64_SIZE {
      AcceptedDistinct(cfg.oracle, cfg.settings, nonce, now, s.handled);
    }
    LedgerLaw(cfg.oracle, cfg.settings, cfg.start, s.handled);
  }

  /** The breaker is open and the executor is this one; no worker inside its mutex is about to change it. */
  predicate Frozen(cfg: Config, s: State, executor: Executor) {
    && BreakerOpen(cfg.settings.limits, executor.guard) && s.executor == executor
    && forall i :: 0 <= i < |s.tasks| ==> !s.tasks[i].Penalising? && (s.tasks[i].Settled? ==> s.tasks[i].result.Err?)
  }

  lemma FrozenExecution(cfg: Config, executor: Executor, ticket: Ticket)
    requires BreakerOpen(cfg.settings.limits, executor.guard) && ticket.Convertible()
    ensures var run := Execute(cfg.oracle, cfg.settings, executor, ticket); run.state == executor && run.result.Err?
  {
    OpenBreakerFreezes(cfg.oracle, cfg.settings, executor, ticket);
    hide Execute;
  }

  lemma TradeStaysFrozen(cfg: Config, s: State, i: nat, executor: Executor)
    requires i < |s.tasks| && Frozen(cfg, s, executor)
    ensures Frozen(cfg, Trade(cfg, s, i), executor)
  {
    if s.tasks[i].Executing? && s.tasks[i].ticket.Convertible() {
      FrozenExecution(cfg, executor, s.tasks[i].ticket);
    }
    hide Execute, Ticket.Convertible, BreakerOpen;
  }

  lemma NextStaysFrozen(cfg: Config, s: State, a: Action, executor: Executor)
    requires Frozen(cfg, s, executor)
    ensures Frozen(cfg, Next(cfg, s, a), executor)
  {
    hide Trade, BreakerOpen, Ticket.Convertible;
    if a.Move? && a.task < |s.tasks| {
      TradeStaysFrozen(cfg, s, a.task, executor);
    }
  }

  /** An open breaker latches in the concurrent bot: once the executor is free with its breaker open, no later step of any
      worker changes it. */
  lemma {:induction false} ConcurrentLatch(cfg: Config, schedule: seq<Action>, rest: seq<Action>)
    requires Run(cfg, schedule).lock.None? && BreakerOpen(cfg.settings.limits, Run(cfg, schedule).executor.guard)
    ensures Frozen(cfg, Run(cfg, schedule + rest), Run(cfg, schedule).executor)
  {
    if rest == [] {
      assert schedule + rest == schedule;
      EveryInterleaving(cfg, schedule);
      hide Run, Conserved, Serial, BreakerOpen;
    } else {
      var front, a := rest[..|rest| - 1], rest[|rest| - 1];
      ConcurrentLatch(cfg, schedule, front);
      assert (schedule + rest)[..|schedule + rest| - 1] == schedule + front;
      NextStaysFrozen(cfg, Run(cfg, schedule + front), a, Run(cfg, schedule).executor);
      hide Next, Frozen, BreakerOpen;
    }
  }

  lemma InitialSpend(c: Settings, nonce: U64, now: nat)
    ensures SpendConsistent(c.limits, Initial(nonce, now).guard)
  {
  }
}
