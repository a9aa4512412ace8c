/** The worker protocol does not get stuck: while a worker lives some worker can move, and moves run out. */
module WorkerProgress {
  import opened Units
  import Replacement
  import opened WorkerProtocol

  /** How many steps a worker still has before it, at most. */
  function Rank(phase: Phase): nat {
    match phase
    case Admitted => 11
    case Started => 10
    case Evaluating => 9
    case Found(_) => 8
    case Waiting(_) => 7
    case Executing(_) => 6
    case Settled(_) => 5
    case Penalising => 4
    case Closing => 3
    case Finishing => 2
    case Leaving => 1
    case Done => 0
  }

  function Work(tasks: seq<Phase>): nat {
    if tasks == [] then 0 else Work(tasks[..|tasks| - 1]) + Rank(tasks[|tasks| - 1])
  }

  lemma WorkAppend(tasks: seq<Phase>, phase: Phase)
    ensures Work(tasks + [phase]) == Work(tasks) + Rank(phase)
  {
    assert (tasks + [phase])[..|tasks|] == tasks;
  }

  lemma {:induction false} WorkUpdate(tasks: seq<Phase>, i: nat, phase: Phase)
    requires i < |tasks|
    ensures Work(tasks[i := phase]) == Work(tasks) - Rank(tasks[i]) + Rank(phase)
  {
    var front, last := tasks[..|tasks| - 1], |tasks| - 1;
    if i == last {
      assert tasks[i := phase][..last] == front;
    } else {
      assert tasks[i := phase][..last] == front[i := phase];
      WorkUpdate(front, i, phase);
    }
  }

  /** The step changes nothing, or brings the worker closer to its end. */
  predicate Advances(s: State, s': State, i: nat)
    requires i < |s.tasks|
  {
    s' == s || (|s'.tasks| == |s.tasks| && s'.tasks == s.tasks[i := s'.tasks[i]] && Rank(s'.tasks[i]) < Rank(s.tasks[i]))
  }

  lemma AnalyseAdvances(cfg: Config, s: State, i: nat, found: Option<Replacement.Ticket>)
    requires i < |s.tasks|
    ensures Advances(s, Analyse(cfg, s, i, found), i)
  {
    hide Replacement.Ticket.Convertible;
  }

  lemma TradeAdvances(cfg: Config, s: State, i: nat)
    requires i < |s.tasks|
    ensures Advances(s, Trade(cfg, s, i), i)
  {
    hide Replacement.Execute, Replacement.Ticket.Convertible;
  }

  lemma LeaveAdvances(s: State, i: nat)
    requires i < |s.tasks|
    ensures Advances(s, Leave(s, i), i)
  {
  }

  lemma MoveAdvances(cfg: Config, s: State, i: nat, found: Option<Replacement.Ticket>)
    requires i < |s.tasks|
    ensures Advances(s, Next(cfg, s, Move(i, found)), i)
  {
    hide Advances, Analyse, Trade, Leave;
    match s.tasks[i] {
      case Admitted | Started | Evaluating | Found(_) => AnalyseAdvances(cfg, s, i, found);
      case Finishing | Leaving | Done => LeaveAdvances(s, i);
      case _ => TradeAdvances(cfg, s, i);
    }
  }

  lemma MoveReducesWork(cfg: Config, s: State, i: nat, found: Option<Replacement.Ticket>)
    requires i < |s.tasks|
    ensures var s' := Next(cfg, s, Move(i, found)); |s'.tasks| == |s.tasks| && (s' != s ==> Work(s'.tasks) < Work(s.tasks))
  {
    hide Next, Work, Rank;
    MoveAdvances(cfg, s, i, found);
    var s' := Next(cfg, s, Move(i, found));
    if s' != s {
      WorkUpdate(s.tasks, i, s'.tasks[i]);
    }
  }

  /** The moves of a schedule that changed something. */
  function Steps(cfg: Config, schedule: seq<Action>): nat {
    if schedule == [] then 0
    else
      var front, a := schedule[..|schedule| - 1], schedule[|schedule| - 1];
      Steps(cfg, front) + if a.Move? && Next(cfg, Run(cfg, front), a) != Run(cfg, front) then 1 else 0
  }

  /** Every schedule makes at most eleven steps per admitted worker: no scheduler can keep a worker busy for ever. */
  lemma {:induction false} StepsAreBounded(cfg: Config, schedule: seq<Action>)
    ensures var tasks := Run(cfg, schedule).tasks; Steps(cfg, schedule) + Work(tasks) <= 11 * |tasks|
  {
    if schedule != [] {
      var front, a := schedule[..|schedule| - 1], schedule[|schedule| - 1];
      StepsAreBounded(cfg, front);
      var s := Run(cfg, front);
      match a {
        case Admit => WorkAppend(s.tasks, Admitted);
        case Move(i, found) =>
          if i < |s.tasks| {
            MoveReducesWork(cfg, s, i, found);
          }
      }
      hide Analyse, Trade, Leave;
    }
  }

  predicate Live(phase: Phase) {
    !phase.Done?
  }

  lemma {:induction false} SomeoneLives(tasks: seq<Phase>) returns (i: nat)
    requires Count(tasks, Group.Live) > 0
    ensures i < |tasks| && Live(tasks[i])
  {
    i := |tasks| - 1;
    if !Live(tasks[i]) {
      i := SomeoneLives(tasks[..i]);
    }
  }

  /** In every reachable state with a live worker some worker can move: the holder of the executor, else the holder of the
      detector, else any live one. */
  lemma SomeoneMoves(cfg: Config, s: State) returns (i: nat)
    requires Exclusive(s) && TicketsConvertible(s) && Count(s.tasks, Group.Live) > 0
    ensures i < |s.tasks| && Next(cfg, s, Move(i, None)) != s
  {
    if s.lock.Some? {
      i := s.lock.value;
    } else if s.detector.Some? {
      i := s.detector.value;
    } else {
      i := SomeoneLives(s.tasks);
    }
    Possible(cfg, s, i);
    hide Next, Count;
  }

  lemma Possible(cfg: Config, s: State, i: nat)
    requires i < |s.tasks| && Live(s.tasks[i])
    requires s.tasks[i].Waiting? ==> s.lock.None?
    requires s.tasks[i].Started? ==> s.detector.None?
    requires s.tasks[i].Executing? ==> s.tasks[i].ticket.Convertible()
    ensures Next(cfg, s, Move(i, None)) != s
  {
    hide Replacement.Execute, Replacement.Ticket.Convertible;
    assert Next(cfg, s, Move(i, None)).tasks[i] != s.tasks[i];
  }

  predicate AllMoves(schedule: seq<Action>) {
    forall a <- schedule :: a.Move?
  }

  /** One more move that gets somewhere. */
  lemma OneMove(cfg: Config, schedule: seq<Action>) returns (a: Action)
    requires Count(Run(cfg, schedule).tasks, Group.Live) > 0
    ensures a.Move? && Work(Run(cfg, schedule + [a]).tasks) < Work(Run(cfg, schedule).tasks)
  {
    EveryInterleaving(cfg, schedule);
    hide Next, Conserved, Exclusive, TicketsConvertible, Inside, Work, Count;
    var s := Run(cfg, schedule);
    SerialConvertible(cfg, s);
    var i := SomeoneMoves(cfg, s);
    a := Move(i, None);
    MoveReducesWork(cfg, s, i, None);
    assert (schedule + [a])[..|schedule|] == schedule;
  }

  predicate AtRest(cfg: Config, s: State) {
    && Count(s.tasks, Group.Live) == 0
    && s.permits == cfg.Permits() && s.activeWorkers == 0 && s.detector.None? && s.lock.None?
  }

  lemma NothingHeld(cfg: Config, s: State)
    requires Conserved(cfg, s) && Exclusive(s) && Count(s.tasks, Group.Live) == 0
    ensures AtRest(cfg, s)
  {
    CountAtMost(s.tasks);
    if s.detector.Some? {
      CountPositive(s.tasks, s.detector.value, Group.Live);
    }
    if s.lock.Some? {
      CountPositive(s.tasks, s.lock.value, Group.Live);
    }
  }

  /** Whatever has happened, the admitted workers can all be run to their end, with every permit back and nothing held. */
  lemma {:induction false} PoolDrains(cfg: Config, schedule: seq<Action>) returns (rest: seq<Action>)
    ensures AllMoves(rest) && AtRest(cfg, Run(cfg, schedule + rest))
    decreases Work(Run(cfg, schedule).tasks)
  {
    hide Run, Work, Count, AtRest, Conserved, Exclusive, Serial;
    if Count(Run(cfg, schedule).tasks, Group.Live) == 0 {
      rest := [];
      assert schedule + [] == schedule;
      EveryInterleaving(cfg, schedule);
      NothingHeld(cfg, Run(cfg, schedule));
    } else {
      var a := OneMove(cfg, schedule);
      var later := PoolDrains(cfg, schedule + [a]);
      rest := [a] + later;
      assert schedule + rest == schedule + [a] + later;
    }
  }
}
