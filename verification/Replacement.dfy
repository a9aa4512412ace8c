/** src/execution/replacement.rs: submit, monitor and replace.

    The functions specify what each method does to the executor's state, given the oracle of the outside world; the
    class below carries the code in its own imperative form and is proved equal to them. */
module Replacement {
  import opened Units
  import opened GasAuction
  import opened Environment
  import opened Nonces
  import opened Opportunities
  import opened Safety

  const MAX_REPLACEMENT_ATTEMPTS: nat := 3

  datatype Settings = Settings(
    chainId: U64, calculator: Calculator, limits: Limits, confirmationTimeoutSecs: nat, pollIntervalSecs: nat)
  {
    function TimeoutSecs(): nat {
      Max(confirmationTimeoutSecs, 1)
    }

    function Poll(): nat {
      Max(pollIntervalSecs, 1) * SECOND
    }

    /** What validation and construction guarantee. */
    predicate Valid() {
      calculator.Valid() && limits.softGasCap == calculator.softGasCap && limits.maxConsecutiveFailures >= 1
    }
  }

  datatype PendingSubmission = PendingSubmission(nonce: U64, gasPrice: U128, replacementAttempts: nat)

  datatype SubmissionOutcome =
    | Confirmed(hash: TxHash, blockNumber: U64, gasUsed: U128)
    | Replaced(originalHash: TxHash, replacementHash: TxHash)
    | Dropped(hash: TxHash, waitSecs: nat)
    | Rejected

  datatype BotError = BidTooHigh | Blocked(reason: SafetyError) | NonceConflict | SigningFailed | RpcFailed

  datatype RunResult = Ok(outcome: SubmissionOutcome) | Err(error: BotError)

  predicate IsDrop(result: RunResult) {
    result.Ok? && result.outcome.Dropped?
  }

  /** History of what was handed to the signer and the node. */
  datatype Event =
    | Accepted(tx: TypedTransaction, first: bool)
    | Refused(tx: TypedTransaction, first: bool)
    | Unsigned(tx: TypedTransaction, first: bool)

  datatype Executor = Executor(
    nextNonce: U64, synced: bool, guard: Guard, pending: map<TxHash, PendingSubmission>, world: World, log: seq<Event>)

  /** An opportunity together with the network state it is executed under. */
  datatype Ticket = Ticket(opportunity: ScoredOpportunity, network: NetworkState) {
    function VictimPrice(): U256 {
      opportunity.pending.EffectiveGasPrice()
    }

    /** The inputs on which no 128-bit conversion panics. */
    predicate Convertible() {
      && VictimPrice() < U128_SIZE
      && SaturatingAdd256(network.baseFeePerGas, network.suggestedPriorityFee) < U128_SIZE
      && opportunity.profitability.replacementGasCostWei < U128_SIZE
    }
  }

  function Transaction(c: Settings, opp: ScoredOpportunity, nonce: U64, price: U128): TypedTransaction {
    var p := opp.pending;
    BuildTypedTransaction(BuildParams(c.chainId, nonce, p.gasLimit, price, p.feeModel, p.to, p.value, p.input))
  }

  predicate Affordable(opp: ScoredOpportunity) {
    opp.profitability.replacementGasCostWei < U128_SIZE
  }

  function Check(o: Oracle, c: Settings, s: Executor, opp: ScoredOpportunity, price: U128): (Verdict, Executor)
    requires Affordable(opp)
  {
    var (v, g, w) := Preflight(o, c.limits, s.guard, s.world, opp.profitability, WeiToGwei(price));
    (v, s.(guard := g, world := w))
  }

  function Replace(o: Oracle, c: Settings, s: Executor, entry: PendingSubmission, opp: ScoredOpportunity)
    : (Executor, Option<TxHash>)
    requires Affordable(opp)
  {
    match c.calculator.ApplyAdditionalBump(entry.gasPrice)
    case GasPriceExceeded => (s, None)
    case Bid(price) =>
      var (v, s1) := Check(o, c, s, opp, price);
      if v.Refuse? then (s1, None)
      else
        var tx := Transaction(c, opp, entry.nonce, price);
        var s2 := s1.(world := Elapse(o, s1.world));
        if !o(s1.world.calls).signs then (s2.(log := s2.log + [Unsigned(tx, false)]), None)
        else
          var s3 := s2.(world := Elapse(o, s2.world));
          if !o(s2.world.calls).accepts then (s3.(log := s3.log + [Refused(tx, false)]), None)
          else
            (s3.(pending := s3.pending[tx := PendingSubmission(entry.nonce, price, entry.replacementAttempts + 1)],
                 log := s3.log + [Accepted(tx, false)]), Some(tx))
  }

  datatype Iteration = Returned(state: Executor, result: RunResult) | Again(state: Executor, current: TxHash)

  function Drop(c: Settings, s: Executor, current: TxHash): Executor {
    s.(pending := s.pending - {current}, guard := FailureRecorded(s.guard))
  }

  function Confirm(o: Oracle, s: Executor, current: TxHash, receipt: Receipt): Executor {
    var (g, w) := SpendRecorded(o, SuccessRecorded(s.guard), s.world, receipt.GasUsed());
    s.(pending := s.pending - {current}, guard := g, world := w)
  }

  function Rest(o: Oracle, c: Settings, s: Executor): Executor {
    s.(world := Slept(o, s.world, c.Poll()))
  }

  /** One pass through the monitoring loop. */
  function Iterate(o: Oracle, c: Settings, s: Executor, current: TxHash, deadline: nat, opp: ScoredOpportunity): Iteration
    requires Affordable(opp)
  {
    var s1 := s.(world := Elapse(o, s.world));
    if s1.world.clock >= deadline then Returned(Drop(c, s1, current), Ok(Dropped(current, c.TimeoutSecs())))
    else
      var receipt := o(s1.world.calls).receipt(current);
      var s2 := s1.(world := Elapse(o, s1.world));
      match receipt
      case RpcError => Returned(s2, Err(RpcFailed))
      case Mined(_, _) =>
        Returned(Confirm(o, s2, current, receipt), Ok(Confirmed(current, receipt.BlockNumber(), receipt.GasUsed())))
      case NotMined =>
        if current in s2.pending && s2.pending[current].replacementAttempts < MAX_REPLACEMENT_ATTEMPTS
        then IterateReplacing(o, c, s2, current, opp)
        else Again(Rest(o, c, s2), current)
  }

  /** The part of an iteration that may replace the current transaction. */
  function IterateReplacing(o: Oracle, c: Settings, s2: Executor, current: TxHash, opp: ScoredOpportunity): Iteration
    requires Affordable(opp) && current in s2.pending
  {
    var s3 := Rest(o, c, s2);
    var receipt := o(s3.world.calls).receipt(current);
    var s4 := s3.(world := Elapse(o, s3.world));
    match receipt
    case RpcError => Returned(s4, Err(RpcFailed))
    case Mined(_, _) => Again(s4, current)
    case NotMined =>
      match Replace(o, c, s4, s2.pending[current], opp)
      case (s5, Some(replacement)) => Again(s5.(pending := s5.pending - {current}), replacement)
      case (s5, None) => Again(Rest(o, c, s5), current)
  }

  /** Whatever a replacement attempt does, time does not run backwards. */
  lemma ReplaceAdvances(o: Oracle, c: Settings, s: Executor, entry: PendingSubmission, opp: ScoredOpportunity)
    requires Affordable(opp)
    ensures Replace(o, c, s, entry, opp).0.world.clock >= s.world.clock
  {
  }

  /** Every iteration that does not return has slept for at least one poll interval. */
  lemma IterationRests(o: Oracle, c: Settings, s: Executor, current: TxHash, deadline: nat, opp: ScoredOpportunity)
    requires Affordable(opp)
    ensures var i := Iterate(o, c, s, current, deadline, opp);
            i.Again? ==> s.world.clock < deadline && i.state.world.clock >= s.world.clock + c.Poll()
  {
    var s2 := s.(world := Elapse(o, Elapse(o, s.world)));
    if current in s2.pending {
      var s4 := Rest(o, c, s2).(world := Elapse(o, Rest(o, c, s2).world));
      ReplaceAdvances(o, c, s4, s2.pending[current], opp);
    }
  }

  datatype Run = Run(state: Executor, result: RunResult, rounds: nat)

  /** The monitoring loop, counting its rounds. */
  function Monitor(o: Oracle, c: Settings, s: Executor, current: TxHash, deadline: nat, opp: ScoredOpportunity): Run
    requires Affordable(opp)
    decreases Max(deadline - s.world.clock, 0)
  {
    IterationRests(o, c, s, current, deadline, opp);
    match Iterate(o, c, s, current, deadline, opp)
    case Returned(s', result) => Run(s', result, 1)
    case Again(s', next) =>
      var rest := Monitor(o, c, s', next, deadline, opp);
      rest.(rounds := rest.rounds + 1)
  }

  function MonitorFromNow(o: Oracle, c: Settings, s: Executor, current: TxHash, opp: ScoredOpportunity): Run
    requires Affordable(opp)
  {
    var s1 := s.(world := Elapse(o, s.world));
    Monitor(o, c, s1, current, s1.world.clock + c.TimeoutSecs() * SECOND, opp)
  }

  /** How far a first bid gets: stopped, or broadcast and to be monitored. */
  datatype Launch = Stopped(state: Executor, result: RunResult) | Launched(state: Executor, hash: TxHash)

  function Submit(o: Oracle, s: Executor, tx: TypedTransaction, price: U128): Launch {
    var s1 := s.(world := Elapse(o, s.world));
    if o(s.world.calls).accepts then
      Launched(s1.(pending := s1.pending[tx := PendingSubmission(tx.nonce, price, 0)], log := s1.log + [Accepted(tx, true)]), tx)
    else
      Stopped(s1.(nextNonce := Released(s1.nextNonce, tx.nonce), guard := FailureRecorded(s1.guard),
                  log := s1.log + [Refused(tx, true)]), Ok(Rejected))
  }

  function Start(o: Oracle, c: Settings, s: Executor, t: Ticket): Launch
    requires t.Convertible()
  {
    match c.calculator.CalculateReplacementGasPrice(t.VictimPrice(), t.network)
    case GasPriceExceeded => Stopped(s, Err(BidTooHigh))
    case Bid(price) =>
      var (v, s1) := Check(o, c, s, t.opportunity, price);
      if v.Refuse? then Stopped(s1, Err(Blocked(v.error)))
      else if !s1.synced then Stopped(s1, Err(NonceConflict))
      else
        var tx := Transaction(c, t.opportunity, s1.nextNonce, price);
        var s2 := s1.(nextNonce := NextNonce(s1.nextNonce), world := Elapse(o, s1.world));
        if o(s1.world.calls).signs then Submit(o, s2, tx, price)
        else Stopped(s2.(log := s2.log + [Unsigned(tx, true)]), Err(SigningFailed))
  }

  function FollowUp(o: Oracle, c: Settings, launch: Launch, opp: ScoredOpportunity): Run
    requires Affordable(opp)
  {
    match launch
    case Stopped(s, result) => Run(s, result, 0)
    case Launched(s, hash) => MonitorFromNow(o, c, s, hash, opp)
  }

  function Execute(o: Oracle, c: Settings, s: Executor, t: Ticket): Run
    requires t.Convertible()
  {
    FollowUp(o, c, Start(o, c, s, t), t.opportunity)
  }

  /** handle_opportunity of src/runtime/worker.rs, under the executor lock: a drop is recorded as a failure again. */
  function Handle(o: Oracle, c: Settings, s: Executor, t: Ticket): (Executor, RunResult)
    requires t.Convertible()
  {
    var run := Execute(o, c, s, t);
    if IsDrop(run.result)
    then (run.state.(guard := FailureRecorded(run.state.guard)), run.result)
    else (run.state, run.result)
  }

  class ReplacementExecutor {
    const settings: Settings
    const outside: Outside
    const nonceManager: NonceManager
    const safetyGuard: SafetyGuard
    var pendingSubmissions: map<TxHash, PendingSubmission>
    ghost var log: seq<Event>

    ghost const Repr: set<object> := {this, outside, nonceManager, safetyGuard}

    ghost predicate Valid() {
      safetyGuard.outside == outside && safetyGuard.limits == settings.limits
    }

    ghost function State(): Executor
      reads Repr
    {
      Executor(nonceManager.nextNonce, nonceManager.synced, safetyGuard.State(), pendingSubmissions, outside.State(), log)
    }

    /** As built, before the nonce is fetched. */
    constructor (settings: Settings, outside: Outside)
      ensures Valid() && this.settings == settings && this.outside == outside
      ensures fresh(nonceManager) && fresh(safetyGuard)
      ensures State() == Executor(0, false, Guard(0, 0, outside.clock, []), map[], outside.State(), [])
    {
      this.settings, this.outside := settings, outside;
      pendingSubmissions, log := map[], [];
      nonceManager := new NonceManager();
      safetyGuard := new SafetyGuard(settings.limits, outside, outside.clock);
    }

    /** There is an executor exactly when the wallet loads and the account nonce can be fetched; it starts at that nonce. */
    static method Initialize(settings: Settings, outside: Outside, walletLoads: bool, fetchedNonce: Option<U64>)
      returns (executor: Option<ReplacementExecutor>)
      ensures executor.Some? <==> walletLoads && fetchedNonce.Some?
      ensures executor.Some? ==>
                && fresh(executor.value) && fresh(executor.value.nonceManager) && fresh(executor.value.safetyGuard)
                && executor.value.Valid() && executor.value.settings == settings && executor.value.outside == outside
                && executor.value.State()
                     == Executor(fetchedNonce.value, true, Guard(0, 0, outside.clock, []), map[], outside.State(), [])
    {
      if !walletLoads {
        return None;
      }
      var built := new ReplacementExecutor(settings, outside);
      var synced := built.nonceManager.SyncFromChain(fetchedNonce);
      executor := if synced then Some(built) else None;
    }

    method ExecuteOpportunity(t: Ticket) returns (result: RunResult, ghost rounds: nat)
      requires Valid() && t.Convertible()
      modifies Repr
      ensures Run(State(), result, rounds) == Execute(outside.oracle, settings, old(State()), t)
    {
      rounds := 0;
      var replacementGas := settings.calculator.CalculateReplacementGasPrice(t.VictimPrice(), t.network);
      if replacementGas.GasPriceExceeded? {
        return Err(BidTooHigh), rounds;
      }
      var verdict := safetyGuard.PreflightCheck(t.opportunity.profitability, WeiToGwei(replacementGas.price));
      if verdict.Refuse? {
        return Err(Blocked(verdict.error)), rounds;
      }
      var nonce := nonceManager.AllocateNonce();
      if nonce.None? {
        return Err(NonceConflict), rounds;
      }
      var tx := Transaction(settings, t.opportunity, nonce.value, replacementGas.price);
      var signed := outside.Sign();
      if !signed {
        log := log + [Unsigned(tx, true)];
        return Err(SigningFailed), rounds;
      }
      result, rounds := SubmitAndMonitor(tx, replacementGas.price, t.opportunity);
    }

    method SubmitAndMonitor(tx: TypedTransaction, price: U128, opp: ScoredOpportunity)
      returns (result: RunResult, ghost rounds: nat)
      requires Valid() && Affordable(opp)
      modifies Repr
      ensures Run(State(), result, rounds)
                == FollowUp(outside.oracle, settings, Submit(outside.oracle, old(State()), tx, price), opp)
    {
      rounds := 0;
      var accepted := outside.SendRawTransaction();
      if !accepted {
        nonceManager.ReleaseNonce(tx.nonce);
        safetyGuard.RecordFailure();
        log := log + [Refused(tx, true)];
        return Ok(Rejected), rounds;
      }
      pendingSubmissions := pendingSubmissions[tx := PendingSubmission(tx.nonce, price, 0)];
      log := log + [Accepted(tx, true)];
      result, rounds := MonitorUntilSettled(tx, opp);
    }

    /** The run that monitoring from here on completes, after `rounds` rounds. */
    ghost function Remaining(current: TxHash, deadline: nat, opp: ScoredOpportunity, rounds: nat): Run
      requires Affordable(opp)
      reads Repr
    {
      var rest := Monitor(outside.oracle, settings, State(), current, deadline, opp);
      rest.(rounds := rest.rounds + rounds)
    }

    method MonitorUntilSettled(first: TxHash, opp: ScoredOpportunity) returns (result: RunResult, ghost rounds: nat)
      requires Valid() && Affordable(opp)
      modifies Repr
      ensures Run(State(), result, rounds) == MonitorFromNow(outside.oracle, settings, old(State()), first, opp)
    {
      hide Iterate;
      var current := first;
      rounds := 0;
      var start := outside.Now();
      var deadline := start + settings.TimeoutSecs() * SECOND;
      ghost var whole := Remaining(current, deadline, opp, 0);
      while true
        invariant Remaining(current, deadline, opp, rounds) == whole
        decreases Max(deadline - outside.clock, 0)
      {
        rounds := rounds + 1;
        var settled, next := MonitorOnce(current, deadline, opp);
        if settled.Some? {
          return settled.value, rounds;
        }
        current := next;
      }
    }

    /** The body of the monitoring loop: settles, or goes on with the hash to poll next. */
    method MonitorOnce(current: TxHash, deadline: nat, opp: ScoredOpportunity)
      returns (settled: Option<RunResult>, next: TxHash)
      requires Valid() && Affordable(opp)
      modifies Repr
      ensures Iterate(outside.oracle, settings, old(State()), current, deadline, opp)
                == if settled.Some? then Returned(State(), settled.value) else Again(State(), next)
      ensures settled.None? ==> old(outside.clock) < deadline && outside.clock >= old(outside.clock) + settings.Poll()
    {
      ghost var before := State();
      IterationRests(outside.oracle, settings, before, current, deadline, opp);
      next := current;
      var now := outside.Now();
      if now >= deadline {
        pendingSubmissions := pendingSubmissions - {current};
        safetyGuard.RecordFailure();
        return Some(Ok(Dropped(current, settings.TimeoutSecs()))), next;
      }
      var receipt := outside.GetTransactionReceipt(current);
      if receipt.RpcError? {
        return Some(Err(RpcFailed)), next;
      }
      if receipt.Mined? {
        pendingSubmissions := pendingSubmissions - {current};
        safetyGuard.RecordSuccess();
        safetyGuard.RecordSpend(receipt.GasUsed());
        return Some(Ok(Confirmed(current, receipt.BlockNumber(), receipt.GasUsed()))), next;
      }
      if current in pendingSubmissions {
        var pending := pendingSubmissions[current];
        if pending.replacementAttempts < MAX_REPLACEMENT_ATTEMPTS {
          settled, next := ReplaceOnce(current, pending, opp);
          return;
        }
      }
      outside.Sleep(settings.Poll());
      settled := None;
    }

    /** The branch of the loop body that still may replace the current transaction. */
    method ReplaceOnce(current: TxHash, pending: PendingSubmission, opp: ScoredOpportunity)
      returns (settled: Option<RunResult>, next: TxHash)
      requires Valid() && Affordable(opp) && current in pendingSubmissions && pendingSubmissions[current] == pending
      modifies Repr
      ensures IterateReplacing(outside.oracle, settings, old(State()), current, opp)
                == if settled.Some? then Returned(State(), settled.value) else Again(State(), next)
    {
      settled, next := None, current;
      outside.Sleep(settings.Poll());
      var receipt := outside.GetTransactionReceipt(current);
      if receipt.RpcError? {
        return Some(Err(RpcFailed)), next;
      }
      if receipt.Mined? {
        return;
      }
      var replacement := AttemptReplacement(pending, opp);
      if replacement.Some? {
        pendingSubmissions := pendingSubmissions - {current};
        next := replacement.value;
        return;
      }
      outside.Sleep(settings.Poll());
    }

    method AttemptReplacement(entry: PendingSubmission, opp: ScoredOpportunity) returns (replacement: Option<TxHash>)
      requires Valid() && Affordable(opp)
      modifies Repr
      ensures (State(), replacement) == Replace(outside.oracle, settings, old(State()), entry, opp)
    {
      var bumpedGas := settings.calculator.ApplyAdditionalBump(entry.gasPrice);
      if bumpedGas.GasPriceExceeded? {
        return None;
      }
      var verdict := safetyGuard.PreflightCheck(opp.profitability, WeiToGwei(bumpedGas.price));
      if verdict.Refuse? {
        return None;
      }
      var tx := Transaction(settings, opp, entry.nonce, bumpedGas.price);
      var signed := outside.Sign();
      if !signed {
        log := log + [Unsigned(tx, false)];
        return None;
      }
      var accepted := outside.SendRawTransaction();
      if !accepted {
        log := log + [Refused(tx, false)];
        return None;
      }
      pendingSubmissions := pendingSubmissions[tx := PendingSubmission(entry.nonce, bumpedGas.price, entry.replacementAttempts + 1)];
      log := log + [Accepted(tx, false)];
      replacement := Some(tx);
    }

    /** The worker's part, run while it holds the executor lock. */
    method HandleOpportunity(t: Ticket) returns (result: RunResult)
      requires Valid() && t.Convertible()
      modifies Repr
      ensures (State(), result) == Handle(outside.oracle, settings, old(State()), t)
    {
      ghost var rounds;
      result, rounds := ExecuteOpportunity(t);
      if IsDrop(result) {
        safetyGuard.RecordFailure();
      }
    }
  }
}
