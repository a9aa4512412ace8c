/** src/execution/safety.rs: the circuit breaker, the spend window and the pre-flight check. */
module Safety {
  import opened Units
  import opened Environment
  import opened Profitability

  const DAY: nat := 86_400 * SECOND

  datatype SafetyError =
    | EmergencyStopActive | CircuitBreakerOpen | SoftGasCapExceeded | InsufficientRoi | DailySpendLimitReached

  datatype Limits = Limits(
    circuitBreakerEnabled: bool, maxConsecutiveFailures: U32, maxDailySpendEth: real, minProfitThreshold: real,
    emergencyStop: bool, softGasCap: real)
  {
    function SpendLimitWei(): U128 {
      EthToWei(maxDailySpendEth)
    }
  }

  /** The mutable state, with the amounts recorded since the last window reset as a history variable. */
  datatype Guard = Guard(consecutiveFailures: U32, dailySpendWei: U128, spendDayStarted: nat, recorded: seq<U128>)

  datatype Verdict = Pass | Refuse(error: SafetyError)

  function SuccessRecorded(g: Guard): Guard {
    g.(consecutiveFailures := 0)
  }

  /** fetch_add on a 32-bit counter wraps. */
  function FailureRecorded(g: Guard): Guard {
    g.(consecutiveFailures := (g.consecutiveFailures + 1) % U32_SIZE)
  }

  function ResetIfNeeded(o: Oracle, g: Guard, w: World): (Guard, World) {
    var w1 := Elapse(o, w);
    if w1.clock - g.spendDayStarted < DAY then (g, w1)
    else
      var w2 := Elapse(o, w1);
      (g.(spendDayStarted := w2.clock, dailySpendWei := 0, recorded := []), w2)
  }

  function SpendRecorded(o: Oracle, g: Guard, w: World, spent: U128): (Guard, World) {
    var (g1, w1) := ResetIfNeeded(o, g, w);
    (g1.(dailySpendWei := SaturatingAdd128(g1.dailySpendWei, spent), recorded := g1.recorded + [spent]), w1)
  }

  predicate BreakerOpen(l: Limits, g: Guard) {
    l.circuitBreakerEnabled && g.consecutiveFailures >= l.maxConsecutiveFailures
  }

  /** The guards that come before the spend check. */
  predicate ReachesSpendCheck(l: Limits, g: Guard, analysis: ProfitabilityAnalysis, gasGwei: real) {
    !l.emergencyStop && !BreakerOpen(l, g) && gasGwei <= l.softGasCap && analysis.IsProfitable(l.minProfitThreshold)
  }

  /** Only the spend check converts the estimate to 128 bits. */
  function Preflight(o: Oracle, l: Limits, g: Guard, w: World, analysis: ProfitabilityAnalysis, gasGwei: real)
    : (Verdict, Guard, World)
    requires ReachesSpendCheck(l, g, analysis, gasGwei) ==> analysis.replacementGasCostWei < U128_SIZE
  {
    if l.emergencyStop then (Refuse(EmergencyStopActive), g, w)
    else if BreakerOpen(l, g) then (Refuse(CircuitBreakerOpen), g, w)
    else if gasGwei > l.softGasCap then (Refuse(SoftGasCapExceeded), g, w)
    else if !analysis.IsProfitable(l.minProfitThreshold) then (Refuse(InsufficientRoi), g, w)
    else
      var (g1, w1) := ResetIfNeeded(o, g, w);
      if SaturatingAdd128(g1.dailySpendWei, analysis.replacementGasCostWei) > l.SpendLimitWei()
      then (Refuse(DailySpendLimitReached), g1, w1)
      else (Pass, g1, w1)
  }

  /** The saturated sum of the recorded amounts. */
  function SaturatedSum(amounts: seq<U128>): U128 {
    if amounts == [] then 0
    else SaturatingAdd128(SaturatedSum(amounts[..|amounts| - 1]), amounts[|amounts| - 1])
  }

  function Sum(amounts: seq<U128>): nat {
    if amounts == [] then 0 else Sum(amounts[..|amounts| - 1]) + amounts[|amounts| - 1]
  }

  /** Saturating at every addition is the exact sum, capped once at the end. */
  lemma {:induction false} SaturatedSumIsCapped(amounts: seq<U128>)
    ensures SaturatedSum(amounts) == Min(Sum(amounts), U128_MAX)
  {
    if amounts != [] {
      SaturatedSumIsCapped(amounts[..|amounts| - 1]);
    }
  }

  /** The counter is the sum of what was recorded since the reset, within the limit. */
  predicate SpendConsistent(l: Limits, g: Guard) {
    g.dailySpendWei == SaturatedSum(g.recorded) && g.dailySpendWei <= l.SpendLimitWei()
  }

  /** Room is left for spending up to `reserve` more. */
  predicate Reserved(l: Limits, g: Guard, reserve: nat) {
    Min(g.dailySpendWei + reserve, U128_MAX) <= l.SpendLimitWei()
  }

  lemma ResetKeepsSpend(o: Oracle, l: Limits, g: Guard, w: World, reserve: nat)
    requires SpendConsistent(l, g)
    ensures var (g1, w1) := ResetIfNeeded(o, g, w);
            && SpendConsistent(l, g1) && w1.clock >= w.clock
            && g1.consecutiveFailures == g.consecutiveFailures
            && g1.dailySpendWei <= g.dailySpendWei
            && (Reserved(l, g, reserve) ==> Reserved(l, g1, reserve))
  {
  }

  /** A passed check reserves the estimate: whatever resets happen later, spending up to it stays within the limit. */
  lemma PreflightReserves(o: Oracle, l: Limits, g: Guard, w: World, analysis: ProfitabilityAnalysis, gasGwei: real)
    requires ReachesSpendCheck(l, g, analysis, gasGwei) ==> analysis.replacementGasCostWei < U128_SIZE
    requires SpendConsistent(l, g)
    ensures var (v, g1, w1) := Preflight(o, l, g, w, analysis, gasGwei);
            && SpendConsistent(l, g1) && w1.clock >= w.clock && w1.calls >= w.calls
            && g1.consecutiveFailures == g.consecutiveFailures
            && g1.dailySpendWei <= g.dailySpendWei
            && (v.Pass? ==> (
                  && Reserved(l, g1, analysis.replacementGasCostWei)
                  && gasGwei <= l.softGasCap && !BreakerOpen(l, g) && !l.emergencyStop
                  && analysis.IsProfitable(l.minProfitThreshold)))
  {
    ResetKeepsSpend(o, l, g, w, 0);
  }

  lemma SpendWithinReserve(o: Oracle, l: Limits, g: Guard, w: World, spent: U128, reserve: nat)
    requires SpendConsistent(l, g) && Reserved(l, g, reserve) && spent <= reserve
    ensures var (g1, w1) := SpendRecorded(o, g, w, spent);
            && SpendConsistent(l, g1) && w1.clock >= w.clock
            && g1.consecutiveFailures == g.consecutiveFailures
  {
    ResetKeepsSpend(o, l, g, w, reserve);
    var (g1, w1) := ResetIfNeeded(o, g, w);
    assert (g1.recorded + [spent])[..|g1.recorded|] == g1.recorded;
  }

  /** A reading of the clock at this moment, and the one after it. */
  datatype Reading = Reading(at: nat, next: nat)

  function ReadingNow(o: Oracle, w: World): Reading {
    var at := w.clock + o(w.calls).delay;
    Reading(at, at + o(w.calls + 1).delay)
  }

  /** A day has passed since the window's start. */
  predicate Overdue(start: nat, r: Reading) {
    r.at >= start + 86_400_000_000_000
  }

  /** Recording reads the clock. If the window's start is a day or more ago, the window restarts at a second reading and holds
      this amount only; otherwise its start stays and the amount is added. */
  lemma RecordingExactly(o: Oracle, g: Guard, w: World, spent: U128)
    ensures var (g', w'), r := SpendRecorded(o, g, w, spent), ReadingNow(o, w);
            && g'.consecutiveFailures == g.consecutiveFailures
            && if Overdue(g.spendDayStarted, r)
               then g'.spendDayStarted == r.next && g'.dailySpendWei == spent && g'.recorded == [spent] && w' == World(r.next, w.calls + 2)
               else g'.spendDayStarted == g.spendDayStarted && g'.dailySpendWei == Min(g.dailySpendWei + spent, U128_MAX)
                    && g'.recorded == g.recorded + [spent] && w' == World(r.at, w.calls + 1)
  {
  }

  /** The amount that counts against the limit at this reading. */
  function SpentToday(g: Guard, r: Reading): U128 {
    if Overdue(g.spendDayStarted, r) then 0 else g.dailySpendWei
  }

  /** The verdict names the first guard that fails. Only when all the others pass is the clock read, and then the window is
      restarted exactly as when recording. */
  lemma CheckingExactly(o: Oracle, l: Limits, g: Guard, w: World, a: ProfitabilityAnalysis, gasGwei: real)
    requires a.replacementGasCostWei < U128_SIZE
    ensures var (v, g', w'), r := Preflight(o, l, g, w, a, gasGwei), ReadingNow(o, w);
            var broken := l.circuitBreakerEnabled && g.consecutiveFailures >= l.maxConsecutiveFailures;
            var poor := a.netProfitWei == 0 || (a.roi.Finite? && a.roi.percent < l.minProfitThreshold);
            var beyond := Min(SpentToday(g, r) + a.replacementGasCostWei, U128_MAX) > EthToWei(l.maxDailySpendEth);
            && v == (if l.emergencyStop then Refuse(EmergencyStopActive)
                     else if broken then Refuse(CircuitBreakerOpen)
                     else if gasGwei > l.softGasCap then Refuse(SoftGasCapExceeded)
                     else if poor then Refuse(InsufficientRoi)
                     else if beyond then Refuse(DailySpendLimitReached)
                     else Pass)
            && if l.emergencyStop || broken || gasGwei > l.softGasCap || poor then g' == g && w' == w
               else if Overdue(g.spendDayStarted, r)
               then g' == g.(spendDayStarted := r.next, dailySpendWei := 0, recorded := []) && w' == World(r.next, w.calls + 2)
               else g' == g && w' == World(r.at, w.calls + 1)
  {
  }

  class SafetyGuard {
    const limits: Limits
    const outside: Outside
    var consecutiveFailures: U32
    var dailySpendWei: U128
    var spendDayStarted: nat
    ghost var recorded: seq<U128>

    ghost function State(): Guard
      reads this
    {
      Guard(consecutiveFailures, dailySpendWei, spendDayStarted, recorded)
    }

    constructor (limits: Limits, outside: Outside, now: nat)
      ensures this.limits == limits && this.outside == outside && State() == Guard(0, 0, now, [])
      ensures SpendConsistent(limits, State())
    {
      this.limits, this.outside := limits, outside;
      consecutiveFailures, dailySpendWei, spendDayStarted, recorded := 0, 0, now, [];
    }

    method RecordSuccess()
      modifies this`consecutiveFailures
      ensures State() == SuccessRecorded(old(State()))
    {
      consecutiveFailures := 0;
    }

    method RecordFailure()
      modifies this`consecutiveFailures
      ensures State() == FailureRecorded(old(State()))
    {
      consecutiveFailures := (consecutiveFailures + 1) % U32_SIZE;
    }

    method ResetDailySpendIfNeeded()
      modifies this`dailySpendWei, this`spendDayStarted, this`recorded, outside
      ensures (State(), outside.State()) == ResetIfNeeded(outside.oracle, old(State()), old(outside.State()))
    {
      var now := outside.Now();
      if now - spendDayStarted >= DAY {
        spendDayStarted := outside.Now();
        dailySpendWei := 0;
        recorded := [];
      }
    }

    method RecordSpend(spent: U128)
      modifies this`dailySpendWei, this`spendDayStarted, this`recorded, outside
      ensures (State(), outside.State()) == SpendRecorded(outside.oracle, old(State()), old(outside.State()), spent)
    {
      ResetDailySpendIfNeeded();
      dailySpendWei := SaturatingAdd128(dailySpendWei, spent);
      recorded := recorded + [spent];
    }

    method PreflightCheck(analysis: ProfitabilityAnalysis, gasGwei: real) returns (verdict: Verdict)
      requires ReachesSpendCheck(limits, State(), analysis, gasGwei) ==> analysis.replacementGasCostWei < U128_SIZE
      modifies this`dailySpendWei, this`spendDayStarted, this`recorded, outside
      ensures (verdict, State(), outside.State())
                == Preflight(outside.oracle, limits, old(State()), old(outside.State()), analysis, gasGwei)
    {
      if limits.emergencyStop {
        return Refuse(EmergencyStopActive);
      }
      if limits.circuitBreakerEnabled {
        if consecutiveFailures >= limits.maxConsecutiveFailures {
          return Refuse(CircuitBreakerOpen);
        }
      }
      if gasGwei > limits.softGasCap {
        return Refuse(SoftGasCapExceeded);
      }
      if !analysis.IsProfitable(limits.minProfitThreshold) {
        return Refuse(InsufficientRoi);
      }
      ResetDailySpendIfNeeded();
      if SaturatingAdd128(dailySpendWei, analysis.replacementGasCostWei) > limits.SpendLimitWei() {
        return Refuse(DailySpendLimitReached);
      }
      verdict := Pass;
    }
  }
}
