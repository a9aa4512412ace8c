/** src/blockchain/connection.rs: round-robin failover with per-endpoint backoff, one call at a time. */
module Connection {
  import opened Units
  import opened Backoff

  /** A reply may be arbitrarily late. */
  datatype Answer = Value(value: nat) | Fault(code: nat)
  datatype Reply = Reply(delay: nat, answer: Answer)
  type Network = nat -> Reply
  datatype Clock = Clock(now: nat, calls: nat)

  function Tick(net: Network, c: Clock): Clock {
    Clock(c.now + net(c.calls).delay, c.calls + 1)
  }

  datatype Slot = Slot(
    consecutiveFailures: nat, totalRequests: nat, failedRequests: nat, lastSuccess: Option<nat>, backoffUntil: Option<nat>)

  /** In milliseconds, as configured. */
  datatype Policy = Policy(initialBackoff: U64, maxBackoff: U64)

  datatype Outcome = Success(value: nat) | LastError(code: nat) | AllProvidersFailed

  predicate InBackoff(s: Slot, now: nat) {
    s.backoffUntil.Some? && s.backoffUntil.value > now
  }

  function Begun(s: Slot): Slot {
    s.(totalRequests := s.totalRequests + 1)
  }

  function Succeeded(s: Slot, now: nat): Slot {
    s.(consecutiveFailures := 0, lastSuccess := Some(now), backoffUntil := None)
  }

  function Failed(p: Policy, s: Slot, now: nat): Slot {
    var failures := s.consecutiveFailures + 1;
    s.(failedRequests := s.failedRequests + 1, consecutiveFailures := failures,
       backoffUntil := Some(now + ProviderBackoff(p.initialBackoff, p.maxBackoff, failures) * MILLISECOND))
  }

  /** The provider visited k-th by a call that starts at `start`. */
  function Rotation(start: nat, k: nat, n: nat): (index: nat)
    requires n > 0
    ensures index < n
  {
    (start + k) % n
  }

  datatype Call = Call(slots: seq<Slot>, clock: Clock, outcome: Outcome)

  /** The call from rotation step k on. */
  function Attempt(net: Network, p: Policy, slots: seq<Slot>, clock: Clock, start: nat, k: nat, last: Option<nat>): (call: Call)
    requires k <= |slots|
    ensures |call.slots| == |slots|
    decreases |slots| - k
  {
    if k == |slots| then
      Call(slots, clock, match last case Some(code) => LastError(code) case None => AllProvidersFailed)
    else
      var index := Rotation(start, k, |slots|);
      var c1 := Tick(net, clock);
      if InBackoff(slots[index], c1.now) then Attempt(net, p, slots, c1, start, k + 1, last)
      else
        var c2 := Tick(net, c1);
        var c3 := Tick(net, c2);
        var slot := Begun(slots[index]);
        match net(c1.calls).answer
        case Value(v) => Call(slots[index := Succeeded(slot, c3.now)], c3, Success(v))
        case Fault(code) => Attempt(net, p, slots[index := Failed(p, slot, c3.now)], c3, start, k + 1, Some(code))
  }

  // What a call means

  /** What happened at one rotation step, when it was reached, and which network reply it saw. */
  datatype Visit =
    | Skipped(reached: nat)
    | Failure(reached: nat, reply: nat, at: nat)
    | Answered(reached: nat, reply: nat, at: nat)

  /** A visit skips exactly the providers in backoff when reached; otherwise it asks the network and counts the request,
      and a failure counts once more and starts the exponential backoff. */
  predicate Explains(net: Network, p: Policy, visit: Visit, before: Slot, after: Slot) {
    && (visit.Skipped? <==> InBackoff(before, visit.reached))
    && match visit
       case Skipped(_) => after == before
       case Failure(_, reply, at) =>
         && net(reply).answer.Fault?
         && after.totalRequests == before.totalRequests + 1 && after.failedRequests == before.failedRequests + 1
         && after.consecutiveFailures == before.consecutiveFailures + 1 && after.lastSuccess == before.lastSuccess
         && after.backoffUntil == Some(at + ProviderBackoff(p.initialBackoff, p.maxBackoff, after.consecutiveFailures) * MILLISECOND)
       case Answered(_, reply, at) =>
         && net(reply).answer.Value?
         && after == Slot(0, before.totalRequests + 1, before.failedRequests, Some(at), None)
  }

  /** The reply of the last visit that failed. */
  function LastFault(net: Network, visits: seq<Visit>, earlier: Option<nat>): Option<nat> {
    if visits == [] then earlier
    else
      var v := visits[0];
      LastFault(net, visits[1..], if v.Failure? && net(v.reply).answer.Fault? then Some(net(v.reply).answer.code) else earlier)
  }

  /** No proper multiple of n lies strictly between 0 and n. */
  lemma NoMultipleBetween(n: nat, q: int)
    requires 0 < n
    ensures n * q <= 0 || n * q >= n
  {
    if q >= 1 {
      MulNonNegative(n, q - 1);
      assert n * q == n * (q - 1) + n;
    } else {
      MulNonNegative(n, -q);
      assert n * q == -(n * (-q));
    }
  }

  lemma CongruentGap(a: nat, b: nat, n: nat)
    requires n > 0 && a % n == b % n
    ensures b - a == n * (b / n - a / n)
  {
    assert n * (b / n - a / n) == n * (b / n) - n * (a / n);
  }

  lemma RotationInjective(start: nat, j: nat, k: nat, n: nat)
    requires j < k < j + n
    ensures Rotation(start, j, n) != Rotation(start, k, n)
  {
    var a, b := start + j, start + k;
    if a % n == b % n {
      CongruentGap(a, b, n);
      NoMultipleBetween(n, b / n - a / n);
    }
  }

  /** The providers not visited by steps k .. k+m-1 are unchanged. */
  predicate OthersUnchanged(before: seq<Slot>, after: seq<Slot>, start: nat, k: nat, m: nat) {
    && |after| == |before| > 0
    && forall i :: 0 <= i < |before| && (forall j :: k <= j < k + m ==> Rotation(start, j, |before|) != i) ==> after[i] == before[i]
  }

  /** The visits of a call are explained one by one, along the rotation from step k. */
  predicate Explained(net: Network, p: Policy, before: seq<Slot>, after: seq<Slot>, start: nat, k: nat, visits: seq<Visit>) {
    && |after| == |before| > 0
    && forall j :: 0 <= j < |visits| ==>
         Explains(net, p, visits[j], before[Rotation(start, k + j, |before|)], after[Rotation(start, k + j, |before|)])
  }

  /** How the outcome follows from the visits: the first answer ends the call; without one every provider was visited, and
      the error is the last fault, or that all were in backoff. */
  predicate Concludes(net: Network, visits: seq<Visit>, steps: nat, earlier: Option<nat>, outcome: Outcome) {
    && |visits| <= steps
    && (forall j :: 0 <= j < |visits| - 1 ==> !visits[j].Answered?)
    && match outcome
       case Success(value) =>
         visits != [] && visits[|visits| - 1].Answered? && net(visits[|visits| - 1].reply).answer == Value(value)
       case LastError(code) =>
         |visits| == steps && (visits != [] ==> !visits[steps - 1].Answered?) && LastFault(net, visits, earlier) == Some(code)
       case AllProvidersFailed =>
         |visits| == steps && earlier.None? && forall j :: 0 <= j < |visits| ==> visits[j].Skipped?
  }

  /** The whole account of a call from rotation step k on. */
  predicate Story(net: Network, p: Policy, slots: seq<Slot>, call: Call, start: nat, k: nat, last: Option<nat>, visits: seq<Visit>)
    requires k <= |slots|
  {
    && Explained(net, p, slots, call.slots, start, k, visits)
    && OthersUnchanged(slots, call.slots, start, k, |visits|)
    && Concludes(net, visits, |slots| - k, last, call.outcome)
  }

  /** The visits of a call from rotation step k on. */
  function Visits(net: Network, p: Policy, slots: seq<Slot>, clock: Clock, start: nat, k: nat): seq<Visit>
    requires k <= |slots|
    decreases |slots| - k
  {
    if k == |slots| then []
    else
      var index := Rotation(start, k, |slots|);
      var c1 := Tick(net, clock);
      var c3 := Tick(net, Tick(net, c1));
      if InBackoff(slots[index], c1.now) then [Skipped(c1.now)] + Visits(net, p, slots, c1, start, k + 1)
      else if net(c1.calls).answer.Value? then [Answered(c1.now, c1.calls, c3.now)]
      else
        [Failure(c1.now, c1.calls, c3.now)]
        + Visits(net, p, slots[index := Failed(p, Begun(slots[index]), c3.now)], c3, start, k + 1)
  }

  lemma {:induction false} AttemptExplained(net: Network, p: Policy, slots: seq<Slot>, clock: Clock, start: nat, k: nat, last: Option<nat>)
    returns (visits: seq<Visit>)
    requires k <= |slots| && |slots| > 0
    ensures visits == Visits(net, p, slots, clock, start, k)
    ensures Story(net, p, slots, Attempt(net, p, slots, clock, start, k, last), start, k, last, visits)
    ensures Follows(net, clock, visits, Attempt(net, p, slots, clock, start, k, last).clock)
    decreases |slots| - k
  {
    hide Story, Explains, Failed, Rotation;
    if k == |slots| {
      visits := [];
      EmptyStory(net, p, slots, clock, start, last);
    } else {
      var index := Rotation(start, k, |slots|);
      var c1 := Tick(net, clock);
      var c3 := Tick(net, Tick(net, c1));
      if InBackoff(slots[index], c1.now) {
        var rest := AttemptExplained(net, p, slots, c1, start, k + 1, last);
        visits := [Skipped(c1.now)] + rest;
        SkippedExplains(net, p, c1.now, slots[index]);
        PrependVisit(net, p, slots, slots, Attempt(net, p, slots, c1, start, k + 1, last), start, k, last, last, visits[0], rest);
      } else if net(c1.calls).answer.Value? {
        visits := [Answered(c1.now, c1.calls, c3.now)];
        AnsweredStory(net, p, slots, c3, start, k, last, visits[0]);
      } else {
        var slot := Failed(p, Begun(slots[index]), c3.now);
        var code := Some(net(c1.calls).answer.code);
        var rest := AttemptExplained(net, p, slots[index := slot], c3, start, k + 1, code);
        visits := [Failure(c1.now, c1.calls, c3.now)] + rest;
        FailureExplains(net, p, visits[0], slots[index]);
        PrependVisit(net, p, slots, slots[index := slot], Attempt(net, p, slots[index := slot], c3, start, k + 1, code), start, k,
                     last, code, visits[0], rest);
      }
    }
  }

  lemma EmptyStory(net: Network, p: Policy, slots: seq<Slot>, clock: Clock, start: nat, last: Option<nat>)
    requires |slots| > 0
    ensures Story(net, p, slots, Attempt(net, p, slots, clock, start, |slots|, last), start, |slots|, last, [])
  {
  }

  lemma SkippedExplains(net: Network, p: Policy, reached: nat, slot: Slot)
    requires InBackoff(slot, reached)
    ensures Explains(net, p, Skipped(reached), slot, slot)
  {
  }

  lemma FailureExplains(net: Network, p: Policy, visit: Visit, slot: Slot)
    requires visit.Failure? && net(visit.reply).answer.Fault? && !InBackoff(slot, visit.reached)
    ensures Explains(net, p, visit, slot, Failed(p, Begun(slot), visit.at))
  {
  }

  lemma AnsweredStory(net: Network, p: Policy, slots: seq<Slot>, clock: Clock, start: nat, k: nat, last: Option<nat>, visit: Visit)
    requires k < |slots| && visit.Answered? && net(visit.reply).answer.Value?
    requires !InBackoff(slots[Rotation(start, k, |slots|)], visit.reached)
    ensures var index := Rotation(start, k, |slots|);
            Story(net, p, slots, Call(slots[index := Succeeded(Begun(slots[index]), visit.at)], clock,
                                                      Success(net(visit.reply).answer.value)), start, k, last, [visit])
  {
  }

  /** A visit at step k, before the visits `rest`, which changed only its own provider. */
  predicate Preceded(net: Network, p: Policy, slots: seq<Slot>, slots1: seq<Slot>, start: nat, k: nat, visit: Visit)
  {
    && k < |slots| == |slots1|
    && var index := Rotation(start, k, |slots|);
       && slots1 == slots[index := slots1[index]]
       && Explains(net, p, visit, slots[index], slots1[index])
  }

  /** The later visits leave the provider of step k alone. */
  lemma NotVisitedAgain(slots: seq<Slot>, after: seq<Slot>, start: nat, k: nat, m: nat)
    requires k < |slots| && m < |slots| - k && OthersUnchanged(slots, after, start, k + 1, m)
    ensures after[Rotation(start, k, |slots|)] == slots[Rotation(start, k, |slots|)]
  {
    forall j | k + 1 <= j < k + 1 + m ensures Rotation(start, j, |slots|) != Rotation(start, k, |slots|) {
      RotationInjective(start, k, j, |slots|);
    }
    hide Rotation;
  }

  lemma PrependExplained(net: Network, p: Policy, slots: seq<Slot>, slots1: seq<Slot>, after: seq<Slot>, start: nat, k: nat,
                         visit: Visit, rest: seq<Visit>)
    requires Preceded(net, p, slots, slots1, start, k, visit) && |rest| < |slots| - k
    requires Explained(net, p, slots1, after, start, k + 1, rest)
    requires OthersUnchanged(slots1, after, start, k + 1, |rest|)
    ensures Explained(net, p, slots, after, start, k, [visit] + rest)
  {
    var visits, n := [visit] + rest, |slots|;
    NotVisitedAgain(slots1, after, start, k, |rest|);
    hide Explains, Rotation, OthersUnchanged;
    forall j | 0 <= j < |visits|
      ensures Explains(net, p, visits[j], slots[Rotation(start, k + j, n)], after[Rotation(start, k + j, n)])
    {
      if j > 0 {
        assert visits[j] == rest[j - 1] && k + j == k + 1 + (j - 1);
        RotationInjective(start, k, k + j, n);
      }
    }
  }

  lemma PrependUnchanged(slots: seq<Slot>, slots1: seq<Slot>, after: seq<Slot>, start: nat, k: nat, m: nat)
    requires k < |slots| == |slots1| && OthersUnchanged(slots1, after, start, k + 1, m)
    requires slots1 == slots[Rotation(start, k, |slots|) := slots1[Rotation(start, k, |slots|)]]
    ensures OthersUnchanged(slots, after, start, k, m + 1)
  {
    hide Rotation;
    var n := |slots|;
    forall i | 0 <= i < n && (forall j :: k <= j < k + m + 1 ==> Rotation(start, j, n) != i) ensures after[i] == slots[i] {
      assert Rotation(start, k, n) != i;
    }
  }

  lemma PrependConcludes(net: Network, visit: Visit, rest: seq<Visit>, steps: nat, last: Option<nat>, last1: Option<nat>,
                         outcome: Outcome)
    requires !visit.Answered? && Concludes(net, rest, steps, last1, outcome)
    requires visit.Failure? ==> net(visit.reply).answer.Fault? && last1 == Some(net(visit.reply).answer.code)
    requires visit.Skipped? ==> last1 == last
    ensures Concludes(net, [visit] + rest, steps + 1, last, outcome)
  {
    assert ([visit] + rest)[1..] == rest;
  }

  /** One more visit in front. */
  lemma PrependVisit(net: Network, p: Policy, slots: seq<Slot>, slots1: seq<Slot>, call: Call, start: nat, k: nat,
                     last: Option<nat>, last1: Option<nat>, visit: Visit, rest: seq<Visit>)
    requires Preceded(net, p, slots, slots1, start, k, visit) && !visit.Answered?
    requires visit.Failure? ==> net(visit.reply).answer.Fault? && last1 == Some(net(visit.reply).answer.code)
    requires visit.Skipped? ==> last1 == last
    requires Story(net, p, slots1, call, start, k + 1, last1, rest)
    ensures Story(net, p, slots, call, start, k, last, [visit] + rest)
  {
    VisitsFit(net, rest, |slots| - k - 1, last1, call.outcome);
    hide Explains, Explained, OthersUnchanged, Concludes, Rotation;
    PrependExplained(net, p, slots, slots1, call.slots, start, k, visit, rest);
    PrependUnchanged(slots, slots1, call.slots, start, k, |rest|);
    PrependConcludes(net, visit, rest, |slots| - k - 1, last, last1, call.outcome);
  }

  lemma VisitsFit(net: Network, visits: seq<Visit>, steps: nat, last: Option<nat>, outcome: Outcome)
    requires Concludes(net, visits, steps, last, outcome)
    ensures |visits| <= steps
  {
  }

  /** The clock readings and replies of the visits are the ones the call made, in order, each used once. */
  predicate Follows(net: Network, clock: Clock, visits: seq<Visit>, end: Clock)
    decreases |visits|
  {
    if visits == [] then clock == end
    else
      var c1 := Tick(net, clock);
      var c3 := Tick(net, Tick(net, c1));
      && visits[0].reached == c1.now
      && (!visits[0].Skipped? ==> visits[0].reply == c1.calls && visits[0].at == c3.now)
      && Follows(net, if visits[0].Skipped? then c1 else c3, visits[1..], end)
  }

  lemma {:induction false} NoFaultWhenSkipped(net: Network, visits: seq<Visit>)
    requires forall j :: 0 <= j < |visits| ==> visits[j].Skipped?
    ensures LastFault(net, visits, None).None?
  {
    if visits != [] {
      NoFaultWhenSkipped(net, visits[1..]);
    }
  }

  lemma OutcomeExactly(net: Network, visits: seq<Visit>, steps: nat, outcome: Outcome)
    requires Concludes(net, visits, steps, None, outcome)
    ensures outcome.AllProvidersFailed? <==> |visits| == steps && forall j :: 0 <= j < |visits| ==> visits[j].Skipped?
    ensures outcome.Success? <==> exists j :: 0 <= j < |visits| && visits[j].Answered?
  {
    hide LastFault;
    if forall j :: 0 <= j < |visits| ==> visits[j].Skipped? {
      NoFaultWhenSkipped(net, visits);
    }
  }

  /** A whole call: it walks a rotation of the providers, each at most once; it succeeds exactly when a visited provider
      answered, with that answer; it reports AllProvidersFailed exactly when every provider was in backoff when reached;
      otherwise it reports the last fault. Slots change as the visits explain, and no others change. */
  lemma FailoverSpec(net: Network, p: Policy, slots: seq<Slot>, clock: Clock, start: nat) returns (visits: seq<Visit>)
    requires |slots| > 0
    ensures visits == Visits(net, p, slots, clock, start, 0)
    ensures var call := Attempt(net, p, slots, clock, start, 0, None);
            && Story(net, p, slots, call, start, 0, None, visits)
            && Follows(net, clock, visits, call.clock)
            && (call.outcome.AllProvidersFailed? <==> |visits| == |slots| && forall j :: 0 <= j < |visits| ==> visits[j].Skipped?)
            && (call.outcome.Success? <==> exists j :: 0 <= j < |visits| && visits[j].Answered?)
    ensures forall j, k :: 0 <= j < k < |visits| ==> Rotation(start, j, |slots|) != Rotation(start, k, |slots|)
  {
    visits := AttemptExplained(net, p, slots, clock, start, 0, None);
    hide Attempt, Visits, Explained, OthersUnchanged, Concludes, Follows, Rotation;
    OutcomeExactly(net, visits, |slots|, Attempt(net, p, slots, clock, start, 0, None).outcome);
    assert |visits| <= |slots| by {
      VisitsFit(net, visits, |slots|, None, Attempt(net, p, slots, clock, start, 0, None).outcome);
    }
    forall j, k | 0 <= j < k < |visits| ensures Rotation(start, j, |slots|) != Rotation(start, k, |slots|) {
      RotationInjective(start, j, k, |slots|);
    }
  }

  // Fairness of the starting provider

  /** The provider at which the j-th call from now starts, when the shared 64-bit index is `index` now. */
  function StartingProvider(index: U64, j: nat, n: nat): (provider: nat)
    requires n > 0
    ensures provider < n
  {
    (index + j) % U64_SIZE % n
  }

  lemma FirstStart(n: nat)
    requires n > 0
    ensures StartingProvider(0, 0, n) == 0
  {
  }

  lemma QuotientUnique(x: nat, n: nat, q: nat, r: nat)
    requires r < n && x == n * q + r
    ensures x % n == r
  {
    assert x - r == n * q && x == n * (x / n) + x % n;
    assert n * (x / n - q) == n * (x / n) - n * q;
    NoMultipleBetween(n, x / n - q);
    NoMultipleBetween(n, q - x / n);
    assert n * (q - x / n) == -(n * (x / n - q));
  }

  lemma ModOfMod(x: nat, n: nat, m: nat)
    requires n > 0 && m > 0 && m % n == 0
    ensures x % m % n == x % n
  {
    var a, b, c := x % m / n, m / n, x / m;
    MulNonNegative(b, c);
    assert m * c == n * b * c == n * (b * c);
    assert x == m * c + x % m;
    assert x % m == n * a + x % m % n;
    assert n * (b * c + a) == n * (b * c) + n * a;
    QuotientUnique(x, n, b * c + a, x % m % n);
  }

  /** Without a wrap of the index, or when the number of providers divides 2^64, the index acts as an unbounded one. */
  lemma StartIsRotation(index: U64, j: nat, n: nat)
    requires n > 0 && (index + j < U64_SIZE || U64_SIZE % n == 0)
    ensures StartingProvider(index, j, n) == Rotation(index, j, n)
  {
    if U64_SIZE % n == 0 {
      ModOfMod(index + j, n, U64_SIZE);
    }
  }

  /** The call of the next n that starts at a given provider. */
  lemma CallStartingAt(index: U64, n: nat, provider: nat) returns (j: nat)
    requires provider < n
    ensures j < n && Rotation(index, j, n) == provider
  {
    j := StepsTo(index, n, index / n, index % n, provider);
  }

  lemma StepsTo(index: nat, n: nat, q: nat, r: nat, provider: nat) returns (j: nat)
    requires index == n * q + r && r < n && provider < n
    ensures j < n && Rotation(index, j, n) == provider
  {
    if provider >= r {
      j := provider - r;
      QuotientUnique(index + j, n, q, provider);
    } else {
      j := provider + n - r;
      assert n * (q + 1) == n * q + n;
      QuotientUnique(index + j, n, q + 1, provider);
    }
  }

  predicate HasTurn(index: U64, provider: nat, n: nat)
    requires n > 0
  {
    exists j :: 0 <= j < n && StartingProvider(index, j, n) == provider
  }

  /** Fairness: of n consecutive calls exactly one starts at each of the n providers. */
  lemma FairWindow(index: U64, n: nat)
    requires n > 0 && (index + n <= U64_SIZE || U64_SIZE % n == 0)
    ensures forall j, k :: 0 <= j < k < n ==> StartingProvider(index, j, n) != StartingProvider(index, k, n)
    ensures forall i :: 0 <= i < n ==> HasTurn(index, i, n)
  {
    hide StartingProvider, Rotation;
    forall j, k | 0 <= j < k < n ensures StartingProvider(index, j, n) != StartingProvider(index, k, n) {
      StartIsRotation(index, j, n);
      StartIsRotation(index, k, n);
      RotationInjective(index, j, k, n);
    }
    forall i | 0 <= i < n ensures HasTurn(index, i, n) {
      var j := CallStartingAt(index, n, i);
      StartIsRotation(index, j, n);
    }
  }

  /** Around the wrap of the 64-bit index fairness holds exactly when the number of providers divides 2^64: with three
      providers, say, the call after the wrap starts again at the provider that has just had its turn. */
  lemma FairnessExactly(n: nat)
    requires 0 < n <= U64_SIZE
    ensures (forall index: U64, j: nat, k: nat :: j < k < n ==> StartingProvider(index, j, n) != StartingProvider(index, k, n))
            <==> U64_SIZE % n == 0
  {
    if U64_SIZE % n == 0 {
      forall index: U64, j: nat, k: nat | j < k < n ensures StartingProvider(index, j, n) != StartingProvider(index, k, n) {
        FairWindow(index, n);
      }
    } else {
      UnfairWrap(n);
      var r := U64_SIZE % n;
      assert StartingProvider(U64_SIZE - 1, 0, n) == StartingProvider(U64_SIZE - 1, r, n);
    }
  }

  lemma UnfairWrap(n: nat)
    requires 0 < n && U64_SIZE % n != 0
    ensures StartingProvider(U64_SIZE - 1, 0, n) == StartingProvider(U64_SIZE - 1, U64_SIZE % n, n)
  {
    var q, r := U64_SIZE / n, U64_SIZE % n;
    QuotientUnique(U64_SIZE - 1, n, q, r - 1);
    WrapTo(r - 1);
    QuotientUnique(r - 1, n, 0, r - 1);
  }

  lemma WrapTo(x: nat)
    requires x < U64_SIZE
    ensures (U64_SIZE + x) % U64_SIZE == x
  {
  }

  // The connection manager

  class Remote {
    const net: Network
    var now: nat
    var calls: nat

    function State(): Clock
      reads this
    {
      Clock(now, calls)
    }

    /** Instant::now() */
    method Now() returns (instant: nat)
      modifies this
      ensures State() == Tick(net, old(State())) && instant == now
    {
      now, calls := now + net(calls).delay, calls + 1;
      instant := now;
    }

    /** The request that attempt_providers is given. */
    method Request() returns (answer: Answer)
      modifies this
      ensures State() == Tick(net, old(State())) && answer == net(old(calls)).answer
    {
      answer := net(calls).answer;
      now, calls := now + net(calls).delay, calls + 1;
    }
  }

  class ProviderSlot {
    var consecutiveFailures: nat
    var totalRequests: nat
    var failedRequests: nat
    var lastSuccess: Option<nat>
    var backoffUntil: Option<nat>

    constructor ()
      ensures State() == Slot(0, 0, 0, None, None)
    {
      consecutiveFailures, totalRequests, failedRequests := 0, 0, 0;
      lastSuccess, backoffUntil := None, None;
    }

    function State(): Slot
      reads this
    {
      Slot(consecutiveFailures, totalRequests, failedRequests, lastSuccess, backoffUntil)
    }

    method RecordSuccess(remote: Remote)
      modifies this, remote
      ensures remote.State() == Tick(remote.net, old(remote.State()))
      ensures State() == Succeeded(old(State()), remote.now)
    {
      consecutiveFailures := 0;
      var instant := remote.Now();
      lastSuccess := Some(instant);
      backoffUntil := None;
    }

    method RecordFailure(policy: Policy, remote: Remote)
      modifies this, remote
      ensures remote.State() == Tick(remote.net, old(remote.State()))
      ensures State() == Failed(policy, old(State()), remote.now)
    {
      failedRequests := failedRequests + 1;
      consecutiveFailures := consecutiveFailures + 1;
      var backoff := ProviderBackoff(policy.initialBackoff, policy.maxBackoff, consecutiveFailures);
      var instant := remote.Now();
      backoffUntil := Some(instant + backoff * MILLISECOND);
    }
  }

  function NewSlots(endpoints: nat): (slots: seq<Slot>)
    ensures |slots| == endpoints
  {
    seq(endpoints, i => Slot(0, 0, 0, None, None))
  }

  datatype ConnectError = InvalidEndpoint | ChainIdUnavailable(outcome: Outcome) | ChainIdMismatch(expected: U64, actual: nat)

  datatype Connected = Ready(manager: ConnectionManager) | NotConnected(error: ConnectError)

  class ConnectionManager {
    const providers: seq<ProviderSlot>
    const policy: Policy
    const remote: Remote
    var roundRobinIndex: U64

    /** One fresh slot per endpoint; the settings guarantee that there is one. */
    constructor (endpoints: nat, policy: Policy, remote: Remote)
      requires endpoints > 0
      ensures Valid() && this.policy == policy && this.remote == remote && roundRobinIndex == 0
      ensures |providers| == endpoints && forall i :: 0 <= i < endpoints ==> fresh(providers[i])
      ensures Slots() == NewSlots(endpoints)
    {
      var slots: seq<ProviderSlot> := [];
      for i := 0 to endpoints
        invariant |slots| == i
        invariant forall j, k :: 0 <= j < k < i ==> slots[j] != slots[k]
        invariant forall j :: 0 <= j < i ==> fresh(slots[j])
        invariant forall j :: 0 <= j < i ==> slots[j].State() == Slot(0, 0, 0, None, None)
      {
        var slot := new ProviderSlot();
        slots := slots + [slot];
      }
      providers := slots;
      this.policy, this.remote, roundRobinIndex := policy, remote, 0;
    }

    ghost predicate Valid() {
      providers != [] && forall i, j :: 0 <= i < j < |providers| ==> providers[i] != providers[j]
    }

    ghost function Slots(): seq<Slot>
      reads providers
    {
      seq(|providers|, i requires 0 <= i < |providers| reads providers => providers[i].State())
    }

    /** One provider's turn: nothing when it is in backoff, else one request and its record. */
    method Visit(index: nat) returns (answer: Option<Answer>)
      requires Valid() && index < |providers|
      modifies remote, providers
      ensures var c1 := Tick(remote.net, old(remote.State()));
              var slot := old(Slots())[index];
              if InBackoff(slot, c1.now) then answer == None && Slots() == old(Slots()) && remote.State() == c1
              else
                var c3 := Tick(remote.net, Tick(remote.net, c1));
                && answer == Some(remote.net(c1.calls).answer) && remote.State() == c3
                && Slots() == old(Slots())[index := if answer.value.Value? then Succeeded(Begun(slot), c3.now)
                                                    else Failed(policy, Begun(slot), c3.now)]
    {
      hide Failed, Succeeded;
      var slot := providers[index];
      var instant := remote.Now();
      if slot.backoffUntil.Some? && slot.backoffUntil.value > instant {
        return None;
      }
      slot.totalRequests := slot.totalRequests + 1;
      var reply := remote.Request();
      if reply.Value? {
        slot.RecordSuccess(remote);
      } else {
        slot.RecordFailure(policy, remote);
      }
      answer := Some(reply);
    }

    method AttemptProviders() returns (outcome: Outcome)
      requires Valid()
      modifies this`roundRobinIndex, remote, providers
      ensures roundRobinIndex == (old(roundRobinIndex) + 1) % U64_SIZE
      ensures Call(Slots(), remote.State(), outcome)
                == Attempt(remote.net, policy, old(Slots()), old(remote.State()),
                           StartingProvider(old(roundRobinIndex), 0, |providers|), 0, None)
    {
      hide Failed, Succeeded, Rotation, InBackoff;
      var count := |providers|;
      var start := StartingProvider(roundRobinIndex, 0, count);
      roundRobinIndex := (roundRobinIndex + 1) % U64_SIZE;
      var lastError: Option<nat> := None;
      ghost var whole := Attempt(remote.net, policy, Slots(), remote.State(), start, 0, None);
      for offset := 0 to count
        invariant roundRobinIndex == (old(roundRobinIndex) + 1) % U64_SIZE
        invariant Attempt(remote.net, policy, Slots(), remote.State(), start, offset, lastError) == whole
      {
        var answer := Visit(Rotation(start, offset, count));
        if answer.Some? {
          match answer.value
          case Value(v) => return Success(v);
          case Fault(code) => lastError := Some(code);
        }
      }
      outcome := match lastError case Some(code) => LastError(code) case None => AllProvidersFailed;
    }

    /** Connects exactly when every endpoint parses and the first provider to answer reports the expected chain id. */
    static method Connect(parses: seq<bool>, policy: Policy, chainId: U64, remote: Remote) returns (result: Connected)
      requires parses != []
      modifies remote
      ensures var first := Attempt(remote.net, policy, NewSlots(|parses|), old(remote.State()), 0, 0, None);
              match result
              case Ready(manager) =>
                && (forall ok <- parses :: ok) && first.outcome == Success(chainId)
                && fresh(manager) && manager.Valid() && (forall slot <- manager.providers :: fresh(slot))
                && manager.policy == policy && manager.remote == remote && manager.roundRobinIndex == 1
                && manager.Slots() == first.slots && remote.State() == first.clock
              case NotConnected(InvalidEndpoint) => false in parses && remote.State() == old(remote.State())
              case NotConnected(ChainIdUnavailable(outcome)) =>
                (forall ok <- parses :: ok) && !outcome.Success? && outcome == first.outcome
              case NotConnected(ChainIdMismatch(expected, actual)) =>
                (forall ok <- parses :: ok) && expected == chainId != actual && first.outcome == Success(actual)
    {
      hide Attempt, StartingProvider;
      FirstStart(|parses|);
      for i := 0 to |parses|
        invariant forall j :: 0 <= j < i ==> parses[j]
      {
        if !parses[i] {
          return NotConnected(InvalidEndpoint);
        }
      }
      var manager := new ConnectionManager(|parses|, policy, remote);
      var outcome := manager.AttemptProviders();
      match outcome
      case Success(actual) =>
        result := if actual == chainId then Ready(manager) else NotConnected(ChainIdMismatch(chainId, actual));
      case _ => result := NotConnected(ChainIdUnavailable(outcome));
    }
  }
}
