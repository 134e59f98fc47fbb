/** A circuit breaker. The protected call runs outside the lock, so a call is two steps, its begin
    and its finish, and the steps of different calls interleave. */
module CircuitBreakers {

  datatype State = Closed | Open | HalfOpen

  datatype Breaker = Breaker(state: State, failures: nat, lastFailure: int)

  datatype Config = Config(threshold: int, resetTimeout: int)

  const FRESH := Breaker(Closed, 0, 0)

  // ---- The two steps ----

  class CircuitBreaker {
    const config: Config
    var state: State
    var failures: nat
    var lastFailure: int

    ghost function Value(): Breaker
      reads this
    {
      Breaker(state, failures, lastFailure)
    }

    constructor (config: Config)
      ensures Value() == FRESH && this.config == config
    {
      this.config := config;
      state, failures, lastFailure := Closed, 0, 0;
    }

    // Whether the call may go ahead.
    method Begin(now: int) returns (admitted: bool)
      modifies this`state
      ensures admitted <==> Admits(config, old(Value()), now)
      ensures Value() == Begun(config, old(Value()), now)
    {
      if state == Open {
        if now - lastFailure > config.resetTimeout {
          state := HalfOpen;
        } else {
          return false;
        }
      }
      return true;
    }

    method Finish(failed: bool, now: int)
      modifies this
      ensures Value() == Finished(config, old(Value()), failed, now)
    {
      if failed {
        failures := failures + 1;
        lastFailure := now;
        if failures >= config.threshold {
          state := Open;
        }
        return;
      }
      failures := 0;
      if state == HalfOpen {
        state := Closed;
      }
    }
  }

  predicate Admits(c: Config, b: Breaker, now: int) {
    b.state != Open || now - b.lastFailure > c.resetTimeout
  }

  function Begun(c: Config, b: Breaker, now: int): Breaker {
    if b.state == Open && Admits(c, b, now) then b.(state := HalfOpen) else b
  }

  function Finished(c: Config, b: Breaker, failed: bool, now: int): Breaker {
    if failed then Breaker(if b.failures + 1 >= c.threshold then Open else b.state, b.failures + 1, now)
    else b.(failures := 0, state := if b.state == HalfOpen then Closed else b.state)
  }

  // ---- Runs ----

  datatype Step = BeginAt(now: int) | FinishAt(failed: bool, now: int)

  // A new breaker after these steps, and the number of admitted calls that have not finished.
  function After(c: Config, steps: seq<Step>): (Breaker, int) {
    if steps == [] then (FRESH, 0)
    else
      var (b, n) := After(c, steps[..|steps| - 1]);
      match steps[|steps| - 1]
      case BeginAt(now) => (Begun(c, b, now), if Admits(c, b, now) then n + 1 else n)
      case FinishAt(failed, now) => (Finished(c, b, failed, now), n - 1)
  }

  // Only calls that were admitted finish.
  ghost predicate Legal(c: Config, steps: seq<Step>) {
    forall i :: 0 <= i < |steps| && steps[i].FinishAt? ==> After(c, steps[..i]).1 > 0
  }

  // No call begins before the one before has finished.
  ghost predicate Sequential(c: Config, steps: seq<Step>) {
    forall i :: 0 <= i < |steps| && steps[i].BeginAt? ==> After(c, steps[..i]).1 == 0
  }

  // The failures since the last success.
  function TrailingFailures(steps: seq<Step>): nat {
    if steps == [] then 0
    else
      var before, last := TrailingFailures(steps[..|steps| - 1]), steps[|steps| - 1];
      if last.BeginAt? then before else if last.failed then before + 1 else 0
  }

  /** However calls interleave, the counter is the number of failures since the last success, and a
      closed circuit has seen fewer of them than the threshold. */
  lemma {:induction false} CountsConsecutiveFailures(c: Config, steps: seq<Step>)
    ensures var b := After(c, steps).0;
            b.failures == TrailingFailures(steps)
                && (c.threshold >= 1 && b.state == Closed ==> b.failures < c.threshold)
  {
    if steps != [] {
      CountsConsecutiveFailures(c, steps[..|steps| - 1]);
    }
  }

  // ---- One caller at a time ----

  lemma LegalPrefix(c: Config, steps: seq<Step>)
    requires steps != [] && Legal(c, steps) && Sequential(c, steps)
    ensures var before := steps[..|steps| - 1]; Legal(c, before) && Sequential(c, before)
  {
    var before := steps[..|steps| - 1];
    assert forall i :: 0 <= i < |before| ==> before[i] == steps[i] && before[..i] == steps[..i];
  }

  lemma {:induction false} SequentialState(c: Config, steps: seq<Step>)
    requires c.threshold >= 1 && Legal(c, steps) && Sequential(c, steps)
    ensures var (b, n) := After(c, steps);
            && 0 <= n <= 1
            && (b.state == Closed <==> b.failures < c.threshold)
            && (b.state == HalfOpen ==> n == 1) && (b.state == Open ==> n == 0)
  {
    if steps != [] {
      var before := steps[..|steps| - 1];
      LegalPrefix(c, steps);
      SequentialState(c, before);
      assert steps[..|steps| - 1] == before;
    }
  }

  /** Used by one caller at a time, the circuit is open between calls exactly when the last
      `threshold` calls all failed, and a new call is turned away exactly when it is and the timeout
      since the last failure is not over. */
  lemma SequentialIff(c: Config, steps: seq<Step>, now: int)
    requires c.threshold >= 1 && Legal(c, steps) && Sequential(c, steps)
    requires After(c, steps).1 == 0
    ensures var b := After(c, steps).0;
            && (b.state == Open <==> TrailingFailures(steps) >= c.threshold)
            && (!Admits(c, b, now) <==> TrailingFailures(steps) >= c.threshold && now - b.lastFailure <= c.resetTimeout)
  {
    SequentialState(c, steps);
    CountsConsecutiveFailures(c, steps);
    hide After;
  }

  // ---- Probes ----

  // The calls let through since the circuit became half-open; 0 when it is not.
  function Probes(c: Config, steps: seq<Step>): nat {
    if steps == [] || After(c, steps).0.state != HalfOpen then 0
    else
      var before := steps[..|steps| - 1];
      Probes(c, before) + if steps[|steps| - 1].BeginAt? then 1 else 0
  }

  // At no point has a half-open circuit let more than one call through.
  ghost predicate OneProbe(c: Config, steps: seq<Step>) {
    forall k :: 0 <= k <= |steps| ==> Probes(c, steps[..k]) <= 1
  }

  ghost predicate NoBeginHalfOpen(c: Config, steps: seq<Step>) {
    forall i :: 0 <= i < |steps| && steps[i].BeginAt? ==> After(c, steps[..i]).0.state != HalfOpen
  }

  // A circuit becomes half-open by letting a call through.
  lemma {:induction false} HalfOpenHasProbe(c: Config, steps: seq<Step>)
    ensures After(c, steps).0.state == HalfOpen ==> Probes(c, steps) >= 1
  {
    if steps != [] {
      HalfOpenHasProbe(c, steps[..|steps| - 1]);
    }
  }

  lemma {:induction false} ProbesStayOne(c: Config, steps: seq<Step>, k: nat)
    requires NoBeginHalfOpen(c, steps) && k <= |steps|
    ensures Probes(c, steps[..k]) <= 1
  {
    if k > 0 {
      ProbesStayOne(c, steps, k - 1);
      assert steps[..k][..k - 1] == steps[..k - 1];
      assert After(c, steps[..k - 1]).0.state != HalfOpen ==> Probes(c, steps[..k - 1]) == 0;
    }
  }

  /** A half-open circuit lets one probe through and no more if and only if no call begins while it
      is half-open. */
  lemma OneProbeIff(c: Config, steps: seq<Step>)
    ensures OneProbe(c, steps) <==> NoBeginHalfOpen(c, steps)
  {
    if NoBeginHalfOpen(c, steps) {
      forall k | 0 <= k <= |steps|
        ensures Probes(c, steps[..k]) <= 1
      {
        ProbesStayOne(c, steps, k);
      }
    } else {
      var i :| 0 <= i < |steps| && steps[i].BeginAt? && After(c, steps[..i]).0.state == HalfOpen;
      HalfOpenHasProbe(c, steps[..i]);
      assert steps[..i + 1][..i] == steps[..i];
      assert Probes(c, steps[..i + 1]) >= 2;
    }
  }

  /** One caller at a time is enough for that, and then a probe that fails opens the circuit again. */
  lemma SequentialProbes(c: Config, steps: seq<Step>, now: int)
    requires c.threshold >= 1 && Legal(c, steps) && Sequential(c, steps)
    ensures OneProbe(c, steps)
    ensures var b := After(c, steps).0; b.state == HalfOpen ==> Finished(c, b, true, now).state == Open
  {
    forall i | 0 <= i < |steps| && steps[i].BeginAt?
      ensures After(c, steps[..i]).0.state != HalfOpen
    {
      SequentialUpTo(c, steps, i);
      SequentialState(c, steps[..i]);
    }
    OneProbeIff(c, steps);
    SequentialState(c, steps);
    hide After;
  }

  lemma SequentialUpTo(c: Config, steps: seq<Step>, i: nat)
    requires i <= |steps| && Legal(c, steps) && Sequential(c, steps)
    ensures Legal(c, steps[..i]) && Sequential(c, steps[..i])
  {
    hide After;
    assert forall k :: 0 <= k < i ==> steps[..i][..k] == steps[..k];
  }

  /** In every interleaving a probe that fails opens the circuit again if and only if the failures
      since the last success, with this one, reach the threshold. */
  lemma FailedProbeReopensIff(c: Config, steps: seq<Step>, now: int)
    requires After(c, steps).0.state == HalfOpen
    ensures Finished(c, After(c, steps).0, true, now).state == Open <==> TrailingFailures(steps) + 1 >= c.threshold
  {
    CountsConsecutiveFailures(c, steps);
    hide After;
  }

  // ---- Runs that break the promises ----

  // k calls at time 0 that fail one after the other.
  function Failing(before: seq<Step>, k: nat): seq<Step> {
    if k == 0 then before else Failing(before, k - 1) + [BeginAt(0)] + [FinishAt(true, 0)]
  }

  lemma OneMore(c: Config, steps: seq<Step>, x: Step)
    requires Legal(c, steps) && (x.FinishAt? ==> After(c, steps).1 > 0)
    ensures Legal(c, steps + [x])
    ensures var (b, n) := After(c, steps);
            After(c, steps + [x]) ==
            match x
            case BeginAt(now) => (Begun(c, b, now), if Admits(c, b, now) then n + 1 else n)
            case FinishAt(failed, now) => (Finished(c, b, failed, now), n - 1)
  {
    assert (steps + [x])[..|steps|] == steps;
    assert forall i :: 0 <= i < |steps| ==> (steps + [x])[..i] == steps[..i];
    hide Begun, Finished, Admits;
  }

  lemma {:induction false} FailingOpens(c: Config, before: seq<Step>, n: nat, k: nat)
    requires Legal(c, before) && After(c, before) == (FRESH, n) && k <= c.threshold
    ensures Legal(c, Failing(before, k))
    ensures After(c, Failing(before, k)) == (Breaker(if k >= 1 && k == c.threshold then Open else Closed, k, 0), n)
  {
    hide After, Legal;
    if k > 0 {
      FailingOpens(c, before, n, k - 1);
      OneMore(c, Failing(before, k - 1), BeginAt(0));
      OneMore(c, Failing(before, k - 1) + [BeginAt(0)], FinishAt(true, 0));
    }
  }

  // A moment at which the timeout since time 0 is over.
  function Later(c: Config): int {
    if c.resetTimeout < 0 then 0 else c.resetTimeout + 1
  }

  // n calls that begin at the given time.
  function Beginning(before: seq<Step>, now: int, n: nat): seq<Step> {
    if n == 0 then before else Beginning(before, now, n - 1) + [BeginAt(now)]
  }

  /** Overlapping callers are not held to one probe: for every threshold and number n there is a run
      of a new breaker in which n calls are let through in one half-open period, all in flight. */
  lemma ManyProbes(c: Config, n: nat) returns (steps: seq<Step>)
    requires c.threshold >= 1 && n >= 1
    ensures Legal(c, steps) && After(c, steps).1 == Probes(c, steps) == n && After(c, steps).0.state == HalfOpen
  {
    var start: seq<Step> := Failing([], c.threshold);
    FailingOpens(c, [], 0, c.threshold);
    BeginningProbes(c, start, n);
    steps := Beginning(start, Later(c), n);
    hide After, Legal, Probes;
  }

  lemma {:induction false} BeginningProbes(c: Config, start: seq<Step>, n: nat)
    requires c.threshold >= 0 && Legal(c, start) && After(c, start) == (Breaker(Open, c.threshold, 0), 0) && n >= 1
    ensures var steps := Beginning(start, Later(c), n);
            && Legal(c, steps) && After(c, steps) == (Breaker(HalfOpen, c.threshold, 0), n)
            && Probes(c, steps) == n
  {
    hide After, Legal;
    var now := Later(c);
    var before := Beginning(start, now, n - 1);
    if n > 1 {
      BeginningProbes(c, start, n - 1);
    }
    OneMore(c, before, BeginAt(now));
    assert (before + [BeginAt(now)])[..|before|] == before;
  }

  /** A success that arrives while the circuit is already open clears the counter without closing the
      circuit: for every threshold above one there is a run of a new breaker in which the next probe
      then fails and the circuit is not tripped again. */
  lemma LateSuccess(c: Config) returns (steps: seq<Step>, now: int)
    requires c.threshold >= 2
    ensures Legal(c, steps) && After(c, steps) == (Breaker(HalfOpen, 0, 0), 1)
    ensures Finished(c, After(c, steps).0, true, now) == Breaker(HalfOpen, 1, now)
  {
    now := Later(c);
    OneMore(c, [], BeginAt(0));
    assert [] + [BeginAt(0)] == [BeginAt(0)];
    FailingOpens(c, [BeginAt(0)], 1, c.threshold);
    var tripped := Failing([BeginAt(0)], c.threshold);
    OneMore(c, tripped, FinishAt(false, 0));
    OneMore(c, tripped + [FinishAt(false, 0)], BeginAt(now));
    steps := tripped + [FinishAt(false, 0)] + [BeginAt(now)];
    hide After, Legal, Failing;
  }
}
