/** A saga: steps run in order, and when one fails the completed ones are compensated in reverse.
    `S` is everything the steps can change. */
module Sagas {
  import opened Collections

  // What a step leaves behind, and its error if it has one.
  datatype Attempt<S> = Attempt(state: S, error: Option<string>)

  datatype StepHandler<!S> = StepHandler(name: string, execute: S -> Attempt<S>, compensate: S -> Attempt<S>)

  datatype SagaStep = SagaStep(name: string, success: bool, error: string)

  // The calls made to the steps, by step number.
  datatype Call = Executed(step: nat) | Compensated(step: nat)

  datatype SagaRun<S> = SagaRun(state: S, steps: seq<SagaStep>, failedAt: Option<string>, calls: seq<Call>)

  // ---- What a run does ----

  // The state after the first n steps.
  function Forward<S>(steps: seq<StepHandler<S>>, s: S, n: nat): S
    requires n <= |steps|
  {
    if n == 0 then s else steps[n - 1].execute(Forward(steps, s, n - 1)).state
  }

  // The state after compensating steps n - 1 down to 0.
  function Backward<S>(steps: seq<StepHandler<S>>, s: S, n: nat): S
    requires n <= |steps|
  {
    if n == 0 then s else Backward(steps, steps[n - 1].compensate(s).state, n - 1)
  }

  function ErrorAt<S>(steps: seq<StepHandler<S>>, s: S, i: nat): Option<string>
    requires i < |steps|
  {
    steps[i].execute(Forward(steps, s, i)).error
  }

  ghost predicate SucceedsUpTo<S>(steps: seq<StepHandler<S>>, s: S, n: nat)
    requires n <= |steps|
  {
    forall i :: 0 <= i < n ==> ErrorAt(steps, s, i).None?
  }

  function Successes<S>(steps: seq<StepHandler<S>>, n: nat): seq<SagaStep>
    requires n <= |steps|
  {
    seq(n, i requires 0 <= i < n => SagaStep(steps[i].name, true, ""))
  }

  function Executions(n: nat): seq<Call> {
    seq(n, i requires 0 <= i < n => Executed(i))
  }

  // n - 1 down to 0.
  function Compensations(n: nat): seq<Call> {
    seq(n, i requires 0 <= i < n => Compensated(n - 1 - i))
  }

  /** The records in plain terms. When the first k steps succeed and step k does not, the calls are steps 0
      to k and then the compensations of steps k - 1 to 0; the log has the k successes by name. */
  lemma RecordReads<S>(steps: seq<StepHandler<S>>, s: S, k: nat)
    requires k <= |steps| && SucceedsUpTo(steps, s, k)
    ensures forall i :: 0 <= i < k ==> ErrorAt(steps, s, i).None?
    ensures |Successes(steps, k)| == k
    ensures forall i :: 0 <= i < k ==> Successes(steps, k)[i] == SagaStep(steps[i].name, true, "")
    ensures var calls := Executions(k + 1) + Compensations(k);
            && |calls| == 2 * k + 1
            && (forall i :: 0 <= i <= k ==> calls[i] == Executed(i))
            && (forall i :: 0 <= i < k ==> calls[2 * k - i] == Compensated(i))
  {
  }

  /** If each compensation undoes its step, and a step that fails changes nothing, then a failed
      saga leaves everything as it was. */
  lemma {:induction false} UndoneRestores<S>(steps: seq<StepHandler<S>>, s: S, i: nat)
    requires i < |steps| && SucceedsUpTo(steps, s, i) && ErrorAt(steps, s, i).Some?
    requires AllUndo(steps, s, i)
    requires steps[i].execute(Forward(steps, s, i)).state == Forward(steps, s, i)
    ensures Backward(steps, Forward(steps, s, i + 1), i) == s
  {
    BackToStart(steps, s, i);
  }

  predicate Undoes<S(==)>(step: StepHandler<S>, s: S) {
    step.compensate(step.execute(s).state).state == s
  }

  // All steps below n undo themselves where they are reached.
  ghost predicate AllUndo<S>(steps: seq<StepHandler<S>>, s: S, n: nat)
    requires n <= |steps|
  {
    n == 0 || (AllUndo(steps, s, n - 1) && Undoes(steps[n - 1], Forward(steps, s, n - 1)))
  }

  lemma {:induction false} BackToStart<S>(steps: seq<StepHandler<S>>, s: S, n: nat)
    requires n <= |steps| && AllUndo(steps, s, n)
    ensures Backward(steps, Forward(steps, s, n), n) == s
  {
    if n > 0 {
      BackToStart(steps, s, n - 1);
    }
  }

  // ---- The orchestrator ----

  class SagaOrchestrator<S> {
    const steps: seq<StepHandler<S>>

    constructor (steps: seq<StepHandler<S>>)
      ensures this.steps == steps
    {
      this.steps := steps;
    }

    // Either every step succeeds, or the first one that fails is recorded and exactly the steps
    // before it are compensated, last first, whether or not compensations fail themselves.
    method Execute(start: S) returns (run: SagaRun<S>, error: Option<string>)
      ensures error.None? ==>
                && SucceedsUpTo(steps, start, |steps|)
                && run == SagaRun(Forward(steps, start, |steps|), Successes(steps, |steps|), None, Executions(|steps|))
      ensures error.Some? ==>
                exists i ::
                  && 0 <= i < |steps| && SucceedsUpTo(steps, start, i) && ErrorAt(steps, start, i) == error
                  && run == SagaRun(
                              Backward(steps, Forward(steps, start, i + 1), i),
                              Successes(steps, i) + [SagaStep(steps[i].name, false, error.value)],
                              Some(steps[i].name),
                              Executions(i + 1) + Compensations(i))
    {
      var s, log, calls, completed := start, [], [], 0;
      for i := 0 to |steps|
        invariant completed == i && s == Forward(steps, start, i) && SucceedsUpTo(steps, start, i)
        invariant log == Successes(steps, i) && calls == Executions(i)
      {
        var a := steps[i].execute(s);
        s, calls := a.state, calls + [Executed(i)];
        assert calls == Executions(i + 1);
        if a.error.Some? {
          log := log + [SagaStep(steps[i].name, false, a.error.value)];
          ghost var before := s;
          var s', comps := Compensate(completed, s);
          run := SagaRun(s', log, Some(steps[i].name), calls + comps);
          return run, a.error;
        }
        log := log + [SagaStep(steps[i].name, true, "")];
        completed := completed + 1;
      }
      return SagaRun(s, log, None, calls), None;
    }

    method Compensate(completed: nat, s: S) returns (s': S, calls: seq<Call>)
      requires completed <= |steps|
      ensures s' == Backward(steps, s, completed) && calls == Compensations(completed)
    {
      s', calls := s, [];
      var i := completed;
      while i > 0
        invariant 0 <= i <= completed
        invariant Backward(steps, s', i) == Backward(steps, s, completed)
        invariant calls == Compensations(completed)[..completed - i]
      {
        i := i - 1;
        // An error is logged and compensation goes on.
        s' := steps[i].compensate(s').state;
        calls := calls + [Compensated(i)];
      }
    }
  }
}
