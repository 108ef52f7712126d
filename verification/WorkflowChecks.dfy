/** What the checkpoints guard: no handler runs for a job that was taken away or a head that moved. */
module WorkflowChecks {
  import opened Common
  import opened Workflow
  import opened WorkflowRuns

  // ---- every handler call was checked ------------------------------------------------------------

  /** The effect just before `i` asked for the head, and the answer was the head under review. */
  predicate HeadChecked(trace: seq<Effect>, i: nat, env: Env, inp: Input) {
    env.head.Some? ==> 1 <= i <= |trace| && trace[i - 1] == AskHead(inp) && env.head.value(i - 1) == inp.headSha
  }

  /** Before that, or just before `i` when no head is asked for, the lease was asked for and active. */
  predicate LeaseChecked(trace: seq<Effect>, i: nat, env: Env, inp: Input) {
    var back := if env.head.Some? then 2 else 1;
    env.lease.Some? ==>
      back <= i <= |trace| && trace[i - back] == AskLease(inp) && env.lease.value(i - back) == LeaseActive
  }

  /** From `from` on, every handler call was preceded by its checks. */
  ghost predicate HandledChecked(trace: seq<Effect>, from: nat, env: Env, inp: Input) {
    forall i | from <= i < |trace| && trace[i].Handle? ::
      HeadChecked(trace, i, env, inp) && LeaseChecked(trace, i, env, inp)
  }

  /** `m'` has done what `m` had, and from there on only checked handler calls. */
  ghost predicate Careful(m: Machine, m': Machine, env: Env, inp: Input) {
    m.trace <= m'.trace && HandledChecked(m'.trace, |m.trace|, env, inp)
  }

  lemma CarefulTransitive(m: Machine, m1: Machine, m2: Machine, env: Env, inp: Input)
    requires Careful(m, m1, env, inp) && Careful(m1, m2, env, inp)
    ensures Careful(m, m2, env, inp)
  {
    forall i | |m.trace| <= i < |m2.trace| && m2.trace[i].Handle?
      ensures HeadChecked(m2.trace, i, env, inp) && LeaseChecked(m2.trace, i, env, inp)
    {
      if i < |m1.trace| {
        assert m1.trace[i] == m2.trace[i];
      }
    }
  }

  lemma HeadQuestion(m: Machine, env: Env, inp: Input)
    ensures var c := CheckHead(m, env, inp);
            && m.trace <= c.machine.trace
            && (forall i | |m.trace| <= i < |c.machine.trace| :: !c.machine.trace[i].Handle?)
            && (c.Done? && c.value.None? ==>
                  && HeadChecked(c.machine.trace, |c.machine.trace|, env, inp)
                  && c.machine.trace == m.trace + if env.head.Some? then [AskHead(inp)] else [])
  {
  }

  /** A checkpoint handles nothing, and lets the step go on only with the answers it needs. */
  lemma CheckpointChecks(m: Machine, env: Env, inp: Input)
    ensures var c := Checkpoint(m, env, inp);
            && m.trace <= c.machine.trace
            && (forall i | |m.trace| <= i < |c.machine.trace| :: !c.machine.trace[i].Handle?)
            && (c.Done? && c.value.None? ==>
                  var end := |c.machine.trace|;
                  HeadChecked(c.machine.trace, end, env, inp) && LeaseChecked(c.machine.trace, end, env, inp))
  {
    if env.lease.None? {
      HeadQuestion(m, env, inp);
    } else if m.left > 0 {
      HeadQuestion(Perform(m, AskLease(inp)), env, inp);
    }
  }

  lemma ConcludeHandlesNothing(m: Machine, id: WorkflowId, result: Result, env: Env, inp: Input)
    ensures Careful(m, Conclude(m, id, result).machine, env, inp)
  {
  }

  lemma ExecuteAfterChecks(m: Machine, env: Env, id: WorkflowId, inp: Input, step: Step, outputs: Outputs)
    requires HeadChecked(m.trace, |m.trace|, env, inp) && LeaseChecked(m.trace, |m.trace|, env, inp)
    ensures Careful(m, Execute(m, env, id, inp, step, outputs).machine, env, inp)
  {
    var trace := Execute(m, env, id, inp, step, outputs).machine.trace;
    assert forall i | |m.trace| <= i < |trace| && trace[i].Handle? :: i == |m.trace|;
  }

  lemma {:induction false} LoopIsCareful(m: Machine, env: Env, id: WorkflowId, inp: Input, k: nat, outputs: Outputs)
    requires k <= |STEPS|
    ensures Careful(m, SimpleFrom(m, env, id, inp, k, outputs).machine, env, inp)
    decreases |STEPS| - k
  {
    if k == |STEPS| {
      ConcludeHandlesNothing(m, id, Result(Completed, None), env, inp);
    } else if STEPS[k] in outputs {
      LoopIsCareful(m, env, id, inp, k + 1, outputs);
    } else {
      CheckpointChecks(m, env, inp);
      var c := Checkpoint(m, env, inp);
      assert Careful(m, c.machine, env, inp);
      match c
      case Died(_) =>
      case Done(m1, Some(result)) =>
        ConcludeHandlesNothing(m1, id, result, env, inp);
        CarefulTransitive(m, m1, Conclude(m1, id, result).machine, env, inp);
      case Done(m1, None) =>
        StepIsCareful(m1, env, id, inp, k, outputs);
        CarefulTransitive(m, m1, StepFrom(m1, env, id, inp, k, outputs).machine, env, inp);
    }
  }

  /** The loop from a checked step on. */
  function StepFrom(m: Machine, env: Env, id: WorkflowId, inp: Input, k: nat, outputs: Outputs): Ran<Result>
    requires k < |STEPS|
  {
    match Execute(m, env, id, inp, STEPS[k], outputs)
    case Died(m) => Died(m)
    case Done(m, output) => SimpleFrom(m, env, id, inp, k + 1, outputs[STEPS[k] := output])
  }

  lemma {:induction false} StepIsCareful(m: Machine, env: Env, id: WorkflowId, inp: Input, k: nat, outputs: Outputs)
    requires k < |STEPS| && HeadChecked(m.trace, |m.trace|, env, inp) && LeaseChecked(m.trace, |m.trace|, env, inp)
    ensures Careful(m, StepFrom(m, env, id, inp, k, outputs).machine, env, inp)
    decreases |STEPS| - k, 0
  {
    ExecuteAfterChecks(m, env, id, inp, STEPS[k], outputs);
    match Execute(m, env, id, inp, STEPS[k], outputs)
    case Died(_) =>
    case Done(m1, output) =>
      LoopIsCareful(m1, env, id, inp, k + 1, outputs[STEPS[k] := output]);
      CarefulTransitive(m, m1, StepFrom(m, env, id, inp, k, outputs).machine, env, inp);
  }

  /** On both engines, whatever the callables answer and whenever the process dies: when a head is given, each
      handler call comes right after a question for it that was answered with the head under review; when a lease
      is given, right after one that was answered active. */
  lemma EveryHandlerIsChecked(graph: bool, m: Machine, env: Env, id: WorkflowId, inp: Input)
    ensures var after := Advance(graph, m, env, id, inp).machine.trace;
            m.trace <= after && HandledChecked(after, |m.trace|, env, inp)
  {
    EnginesAgree(m, env, id, inp);
    if id in m.store.runs && m.store.runs[id].outcome.None? {
      LoopIsCareful(m, env, id, inp, 0, CompletedOutputs(m.store, id));
    }
  }

  // ---- what a refusal does -----------------------------------------------------------------------

  ghost predicate StepLeft(s: Store, id: WorkflowId) {
    exists i | 0 <= i < |STEPS| :: STEPS[i] !in CompletedOutputs(s, id)
  }

  /** What a stopped call adds to the trace: its questions, the event if events are recorded, the outcome. */
  function StopTrace(asked: seq<Effect>, env: Env, id: WorkflowId, inp: Input, result: Result): seq<Effect> {
    asked + (if env.records then [Emit(inp.jobId, Stopped(result))] else []) + [DoOutcome(id, result)]
  }

  /** The call returns the result, stores it, and does nothing but ask, tell and store. */
  ghost predicate StopsWith(graph: bool, m: Machine, env: Env, id: WorkflowId, inp: Input, asked: seq<Effect>,
                            result: Result)
    requires id in m.store.runs
  {
    var r := Advance(graph, m, env, id, inp);
    && r.Done? && r.value == result
    && r.machine.trace == m.trace + StopTrace(asked, env, id, inp, result)
    && r.machine.store == m.store.(runs := m.store.runs[id := m.store.runs[id].(outcome := Some(result))])
  }

  lemma {:induction false} LoopStops(m: Machine, env: Env, id: WorkflowId, inp: Input, k: nat, outputs: Outputs)
    requires k <= |STEPS| && exists i | k <= i < |STEPS| :: STEPS[i] !in outputs
    requires Checkpoint(m, env, inp).Done? && Checkpoint(m, env, inp).value.Some?
    ensures var c := Checkpoint(m, env, inp);
            SimpleFrom(m, env, id, inp, k, outputs) == Conclude(c.machine, id, c.value.value)
    decreases |STEPS| - k
  {
    if STEPS[k] in outputs {
      LoopStops(m, env, id, inp, k + 1, outputs);
    }
  }

  lemma AdvanceStops(graph: bool, m: Machine, env: Env, id: WorkflowId, inp: Input, asked: seq<Effect>, result: Result)
    requires OpenRun(m.store, id) && StepLeft(m.store, id)
    requires var c := Checkpoint(m, env, inp);
             && c.Done? && c.value == Some(result) && c.machine.store == m.store && c.machine.left > 0
             && c.machine.trace == m.trace + asked + (if env.records then [Emit(inp.jobId, Stopped(result))] else [])
    ensures StopsWith(graph, m, env, id, inp, asked, result)
  {
    EnginesAgree(m, env, id, inp);
    LoopStops(m, env, id, inp, 0, CompletedOutputs(m.store, id));
    var c := Checkpoint(m, env, inp).machine;
    assert c.trace + [DoOutcome(id, result)] == m.trace + StopTrace(asked, env, id, inp, result);
  }

  /** A moved head: an open run with a step left, whose lease is active or not asked for, is cancelled as
      superseded. */
  lemma MovedHeadStops(graph: bool, m: Machine, env: Env, id: WorkflowId, inp: Input)
    requires OpenRun(m.store, id) && StepLeft(m.store, id) && m.left >= 4
    requires env.head.Some? && (env.lease.Some? ==> env.lease.value(|m.trace|) == LeaseActive)
    requires env.head.value(|m.trace| + if env.lease.Some? then 1 else 0) != inp.headSha
    ensures StopsWith(graph, m, env, id, inp, (if env.lease.Some? then [AskLease(inp)] else []) + [AskHead(inp)],
                      Result(Cancelled, Some("superseded")))
  {
    var asked := (if env.lease.Some? then [AskLease(inp)] else []) + [AskHead(inp)];
    HeadAnswer(m, env, inp, asked, Result(Cancelled, Some("superseded")));
    AdvanceStops(graph, m, env, id, inp, asked, Result(Cancelled, Some("superseded")));
  }

  lemma HeadAnswer(m: Machine, env: Env, inp: Input, asked: seq<Effect>, result: Result)
    requires m.left >= 4 && env.head.Some? && (env.lease.Some? ==> env.lease.value(|m.trace|) == LeaseActive)
    requires env.head.value(|m.trace| + if env.lease.Some? then 1 else 0) != inp.headSha
    requires asked == (if env.lease.Some? then [AskLease(inp)] else []) + [AskHead(inp)]
    requires result == Result(Cancelled, Some("superseded"))
    ensures var c := Checkpoint(m, env, inp);
            && c.Done? && c.value == Some(result) && c.machine.store == m.store && c.machine.left > 0
            && c.machine.trace == m.trace + asked + (if env.records then [Emit(inp.jobId, Stopped(result))] else [])
  {
  }

  /** A job cancelled by its owner: the run is cancelled, and the head is not even asked for. */
  lemma CancelledLeaseStops(graph: bool, m: Machine, env: Env, id: WorkflowId, inp: Input)
    requires OpenRun(m.store, id) && StepLeft(m.store, id) && m.left >= 3
    requires env.lease.Some? && env.lease.value(|m.trace|) == LeaseCancelled
    ensures StopsWith(graph, m, env, id, inp, [AskLease(inp)], Result(Cancelled, Some("cancelled")))
  {
    LeaseAnswer(m, env, inp, Result(Cancelled, Some("cancelled")));
    AdvanceStops(graph, m, env, id, inp, [AskLease(inp)], Result(Cancelled, Some("cancelled")));
  }

  /** A lease that is gone: the run has failed. */
  lemma LostLeaseStops(graph: bool, m: Machine, env: Env, id: WorkflowId, inp: Input)
    requires OpenRun(m.store, id) && StepLeft(m.store, id) && m.left >= 3
    requires env.lease.Some? && env.lease.value(|m.trace|) == LeaseInvalid
    ensures StopsWith(graph, m, env, id, inp, [AskLease(inp)], Result(Failed, Some("invalid_or_expired")))
  {
    LeaseAnswer(m, env, inp, Result(Failed, Some("invalid_or_expired")));
    AdvanceStops(graph, m, env, id, inp, [AskLease(inp)], Result(Failed, Some("invalid_or_expired")));
  }

  lemma LeaseAnswer(m: Machine, env: Env, inp: Input, result: Result)
    requires m.left >= 3 && env.lease.Some?
    requires result == match env.lease.value(|m.trace|) {
                         case LeaseCancelled => Result(Cancelled, Some("cancelled"))
                         case _ => Result(Failed, Some("invalid_or_expired"))
                       }
    requires env.lease.value(|m.trace|) != LeaseActive
    ensures var c := Checkpoint(m, env, inp);
            && c.Done? && c.value == Some(result) && c.machine.store == m.store && c.machine.left > 0
            && c.machine.trace ==
                 m.trace + [AskLease(inp)] + (if env.records then [Emit(inp.jobId, Stopped(result))] else [])
  {
  }

  // ---- what an executed step leaves behind -------------------------------------------------------

  /** The handler call at `i` is followed by the recording of its output under its step, and then by the event if
      events are recorded, unless the process dies first. */
  predicate Recorded(trace: seq<Effect>, i: nat, env: Env, id: WorkflowId, inp: Input)
    requires i < |trace| && trace[i].Handle?
  {
    var call := trace[i];
    var output := env.handler(i, call.step, inp, call.outputs);
    && (i + 1 < |trace| ==> trace[i + 1] == DoMark(id, call.step, output))
    && (env.records && i + 2 < |trace| ==> trace[i + 2] == Emit(inp.jobId, StepCompleted(call.step)))
  }

  /** The same from `from` on, and every call is for this run's input. */
  ghost predicate AllRecorded(trace: seq<Effect>, from: nat, env: Env, id: WorkflowId, inp: Input) {
    forall i | from <= i < |trace| && trace[i].Handle? :: trace[i].input == inp && Recorded(trace, i, env, id, inp)
  }

  /** From `m` to `m'` nothing is lost, nothing unrecorded added, and a machine that lives on ends after a finished
      recording. */
  ghost predicate Tidy(m: Machine, m': Machine, env: Env, id: WorkflowId, inp: Input) {
    m.trace <= m'.trace && AllRecorded(m'.trace, |m.trace|, env, id, inp)
  }

  /** The last handler call is far enough back to be fully recorded. */
  ghost predicate Settled(m: Machine, from: nat, env: Env) {
    forall i | from <= i < |m.trace| && m.trace[i].Handle? :: i + (if env.records then 2 else 1) < |m.trace|
  }

  lemma TidyTransitive(m: Machine, m1: Machine, m2: Machine, env: Env, id: WorkflowId, inp: Input)
    requires Tidy(m, m1, env, id, inp) && Settled(m1, |m.trace|, env) && Tidy(m1, m2, env, id, inp)
    ensures Tidy(m, m2, env, id, inp)
    ensures Settled(m2, |m1.trace|, env) ==> Settled(m2, |m.trace|, env)
  {
    forall i | |m.trace| <= i < |m2.trace| && m2.trace[i].Handle?
      ensures m2.trace[i].input == inp && Recorded(m2.trace, i, env, id, inp)
    {
      if i < |m1.trace| {
        assert m1.trace[i] == m2.trace[i] && m1.trace[i + 1] == m2.trace[i + 1];
        assert Recorded(m1.trace, i, env, id, inp);
        if env.records {
          assert m1.trace[i + 2] == m2.trace[i + 2];
        }
      }
    }
    if Settled(m2, |m1.trace|, env) {
      forall i | |m.trace| <= i < |m2.trace| && m2.trace[i].Handle?
        ensures i + (if env.records then 2 else 1) < |m2.trace|
      {
        if i < |m1.trace| {
          assert m1.trace[i] == m2.trace[i];
        }
      }
    }
  }

  lemma QuietIsTidy(m: Machine, m': Machine, env: Env, id: WorkflowId, inp: Input)
    requires m.trace <= m'.trace && forall i | |m.trace| <= i < |m'.trace| :: !m'.trace[i].Handle?
    ensures Tidy(m, m', env, id, inp) && Settled(m', |m.trace|, env)
  {
  }

  lemma ExecuteRecords(m: Machine, env: Env, id: WorkflowId, inp: Input, step: Step, outputs: Outputs)
    ensures var e := Execute(m, env, id, inp, step, outputs);
            Tidy(m, e.machine, env, id, inp) && (e.Done? ==> Settled(e.machine, |m.trace|, env))
  {
    var e := Execute(m, env, id, inp, step, outputs);
    assert forall i | |m.trace| <= i < |e.machine.trace| && e.machine.trace[i].Handle? :: i == |m.trace|;
  }

  lemma {:induction false} LoopRecords(m: Machine, env: Env, id: WorkflowId, inp: Input, k: nat, outputs: Outputs)
    requires k <= |STEPS|
    ensures Tidy(m, SimpleFrom(m, env, id, inp, k, outputs).machine, env, id, inp)
    decreases |STEPS| - k
  {
    if k == |STEPS| {
      QuietIsTidy(m, Conclude(m, id, Result(Completed, None)).machine, env, id, inp);
    } else if STEPS[k] in outputs {
      LoopRecords(m, env, id, inp, k + 1, outputs);
    } else {
      CheckpointChecks(m, env, inp);
      var c := Checkpoint(m, env, inp);
      QuietIsTidy(m, c.machine, env, id, inp);
      match c
      case Died(_) =>
      case Done(m1, Some(result)) =>
        QuietIsTidy(m1, Conclude(m1, id, result).machine, env, id, inp);
        TidyTransitive(m, m1, Conclude(m1, id, result).machine, env, id, inp);
      case Done(m1, None) =>
        StepRecords(m1, env, id, inp, k, outputs);
        TidyTransitive(m, m1, StepFrom(m1, env, id, inp, k, outputs).machine, env, id, inp);
    }
  }

  lemma {:induction false} StepRecords(m: Machine, env: Env, id: WorkflowId, inp: Input, k: nat, outputs: Outputs)
    requires k < |STEPS|
    ensures Tidy(m, StepFrom(m, env, id, inp, k, outputs).machine, env, id, inp)
    decreases |STEPS| - k, 0
  {
    ExecuteRecords(m, env, id, inp, STEPS[k], outputs);
    match Execute(m, env, id, inp, STEPS[k], outputs)
    case Died(_) =>
    case Done(m1, output) =>
      LoopRecords(m1, env, id, inp, k + 1, outputs[STEPS[k] := output]);
      TidyTransitive(m, m1, StepFrom(m, env, id, inp, k, outputs).machine, env, id, inp);
  }

  /** On both engines each handler call is followed by the recording of its output and then its event. */
  lemma EveryHandlerIsRecorded(graph: bool, m: Machine, env: Env, id: WorkflowId, inp: Input)
    ensures var after := Advance(graph, m, env, id, inp).machine.trace;
            m.trace <= after && AllRecorded(after, |m.trace|, env, id, inp)
  {
    EnginesAgree(m, env, id, inp);
    if id in m.store.runs && m.store.runs[id].outcome.None? {
      LoopRecords(m, env, id, inp, 0, CompletedOutputs(m.store, id));
    }
  }
}
