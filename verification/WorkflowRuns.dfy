/** What every history of runs, resumes and crashes keeps, for both engines. */
module WorkflowRuns {
  import opened Common
  import opened Workflow

  // ---- uninterrupted outputs --------------------------------------------------------------------

  /** The part of the input that stays the same when a job is claimed again with a new lease. */
  datatype Core = Core(jobId: string, headSha: string, traceId: string)

  function CoreOf(i: Input): Core { Core(i.jobId, i.headSha, i.traceId) }

  type Pure = (Step, Core, Outputs) -> Output

  /** The outputs of the first `k` steps, each computed from the ones before. */
  function Ideal(h: Pure, core: Core, k: nat): Outputs
    requires k <= |STEPS|
  {
    if k == 0 then map[]
    else Ideal(h, core, k - 1)[STEPS[k - 1] := h(STEPS[k - 1], core, Ideal(h, core, k - 1))]
  }

  ghost predicate FirstSteps(outputs: Outputs, k: nat) {
    k <= |STEPS| && forall i | 0 <= i < |STEPS| :: STEPS[i] in outputs <==> i < k
  }

  lemma StepsAreDistinct(i: nat, j: nat)
    requires i < |STEPS| && j < |STEPS| && STEPS[i] == STEPS[j]
    ensures i == j
  {
  }

  lemma EveryStepListed(step: Step)
    ensures exists i | 0 <= i < |STEPS| :: STEPS[i] == step
  {
    match step
    case Fetch => assert STEPS[0] == step;
    case BaselineReview => assert STEPS[1] == step;
    case Retrieval => assert STEPS[2] == step;
    case Verification => assert STEPS[3] == step;
    case Routing => assert STEPS[4] == step;
    case Storage => assert STEPS[5] == step;
  }

  lemma FirstStepsExtend(outputs: Outputs, k: nat, output: Output)
    requires FirstSteps(outputs, k) && k < |STEPS|
    ensures FirstSteps(outputs[STEPS[k] := output], k + 1) && STEPS[k] !in outputs
  {
    forall i | 0 <= i < |STEPS|
      ensures STEPS[i] in outputs[STEPS[k] := output] <==> i < k + 1
    {
      if STEPS[i] == STEPS[k] {
        StepsAreDistinct(i, k);
      }
    }
  }

  lemma {:induction false} IdealSteps(h: Pure, core: Core, k: nat)
    requires k <= |STEPS|
    ensures FirstSteps(Ideal(h, core, k), k)
  {
    if k > 0 {
      IdealSteps(h, core, k - 1);
      FirstStepsExtend(Ideal(h, core, k - 1), k - 1, h(STEPS[k - 1], core, Ideal(h, core, k - 1)));
    }
  }

  // ---- one call ---------------------------------------------------------------------------------

  /** The first `k` steps are done, and, if handlers are deterministic, with the uninterrupted outputs. */
  ghost predicate Stage(outputs: Outputs, k: nat, h: Option<Pure>, core: Core) {
    FirstSteps(outputs, k) && (h.Some? ==> outputs == Ideal(h.value, core, k))
  }

  ghost predicate Follows(env: Env, h: Option<Pure>, inp: Input) {
    h.Some? ==> forall t: nat, step, outputs ::
      env.handler(t, step, inp, outputs) == h.value(step, CoreOf(inp), outputs)
  }

  /** Only the row and the steps of `id` may differ, its input never does, and no output is lost. */
  ghost predicate Touches(s: Store, s': Store, id: WorkflowId) {
    && s'.runs.Keys == s.runs.Keys && id in s.runs
    && s'.runs[id].input == s.runs[id].input
    && (forall other | other in s.runs && other != id :: s'.runs[other] == s.runs[other])
    && (forall other | other != id :: CompletedOutputs(s', other) == CompletedOutputs(s, other))
    && (forall step | step in CompletedOutputs(s, id) ::
          step in CompletedOutputs(s', id) && CompletedOutputs(s', id)[step] == CompletedOutputs(s, id)[step])
  }

  ghost predicate OpenRun(s: Store, id: WorkflowId) { id in s.runs && s.runs[id].outcome.None? }

  lemma CheckpointKeepsStore(m: Machine, env: Env, inp: Input)
    ensures Checkpoint(m, env, inp).machine.store == m.store
    ensures Checkpoint(m, env, inp).Done? && Checkpoint(m, env, inp).value.Some? ==>
              Checkpoint(m, env, inp).value.value.status != Completed
  {
  }

  /** A handler call records its output under its step, or dies before it is recorded. */
  lemma ExecuteStore(m: Machine, env: Env, id: WorkflowId, inp: Input, step: Step, outputs: Outputs)
    requires step !in CompletedOutputs(m.store, id)
    ensures var r := Execute(m, env, id, inp, step, outputs);
            var output := env.handler(|m.trace|, step, inp, outputs);
            var more := CompletedOutputs(m.store, id)[step := output];
            var marked := m.store.(steps := m.store.steps[id := more]);
            && (r.machine.store == m.store || r.machine.store == marked)
            && (r.Done? ==> r.value == output && r.machine.store == marked)
  {
  }

  lemma StageExtends(outputs: Outputs, k: nat, h: Option<Pure>, inp: Input, env: Env, t: nat)
    requires k < |STEPS| && Stage(outputs, k, h, CoreOf(inp)) && Follows(env, h, inp)
    ensures Stage(outputs[STEPS[k] := env.handler(t, STEPS[k], inp, outputs)], k + 1, h, CoreOf(inp))
    ensures STEPS[k] !in outputs
  {
    FirstStepsExtend(outputs, k, env.handler(t, STEPS[k], inp, outputs));
  }

  /** Some first steps are done, and all of them when the outcome says completed. */
  ghost predicate Progress(s: Store, id: WorkflowId, j: nat, h: Option<Pure>, core: Core)
    requires id in s.runs
  {
    && Stage(CompletedOutputs(s, id), j, h, core)
    && (s.runs[id].outcome.Some? && s.runs[id].outcome.value.status == Completed ==> j == |STEPS|)
  }

  ghost predicate Left(s: Store, s': Store, id: WorkflowId, k: nat, h: Option<Pure>, core: Core) {
    && Touches(s, s', id)
    && exists j | k <= j <= |STEPS| :: Progress(s', id, j, h, core)
  }

  lemma LeftTransitive(s: Store, s1: Store, s2: Store, id: WorkflowId, k: nat, k1: nat, h: Option<Pure>, core: Core)
    requires Touches(s, s1, id) && Left(s1, s2, id, k1, h, core) && k <= k1
    ensures Left(s, s2, id, k, h, core)
  {
  }

  lemma LeftAtOnce(s: Store, s': Store, id: WorkflowId, k: nat, h: Option<Pure>, core: Core)
    requires Touches(s, s', id) && k <= |STEPS| && Progress(s', id, k, h, core)
    ensures Left(s, s', id, k, h, core)
  {
  }

  /** Storing an outcome loses nothing; only a finished workflow is stored as completed. */
  lemma ConcludeLeaves(m: Machine, id: WorkflowId, result: Result, k: nat, h: Option<Pure>, core: Core)
    requires OpenRun(m.store, id) && Stage(CompletedOutputs(m.store, id), k, h, core)
    requires result.status == Completed ==> k == |STEPS|
    ensures Left(m.store, Conclude(m, id, result).machine.store, id, k, h, core)
  {
    LeftAtOnce(m.store, Conclude(m, id, result).machine.store, id, k, h, core);
  }

  lemma {:induction false} LoopLeaves(m: Machine, env: Env, id: WorkflowId, inp: Input, i: nat, k: nat, h: Option<Pure>)
    requires i <= k <= |STEPS| && OpenRun(m.store, id) && Follows(env, h, inp)
    requires Stage(CompletedOutputs(m.store, id), k, h, CoreOf(inp))
    ensures Left(m.store, SimpleFrom(m, env, id, inp, i, CompletedOutputs(m.store, id)).machine.store, id, k, h,
                 CoreOf(inp))
    decreases |STEPS| - i
  {
    var outputs := CompletedOutputs(m.store, id);
    var r := SimpleFrom(m, env, id, inp, i, outputs);
    if i == |STEPS| {
      ConcludeLeaves(m, id, Result(Completed, None), k, h, CoreOf(inp));
    } else if i < k {
      assert STEPS[i] in outputs;
      LoopLeaves(m, env, id, inp, i + 1, k, h);
    } else {
      assert STEPS[i] !in outputs;
      CheckpointKeepsStore(m, env, inp);
      match Checkpoint(m, env, inp)
      case Died(_) =>
        LeftAtOnce(m.store, m.store, id, k, h, CoreOf(inp));
      case Done(m1, Some(result)) =>
        ConcludeLeaves(m1, id, result, k, h, CoreOf(inp));
      case Done(m1, None) =>
        StepLeaves(m1, env, id, inp, i, h);
    }
  }

  /** One handler call leaves the steps as they were, or with one more. */
  lemma ExecuteLeaves(m: Machine, env: Env, id: WorkflowId, inp: Input, k: nat, h: Option<Pure>)
    requires k < |STEPS| && OpenRun(m.store, id) && Follows(env, h, inp)
    requires Stage(CompletedOutputs(m.store, id), k, h, CoreOf(inp))
    ensures var r := Execute(m, env, id, inp, STEPS[k], CompletedOutputs(m.store, id));
            && Left(m.store, r.machine.store, id, k, h, CoreOf(inp))
            && Touches(m.store, r.machine.store, id) && OpenRun(r.machine.store, id)
            && (r.Done? ==> r.value == env.handler(|m.trace|, STEPS[k], inp, CompletedOutputs(m.store, id)))
            && (r.Done? ==> CompletedOutputs(r.machine.store, id) ==
                              CompletedOutputs(m.store, id)[STEPS[k] := r.value])
  {
    var outputs := CompletedOutputs(m.store, id);
    StageExtends(outputs, k, h, inp, env, |m.trace|);
    ExecuteStore(m, env, id, inp, STEPS[k], outputs);
    var s' := Execute(m, env, id, inp, STEPS[k], outputs).machine.store;
    assert Touches(m.store, s', id);
    LeftAtOnce(m.store, s', id, if s' == m.store then k else k + 1, h, CoreOf(inp));
  }

  lemma {:induction false} StepLeaves(m: Machine, env: Env, id: WorkflowId, inp: Input, k: nat, h: Option<Pure>)
    requires k < |STEPS| && OpenRun(m.store, id) && Follows(env, h, inp)
    requires Stage(CompletedOutputs(m.store, id), k, h, CoreOf(inp))
    ensures var outputs := CompletedOutputs(m.store, id);
            match Execute(m, env, id, inp, STEPS[k], outputs)
            case Died(m') => Left(m.store, m'.store, id, k, h, CoreOf(inp))
            case Done(m', output) =>
              Left(m.store, SimpleFrom(m', env, id, inp, k + 1, outputs[STEPS[k] := output]).machine.store, id, k, h,
                   CoreOf(inp))
    decreases |STEPS| - k, 0
  {
    var outputs := CompletedOutputs(m.store, id);
    StageExtends(outputs, k, h, inp, env, |m.trace|);
    var r := Execute(m, env, id, inp, STEPS[k], outputs);
    var s' := r.machine.store;
    ExecuteLeaves(m, env, id, inp, k, h);
    match r
    case Died(_) =>
    case Done(m', output) =>
      LoopLeaves(m', env, id, inp, k + 1, k + 1, h);
      LeftTransitive(m.store, s', SimpleFrom(m', env, id, inp, k + 1, outputs[STEPS[k] := output]).machine.store, id, k,
                     k + 1, h, CoreOf(inp));
  }

  // ---- histories --------------------------------------------------------------------------------

  /** Every known run has done some first steps; a completed run has done them all. */
  ghost predicate Orderly(s: Store, id: WorkflowId, h: Option<Pure>) {
    if id !in s.runs then CompletedOutputs(s, id) == map[]
    else exists j | 0 <= j <= |STEPS| :: Progress(s, id, j, h, CoreOf(s.runs[id].input))
  }

  /** The handlers of a call are the deterministic `h`, and a `run` of a known workflow carries the
      input it was started with, the lease token aside. Nothing is asked when `h` is `None`. */
  ghost predicate Consistent(s: Store, call: Call, h: Option<Pure>) {
    h.Some? ==>
      match call
      case RunCall(_, id, input, env, _) =>
        Follows(env, h, input) && (id in s.runs ==> CoreOf(input) == CoreOf(s.runs[id].input))
      case ResumeCall(_, id, env, _) => id in s.runs ==> Follows(env, h, s.runs[id].input)
  }

  ghost predicate AllConsistent(s: Store, calls: seq<Call>, h: Option<Pure>)
    decreases calls
  {
    calls != [] ==> Consistent(s, calls[0], h) && AllConsistent(Perform1(s, calls[0]).machine.store, calls[1..], h)
  }

  lemma AdvanceKeepsOrderly(graph: bool, m: Machine, env: Env, id: WorkflowId, inp: Input, h: Option<Pure>,
                            other: WorkflowId)
    requires Orderly(m.store, id, h) && Orderly(m.store, other, h) && Follows(env, h, inp)
    requires h.Some? && id in m.store.runs ==> CoreOf(inp) == CoreOf(m.store.runs[id].input)
    ensures Orderly(Advance(graph, m, env, id, inp).machine.store, other, h)
  {
    EnginesAgree(m, env, id, inp);
    if OpenRun(m.store, id) {
      var core := CoreOf(m.store.runs[id].input);
      var k :| 0 <= k <= |STEPS| && Progress(m.store, id, k, h, core);
      CoreIrrelevant(m.store, id, k, h, core, CoreOf(inp));
      LoopLeaves(m, env, id, inp, 0, k, h);
      var s' := SimpleAdvance(m, env, id, inp).machine.store;
      var j :| k <= j <= |STEPS| && Progress(s', id, j, h, CoreOf(inp));
      CoreIrrelevant(s', id, j, h, CoreOf(inp), core);
      if other != id && other in m.store.runs {
        var n :| 0 <= n <= |STEPS| && Progress(m.store, other, n, h, CoreOf(m.store.runs[other].input));
        assert Progress(s', other, n, h, CoreOf(s'.runs[other].input));
      }
    }
  }

  /** Without deterministic handlers the input plays no part. */
  lemma CoreIrrelevant(s: Store, id: WorkflowId, j: nat, h: Option<Pure>, core: Core, other: Core)
    requires id in s.runs && Progress(s, id, j, h, core) && (h.Some? ==> core == other)
    ensures Progress(s, id, j, h, other)
  {
  }

  lemma StartsOrderly(s: Store, id: WorkflowId, input: Input, h: Option<Pure>)
    requires id !in s.runs && Orderly(s, id, h)
    ensures Orderly(EnsureRun(s, id, input), id, h)
  {
    assert Progress(EnsureRun(s, id, input), id, 0, h, CoreOf(input));
  }

  lemma OtherStaysOrderly(s: Store, id: WorkflowId, input: Input, h: Option<Pure>, other: WorkflowId)
    requires other != id && Orderly(s, other, h)
    ensures Orderly(EnsureRun(s, id, input), other, h)
  {
    if other in s.runs {
      var n :| 0 <= n <= |STEPS| && Progress(s, other, n, h, CoreOf(s.runs[other].input));
      assert Progress(EnsureRun(s, id, input), other, n, h, CoreOf(s.runs[other].input));
    }
  }

  lemma CallKeepsOrderly(s: Store, call: Call, h: Option<Pure>, other: WorkflowId)
    requires Orderly(s, call.id, h) && Orderly(s, other, h) && Consistent(s, call, h)
    ensures Orderly(Perform1(s, call).machine.store, other, h)
  {
    var m := Machine(s, [], call.left);
    match call
    case RunCall(graph, id, input, env, _) =>
      if m.left > 0 {
        var m1 := Perform(m, DoEnsureRun(id, input));
        if id !in s.runs {
          StartsOrderly(s, id, input, h);
        } else {
          assert m1.store == s;
        }
        if other != id {
          OtherStaysOrderly(s, id, input, h, other);
        }
        AdvanceKeepsOrderly(graph, m1, env, id, input, h, other);
      }
    case ResumeCall(graph, id, env, _) =>
      if id in s.runs {
        AdvanceKeepsOrderly(graph, m, env, id, s.runs[id].input, h, other);
      }
  }

  lemma {:induction false} CallsKeepOrderly(s: Store, calls: seq<Call>, h: Option<Pure>)
    requires forall id :: Orderly(s, id, h)
    requires AllConsistent(s, calls, h)
    ensures forall id :: Orderly(After(s, calls), id, h)
    decreases calls
  {
    if calls != [] {
      var s' := Perform1(s, calls[0]).machine.store;
      forall id
        ensures Orderly(s', id, h)
      {
        CallKeepsOrderly(s, calls[0], h, id);
      }
      CallsKeepOrderly(s', calls[1..], h);
    }
  }

  lemma {:induction false} AnythingGoes(s: Store, calls: seq<Call>)
    ensures AllConsistent(s, calls, None)
    decreases calls
  {
    if calls != [] {
      AnythingGoes(Perform1(s, calls[0]).machine.store, calls[1..]);
    }
  }

  /** Whatever the handlers and callbacks answer and wherever calls die, the completed steps of every
      workflow are a prefix of the step list, and all of it once the outcome is completed. */
  lemma CompletedStepsAreAPrefix(calls: seq<Call>, id: WorkflowId) returns (k: nat)
    ensures FirstSteps(CompletedOutputs(After(EMPTY, calls), id), k)
    ensures var s := After(EMPTY, calls);
            id in s.runs && s.runs[id].outcome.Some? && s.runs[id].outcome.value.status == Completed ==> k == |STEPS|
  {
    AnythingGoes(EMPTY, calls);
    assert forall any :: Orderly(EMPTY, any, None);
    CallsKeepOrderly(EMPTY, calls, None);
    var s := After(EMPTY, calls);
    assert Orderly(s, id, None);
    if id in s.runs {
      k :| 0 <= k <= |STEPS| && Progress(s, id, k, None, CoreOf(s.runs[id].input));
    } else {
      k := 0;
    }
  }

  /** With deterministic handlers, any number of crashes, runs and resumes leaves exactly the outputs an
      uninterrupted run computes for its first steps; a completed workflow has all of them. */
  lemma CrashesDoNotShow(calls: seq<Call>, id: WorkflowId, h: Pure) returns (k: nat)
    requires AllConsistent(EMPTY, calls, Some(h)) && id in After(EMPTY, calls).runs
    ensures k <= |STEPS|
    ensures var s := After(EMPTY, calls);
            && CompletedOutputs(s, id) == Ideal(h, CoreOf(s.runs[id].input), k)
            && (s.runs[id].outcome.Some? && s.runs[id].outcome.value.status == Completed ==> k == |STEPS|)
  {
    assert forall any :: Orderly(EMPTY, any, Some(h));
    CallsKeepOrderly(EMPTY, calls, Some(h));
    var s := After(EMPTY, calls);
    assert Orderly(s, id, Some(h));
    k :| 0 <= k <= |STEPS| && Progress(s, id, k, Some(h), CoreOf(s.runs[id].input));
  }

  // ---- an outcome is final ----------------------------------------------------------------------

  lemma CallKeepsOutcome(s: Store, call: Call, id: WorkflowId)
    requires id in s.runs && s.runs[id].outcome.Some?
    requires forall any :: Orderly(s, any, None)
    ensures var s' := Perform1(s, call).machine.store;
            && id in s'.runs && s'.runs[id] == s.runs[id] && CompletedOutputs(s', id) == CompletedOutputs(s, id)
            && (forall any :: Orderly(s', any, None))
    ensures call.id == id && Perform1(s, call).Done? ==> Perform1(s, call).value == s.runs[id].outcome.value
  {
    var s' := Perform1(s, call).machine.store;
    forall any
      ensures Orderly(s', any, None)
    {
      CallKeepsOrderly(s, call, None, any);
    }
    if call.id != id {
      OtherRunsUntouched(s, call, id);
    }
  }

  lemma OtherRunsUntouched(s: Store, call: Call, id: WorkflowId)
    requires call.id != id && id in s.runs && Orderly(s, call.id, None)
    ensures var s' := Perform1(s, call).machine.store;
            id in s'.runs && s'.runs[id] == s.runs[id] && CompletedOutputs(s', id) == CompletedOutputs(s, id)
  {
    var m := Machine(s, [], call.left);
    if call.RunCall? && m.left > 0 {
      var m1 := Perform(m, DoEnsureRun(call.id, call.input));
      if call.id !in s.runs {
        StartsOrderly(s, call.id, call.input, None);
      }
      AdvanceTouches(call.graph, m1, call.env, call.id, call.input);
    } else if call.ResumeCall? && call.id in s.runs {
      AdvanceTouches(call.graph, m, call.env, call.id, s.runs[call.id].input);
    }
  }

  lemma AdvanceTouches(graph: bool, m: Machine, env: Env, id: WorkflowId, inp: Input)
    requires Orderly(m.store, id, None) && id in m.store.runs
    ensures Touches(m.store, Advance(graph, m, env, id, inp).machine.store, id)
  {
    EnginesAgree(m, env, id, inp);
    if OpenRun(m.store, id) {
      var k :| 0 <= k <= |STEPS| && Progress(m.store, id, k, None, CoreOf(m.store.runs[id].input));
      CoreIrrelevant(m.store, id, k, None, CoreOf(m.store.runs[id].input), CoreOf(inp));
      LoopLeaves(m, env, id, inp, 0, k, None);
    }
  }

  /** Once a workflow has an outcome, no later call changes its row or its outputs, and every later
      call on it that returns, returns that outcome. */
  lemma {:induction false} OutcomeIsFinal(s: Store, calls: seq<Call>, id: WorkflowId)
    requires id in s.runs && s.runs[id].outcome.Some?
    requires forall any :: Orderly(s, any, None)
    ensures var s' := After(s, calls);
            id in s'.runs && s'.runs[id] == s.runs[id] && CompletedOutputs(s', id) == CompletedOutputs(s, id)
    ensures forall call: Call | call.id == id && Perform1(After(s, calls), call).Done? ::
              Perform1(After(s, calls), call).value == s.runs[id].outcome.value
    decreases calls
  {
    if calls == [] {
      forall call: Call | call.id == id && Perform1(s, call).Done?
        ensures Perform1(s, call).value == s.runs[id].outcome.value
      {
        CallKeepsOutcome(s, call, id);
      }
    } else {
      CallKeepsOutcome(s, calls[0], id);
      OutcomeIsFinal(Perform1(s, calls[0]).machine.store, calls[1..], id);
    }
  }

  // ---- an undisturbed call completes ------------------------------------------------------------

  /** The lease stays active and the head stays put. */
  ghost predicate Calm(env: Env, inp: Input) {
    && (env.lease.Some? ==> forall t: nat :: env.lease.value(t) == LeaseActive)
    && (env.head.Some? ==> forall t: nat :: env.head.value(t) == inp.headSha)
  }

  lemma CalmCheckpoint(m: Machine, env: Env, inp: Input)
    requires Calm(env, inp) && m.left >= 2
    ensures var c := Checkpoint(m, env, inp);
            c.Done? && c.value == None && c.machine.store == m.store && c.machine.left >= m.left - 2
  {
  }

  lemma LivelyExecute(m: Machine, env: Env, id: WorkflowId, inp: Input, step: Step, outputs: Outputs)
    requires m.left >= 3
    ensures var e := Execute(m, env, id, inp, step, outputs);
            e.Done? && e.machine.left >= m.left - 3
  {
  }

  /** One undisturbed step. */
  lemma CalmStep(m: Machine, env: Env, id: WorkflowId, inp: Input, k: nat) returns (e: Ran<Output>)
    requires k < |STEPS| && OpenRun(m.store, id) && Calm(env, inp) && FirstSteps(CompletedOutputs(m.store, id), k)
    requires m.left > 5
    ensures var outputs, c := CompletedOutputs(m.store, id), Checkpoint(m, env, inp);
            && STEPS[k] !in outputs && c.Done? && c.value == None
            && e == Execute(c.machine, env, id, inp, STEPS[k], outputs) && e.Done? && e.machine.left >= m.left - 5
            && OpenRun(e.machine.store, id)
            && CompletedOutputs(e.machine.store, id) == outputs[STEPS[k] := e.value]
            && FirstSteps(CompletedOutputs(e.machine.store, id), k + 1)
  {
    var outputs := CompletedOutputs(m.store, id);
    assert STEPS[k] !in outputs;
    CalmCheckpoint(m, env, inp);
    var c := Checkpoint(m, env, inp).machine;
    LivelyExecute(c, env, id, inp, STEPS[k], outputs);
    e := Execute(c, env, id, inp, STEPS[k], outputs);
    ExecuteStore(c, env, id, inp, STEPS[k], outputs);
    FirstStepsExtend(outputs, k, e.value);
    assert CompletedOutputs(e.machine.store, id) == outputs[STEPS[k] := e.value];
  }

  lemma {:induction false} CalmLoopCompletes(m: Machine, env: Env, id: WorkflowId, inp: Input, k: nat)
    requires k <= |STEPS| && OpenRun(m.store, id) && Calm(env, inp) && FirstSteps(CompletedOutputs(m.store, id), k)
    requires m.left > 5 * (|STEPS| - k)
    ensures var r := SimpleFrom(m, env, id, inp, k, CompletedOutputs(m.store, id));
            && r.Done? && r.value == Result(Completed, None)
            && id in r.machine.store.runs && r.machine.store.runs[id].outcome == Some(Result(Completed, None))
    decreases |STEPS| - k
  {
    var outputs := CompletedOutputs(m.store, id);
    if k < |STEPS| {
      var e := CalmStep(m, env, id, inp, k);
      CalmLoopCompletes(e.machine, env, id, inp, k + 1);
      assert SimpleFrom(m, env, id, inp, k, outputs) ==
             SimpleFrom(e.machine, env, id, inp, k + 1, CompletedOutputs(e.machine.store, id));
    }
  }

  lemma {:induction false} SkipsDone(m: Machine, env: Env, id: WorkflowId, inp: Input, i: nat, k: nat)
    requires i <= k <= |STEPS| && FirstSteps(CompletedOutputs(m.store, id), k)
    ensures SimpleFrom(m, env, id, inp, i, CompletedOutputs(m.store, id)) ==
              SimpleFrom(m, env, id, inp, k, CompletedOutputs(m.store, id))
    decreases k - i
  {
    if i < k {
      assert STEPS[i] in CompletedOutputs(m.store, id);
      SkipsDone(m, env, id, inp, i + 1, k);
    }
  }

  /** After any history, a resume that lives through its effects while the lease is active and the head
      has not moved completes the workflow. */
  lemma CalmResumeCompletes(calls: seq<Call>, call: Call)
    requires var s := After(EMPTY, calls);
             && call.ResumeCall? && OpenRun(s, call.id) && Calm(call.env, s.runs[call.id].input)
             && call.left > 5 * |STEPS|
    ensures var r := Perform1(After(EMPTY, calls), call);
            && r.Done? && r.value == Result(Completed, None)
            && r.machine.store.runs.Keys == After(EMPTY, calls).runs.Keys
            && r.machine.store.runs[call.id].outcome == Some(Result(Completed, None))
  {
    var s := After(EMPTY, calls);
    var m := Machine(s, [], call.left);
    var inp := s.runs[call.id].input;
    var k := CompletedStepsAreAPrefix(calls, call.id);
    EnginesAgree(m, call.env, call.id, inp);
    SkipsDone(m, call.env, call.id, inp, 0, k);
    CalmLoopCompletes(m, call.env, call.id, inp, k);
    AnythingGoes(EMPTY, calls);
    assert forall any :: Orderly(EMPTY, any, None);
    CallsKeepOrderly(EMPTY, calls, None);
    AdvanceTouches(call.graph, m, call.env, call.id, inp);
  }

  // ---- a run restarted with another input -------------------------------------------------------

  lemma {:induction false} IdealGrows(h: Pure, core: Core, k: nat, n: nat)
    requires k <= n <= |STEPS|
    ensures forall i | 0 <= i < k ::
              && STEPS[i] in Ideal(h, core, k) && STEPS[i] in Ideal(h, core, n)
              && Ideal(h, core, n)[STEPS[i]] == Ideal(h, core, k)[STEPS[i]]
    decreases n - k
  {
    IdealSteps(h, core, k);
    IdealSteps(h, core, n);
    if k < n {
      IdealGrows(h, core, k, n - 1);
      IdealSteps(h, core, n - 1);
      forall i | 0 <= i < k
        ensures Ideal(h, core, n)[STEPS[i]] == Ideal(h, core, k)[STEPS[i]]
      {
        assert STEPS[i] != STEPS[n - 1];
      }
    }
  }

  lemma SameFirstSteps(a: Outputs, b: Outputs, k: nat)
    requires FirstSteps(a, k) && FirstSteps(b, k)
    requires forall i | 0 <= i < k :: a[STEPS[i]] == b[STEPS[i]]
    ensures a == b
  {
    forall step
      ensures step in a <==> step in b
      ensures step in a ==> a[step] == b[step]
    {
      EveryStepListed(step);
      var i :| 0 <= i < |STEPS| && STEPS[i] == step;
      assert STEPS[i] in a <==> i < k;
    }
    assert a.Keys == b.Keys;
  }

  /** `run` trusts the input it is given over the stored one. When a workflow with `k` steps done is run
      to the end under `inp` with deterministic handlers, it ends with the outputs of an
      uninterrupted run under `inp` exactly when the stored steps already were those outputs. */
  lemma OtherInputExactly(m: Machine, env: Env, id: WorkflowId, inp: Input, k: nat, h: Pure)
    requires k <= |STEPS| && OpenRun(m.store, id) && Calm(env, inp) && Follows(env, Some(h), inp)
    requires FirstSteps(CompletedOutputs(m.store, id), k) && m.left > 5 * (|STEPS| - k)
    ensures var r := SimpleAdvance(m, env, id, inp);
            && r.Done? && r.value == Result(Completed, None)
            && (CompletedOutputs(r.machine.store, id) == Ideal(h, CoreOf(inp), |STEPS|) <==>
                CompletedOutputs(m.store, id) == Ideal(h, CoreOf(inp), k))
  {
    var outputs := CompletedOutputs(m.store, id);
    var r := SimpleAdvance(m, env, id, inp);
    SkipsDone(m, env, id, inp, 0, k);
    CalmLoopCompletes(m, env, id, inp, k);
    if outputs == Ideal(h, CoreOf(inp), k) {
      LoopLeaves(m, env, id, inp, 0, k, Some(h));
      assert Left(m.store, r.machine.store, id, k, Some(h), CoreOf(inp));
    } else {
      assert Stage(outputs, k, None, CoreOf(inp));
      LoopLeaves(m, env, id, inp, 0, k, None);
      assert Touches(m.store, r.machine.store, id);
      IdealSteps(h, CoreOf(inp), k);
      IdealGrows(h, CoreOf(inp), k, |STEPS|);
      if CompletedOutputs(r.machine.store, id) == Ideal(h, CoreOf(inp), |STEPS|) {
        SameFirstSteps(outputs, Ideal(h, CoreOf(inp), k), k);
      }
    }
  }

  // ---- a run with two inputs --------------------------------------------------------------------

  /** No callable but the handlers, which answer the head they are asked about. */
  function HeadEnv(): Env { Env(None, None, (_, _, inp: Input, _) => inp.headSha, false) }

  function HeadPure(): Pure { (_, core: Core, _) => core.headSha }

  lemma HeadExecute(m: Machine, id: WorkflowId, inp: Input, step: Step, outputs: Outputs)
    requires m.left >= 2 && outputs == CompletedOutputs(m.store, id) && step !in outputs
    ensures Checkpoint(m, HeadEnv(), inp) == Done(m, None)
    ensures var e := Execute(m, HeadEnv(), id, inp, step, outputs);
            && e.Done? && e.value == inp.headSha && e.machine.left == m.left - 2
            && e.machine.store.runs == m.store.runs
            && CompletedOutputs(e.machine.store, id) == outputs[step := inp.headSha]
  {
  }

  /** The loop from step `k` on keeps the first `k` outputs and adds those of its own input. */
  lemma {:induction false} HeadLoop(m: Machine, id: WorkflowId, inp: Input, k: nat)
    requires k <= |STEPS| && OpenRun(m.store, id) && FirstSteps(CompletedOutputs(m.store, id), k)
    requires m.left > 2 * (|STEPS| - k)
    ensures var outputs := CompletedOutputs(m.store, id);
            var last := CompletedOutputs(SimpleFrom(m, HeadEnv(), id, inp, k, outputs).machine.store, id);
            && FirstSteps(last, |STEPS|)
            && (forall i | 0 <= i < k :: last[STEPS[i]] == outputs[STEPS[i]])
            && (forall i | k <= i < |STEPS| :: last[STEPS[i]] == inp.headSha)
    ensures var last := SimpleFrom(m, HeadEnv(), id, inp, k, CompletedOutputs(m.store, id)).machine.store;
            last.runs == m.store.runs[id := m.store.runs[id].(outcome := Some(Result(Completed, None)))]
    decreases |STEPS| - k
  {
    if k < |STEPS| {
      var outputs := CompletedOutputs(m.store, id);
      FirstStepsExtend(outputs, k, inp.headSha);
      HeadExecute(m, id, inp, STEPS[k], outputs);
      var e := Execute(m, HeadEnv(), id, inp, STEPS[k], outputs);
      HeadLoop(e.machine, id, inp, k + 1);
      assert forall i | 0 <= i < k :: STEPS[i] != STEPS[k];
    }
  }

  /** A run under `a` dies after its first step and another run under `b` finishes it: the stored outputs are
      neither those of `a` nor those of `b`. */
  lemma TwoInputsMix(id: WorkflowId, a: Input, b: Input) returns (calls: seq<Call>)
    requires a.headSha != b.headSha
    ensures forall call | call in calls ::
              call.RunCall? && call.id == id && Follows(call.env, Some(HeadPure()), call.input)
    ensures var s := After(EMPTY, calls);
            && id in s.runs && s.runs[id] == RunRow(a, Some(Result(Completed, None)))
            && CompletedOutputs(s, id) != Ideal(HeadPure(), CoreOf(a), |STEPS|)
            && CompletedOutputs(s, id) != Ideal(HeadPure(), CoreOf(b), |STEPS|)
  {
    var first, second := RunCall(false, id, a, HeadEnv(), 3), RunCall(false, id, b, HeadEnv(), 40);
    calls := [first, second];
    var s1 := Perform1(EMPTY, first).machine.store;
    var s2 := Perform1(s1, second).machine.store;
    assert After(EMPTY, calls) == s2 by {
      TwoCalls(EMPTY, first, second);
    }
    assert s1.runs == map[id := RunRow(a, None)] && FirstSteps(CompletedOutputs(s1, id), 1)
           && CompletedOutputs(s1, id)[STEPS[0]] == a.headSha by {
      DiesAfterOneStep(id, a);
    }
    FinishesUnder(s1, id, a, b);
    MixDiffers(CompletedOutputs(s2, id), a, b);
  }

  lemma TwoCalls(s: Store, first: Call, second: Call)
    ensures After(s, [first, second]) == Perform1(Perform1(s, first).machine.store, second).machine.store
  {
    assert [first, second][1..] == [second] && [second][1..] == [];
    var s1 := Perform1(s, first).machine.store;
    assert After(s1, [second]) == After(Perform1(s1, second).machine.store, []);
  }

  lemma MixDiffers(outputs: Outputs, a: Input, b: Input)
    requires STEPS[0] in outputs && outputs[STEPS[0]] == a.headSha && STEPS[5] in outputs
             && outputs[STEPS[5]] == b.headSha
    requires a.headSha != b.headSha
    ensures outputs != Ideal(HeadPure(), CoreOf(a), |STEPS|) && outputs != Ideal(HeadPure(), CoreOf(b), |STEPS|)
  {
    HeadIdeal(a);
    HeadIdeal(b);
  }

  lemma FinishesUnder(s: Store, id: WorkflowId, a: Input, b: Input)
    requires id in s.runs && s.runs[id] == RunRow(a, None)
    requires FirstSteps(CompletedOutputs(s, id), 1) && CompletedOutputs(s, id)[STEPS[0]] == a.headSha
    ensures var s' := Perform1(s, RunCall(false, id, b, HeadEnv(), 40)).machine.store;
            && id in s'.runs && s'.runs[id] == RunRow(a, Some(Result(Completed, None)))
            && STEPS[0] in CompletedOutputs(s', id) && CompletedOutputs(s', id)[STEPS[0]] == a.headSha
            && STEPS[5] in CompletedOutputs(s', id) && CompletedOutputs(s', id)[STEPS[5]] == b.headSha
  {
    var m := Perform(Machine(s, [], 40), DoEnsureRun(id, b));
    assert m.store == s;
    SkipsDone(m, HeadEnv(), id, b, 0, 1);
    HeadLoop(m, id, b, 1);
  }

  lemma DiesAfterOneStep(id: WorkflowId, a: Input)
    ensures var s := Perform1(EMPTY, RunCall(false, id, a, HeadEnv(), 3)).machine.store;
            && s.runs == map[id := RunRow(a, None)] && CompletedOutputs(s, id) == map[Fetch := a.headSha]
            && FirstSteps(CompletedOutputs(s, id), 1)
  {
    var m := Perform(Machine(EMPTY, [], 3), DoEnsureRun(id, a));
    assert CompletedOutputs(m.store, id) == map[];
    HeadExecute(m, id, a, Fetch, map[]);
    var e := Execute(m, HeadEnv(), id, a, Fetch, map[]).machine;
    assert SimpleFrom(e, HeadEnv(), id, a, 1, map[Fetch := a.headSha]) == Died(e);
  }

  lemma HeadIdeal(inp: Input)
    ensures var ideal := Ideal(HeadPure(), CoreOf(inp), |STEPS|);
            STEPS[0] in ideal && ideal[STEPS[0]] == inp.headSha && STEPS[5] in ideal && ideal[STEPS[5]] == inp.headSha
  {
    IdealGrows(HeadPure(), CoreOf(inp), 1, |STEPS|);
  }
}
