/** The two engines as loops over a mutable store, each proved equal to its function in `Workflow`. A
    method that dies returns `None`. */
module WorkflowEngines {
  import opened Common
  import opened Workflow

  function Outcome<T>(m: Machine, value: Option<T>): Ran<T> {
    if value.Some? then Done(m, value.value) else Died(m)
  }

  class Engine {
    var store: Store
    var trace: seq<Effect>
    var left: nat

    ghost function View(): Machine
      reads this
    {
      Machine(store, trace, left)
    }

    constructor (store: Store, left: nat)
      ensures View() == Machine(store, [], left)
    {
      this.store, this.trace, this.left := store, [], left;
    }

    /** One effect on the store or on an injected callable; false when the process dies first. */
    method Do(e: Effect) returns (alive: bool)
      modifies this
      ensures alive == (old(left) > 0)
      ensures View() == if alive then Perform(old(View()), e) else old(View())
    {
      if left == 0 {
        return false;
      }
      match e {
        case DoEnsureRun(id, input) =>
          if id !in store.runs {
            store := store.(runs := store.runs[id := RunRow(input, None)]);
          }
        case DoMark(id, step, output) =>
          var outputs := CompletedOutputs(store, id);
          if step !in outputs {
            store := store.(steps := store.steps[id := outputs[step := output]]);
          }
        case DoOutcome(id, result) =>
          if id in store.runs {
            store := store.(runs := store.runs[id := store.runs[id].(outcome := Some(result))]);
          }
        case _ =>
      }
      trace := trace + [e];
      left := left - 1;
      return true;
    }

    method Record(env: Env, jobId: string, event: Event) returns (alive: bool)
      modifies this
      ensures Outcome(View(), if alive then Some(()) else None) == EmitEvent(old(View()), env, jobId, event)
    {
      if !env.records {
        return true;
      }
      alive := Do(Emit(jobId, event));
    }

    /** `_checkpoint`. */
    method Check(env: Env, inp: Input) returns (stopped: Option<Option<Result>>)
      modifies this
      ensures Outcome(View(), stopped) == Checkpoint(old(View()), env, inp)
    {
      if env.lease.Some? {
        var lease := env.lease.value(|trace|);
        var alive := Do(AskLease(inp));
        if !alive {
          return None;
        }
        if lease != LeaseActive {
          var result := if lease == LeaseCancelled then Result(Cancelled, Some("cancelled"))
                        else Result(Failed, Some("invalid_or_expired"));
          alive := Record(env, inp.jobId, Stopped(result));
          return if alive then Some(Some(result)) else None;
        }
      }
      if env.head.Some? {
        var live := env.head.value(|trace|);
        var alive := Do(AskHead(inp));
        if !alive {
          return None;
        }
        if live != inp.headSha {
          var result := Result(Cancelled, Some("superseded"));
          alive := Record(env, inp.jobId, Stopped(result));
          return if alive then Some(Some(result)) else None;
        }
      }
      return Some(None);
    }

    method CallHandler(env: Env, id: WorkflowId, inp: Input, step: Step, outputs: Outputs)
      returns (output: Option<Output>)
      modifies this
      ensures Outcome(View(), output) == Execute(old(View()), env, id, inp, step, outputs)
    {
      var value := env.handler(|trace|, step, inp, outputs);
      var alive := Do(Handle(step, inp, outputs));
      if !alive {
        return None;
      }
      alive := Do(DoMark(id, step, value));
      if !alive {
        return None;
      }
      alive := Record(env, inp.jobId, StepCompleted(step));
      return if alive then Some(value) else None;
    }

    method Settle(id: WorkflowId, result: Result) returns (settled: Option<Result>)
      modifies this
      ensures Outcome(View(), settled) == Conclude(old(View()), id, result)
    {
      var alive := Do(DoOutcome(id, result));
      return if alive then Some(result) else None;
    }

    /** `SimpleEngine._advance`: the loop over the steps. */
    method AdvanceSimple(env: Env, id: WorkflowId, inp: Input) returns (result: Option<Result>)
      modifies this
      ensures Outcome(View(), result) == SimpleAdvance(old(View()), env, id, inp)
    {
      if id !in store.runs {
        return None;
      }
      if store.runs[id].outcome.Some? {
        return store.runs[id].outcome;
      }
      var outputs := CompletedOutputs(store, id);
      ghost var whole := SimpleFrom(View(), env, id, inp, 0, outputs);
      var k := 0;
      while k < |STEPS|
        invariant k <= |STEPS|
        invariant SimpleFrom(View(), env, id, inp, k, outputs) == whole
      {
        var name := STEPS[k];
        k := k + 1;
        if name in outputs {
          continue;
        }
        var stopped := Check(env, inp);
        if stopped.None? {
          return None;
        }
        if stopped.value.Some? {
          result := Settle(id, stopped.value.value);
          return;
        }
        var output := CallHandler(env, id, inp, name, outputs);
        if output.None? {
          return None;
        }
        outputs := outputs[name := output.value];
      }
      result := Settle(id, Result(Completed, None));
    }

    /** One graph node. */
    method RunNode(env: Env, id: WorkflowId, inp: Input, name: Step, outputs: Outputs, state: GraphState)
      returns (next: Option<(GraphState, Outputs)>)
      modifies this
      ensures Outcome(View(), next) == Node(old(View()), env, id, inp, name, outputs, state)
    {
      if state.Halted? {
        return Some((state, outputs));
      }
      if name in outputs {
        return Some((Running, outputs));
      }
      var stopped := Check(env, inp);
      if stopped.None? {
        return None;
      }
      if stopped.value.Some? {
        var settled := Settle(id, stopped.value.value);
        return if settled.Some? then Some((Halted(settled.value), outputs)) else None;
      }
      var output := CallHandler(env, id, inp, name, outputs);
      return if output.Some? then Some((Running, outputs[name := output.value])) else None;
    }

    /** `LangGraphEngine._advance`: the compiled chain runs its nodes in order. */
    method AdvanceGraph(env: Env, id: WorkflowId, inp: Input) returns (result: Option<Result>)
      modifies this
      ensures Outcome(View(), result) == GraphAdvance(old(View()), env, id, inp)
    {
      if id !in store.runs {
        return None;
      }
      if store.runs[id].outcome.Some? {
        return store.runs[id].outcome;
      }
      var outputs := CompletedOutputs(store, id);
      var state := Running;
      ghost var whole := GraphFrom(View(), env, id, inp, 0, outputs, state);
      for k := 0 to |STEPS|
        invariant GraphFrom(View(), env, id, inp, k, outputs, state) == whole
      {
        var next := RunNode(env, id, inp, STEPS[k], outputs, state);
        if next.None? {
          return None;
        }
        state, outputs := next.value.0, next.value.1;
      }
      if state.Halted? {
        return Some(state.result);
      }
      result := Settle(id, Result(Completed, None));
    }

    /** `run`, on either engine. */
    method Run(graph: bool, env: Env, id: WorkflowId, inp: Input) returns (result: Option<Result>)
      requires trace == []
      modifies this
      ensures Outcome(View(), result) == Perform1(old(store), RunCall(graph, id, inp, env, old(left)))
    {
      var alive := Do(DoEnsureRun(id, inp));
      if !alive {
        return None;
      }
      if graph {
        result := AdvanceGraph(env, id, inp);
      } else {
        result := AdvanceSimple(env, id, inp);
      }
    }

    /** `resume`, on either engine. */
    method Resume(graph: bool, env: Env, id: WorkflowId) returns (result: Option<Result>)
      requires trace == []
      modifies this
      ensures Outcome(View(), result) == Perform1(old(store), ResumeCall(graph, id, env, old(left)))
    {
      if id !in store.runs {
        return None;
      }
      if graph {
        result := AdvanceGraph(env, id, store.runs[id].input);
      } else {
        result := AdvanceSimple(env, id, store.runs[id].input);
      }
    }
  }
}
