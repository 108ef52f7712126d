/** The resumable review workflow: a step store and two engines for one interface. An engine works
    through effects, one at a time; a call may die after any of them, which covers a crash, an
    exception from a handler or callback, and a step timeout. */
module Workflow {
  import opened Common

  type WorkflowId = string
  type Output = string  // the stored JSON text

  datatype Step = Fetch | BaselineReview | Retrieval | Verification | Routing | Storage

  const STEPS: seq<Step> := [Fetch, BaselineReview, Retrieval, Verification, Routing, Storage]

  datatype Input = Input(jobId: string, headSha: string, traceId: string, leaseToken: string)
  datatype Status = Completed | Cancelled | Failed
  datatype Result = Result(status: Status, reason: Option<string>)
  type Outputs = map<Step, Output>

  // ---- the store --------------------------------------------------------------------------------

  datatype RunRow = RunRow(input: Input, outcome: Option<Result>)
  datatype Store = Store(runs: map<WorkflowId, RunRow>, steps: map<WorkflowId, Outputs>)

  const EMPTY := Store(map[], map[])

  function CompletedOutputs(s: Store, id: WorkflowId): Outputs {
    if id in s.steps then s.steps[id] else map[]
  }

  /** `insert or ignore`. */
  function EnsureRun(s: Store, id: WorkflowId, input: Input): Store {
    if id in s.runs then s else s.(runs := s.runs[id := RunRow(input, None)])
  }

  function MarkStepCompleted(s: Store, id: WorkflowId, step: Step, output: Output): Store {
    var outputs := CompletedOutputs(s, id);
    if step in outputs then s else s.(steps := s.steps[id := outputs[step := output]])
  }

  function SetOutcome(s: Store, id: WorkflowId, result: Result): Store {
    if id in s.runs then s.(runs := s.runs[id := s.runs[id].(outcome := Some(result))]) else s
  }

  // ---- effects ----------------------------------------------------------------------------------

  datatype Event = StepCompleted(step: Step) | Stopped(result: Result)

  datatype Effect =
    | DoEnsureRun(id: WorkflowId, input: Input)
    | AskLease(input: Input)
    | AskHead(input: Input)
    | Handle(step: Step, input: Input, outputs: Outputs)
    | DoMark(id: WorkflowId, step: Step, output: Output)
    | DoOutcome(id: WorkflowId, result: Result)
    | Emit(jobId: string, event: Event)

  datatype Lease = LeaseActive | LeaseCancelled | LeaseInvalid

  /** The injected callables. Each may answer differently every time; time is the number of effects
      so far. */
  datatype Env = Env(
    lease: Option<nat -> Lease>,
    head: Option<nat -> string>,
    handler: (nat, Step, Input, Outputs) -> Output,
    records: bool)

  /** `left` is how many more effects the process lives for. */
  datatype Machine = Machine(store: Store, trace: seq<Effect>, left: nat)

  datatype Ran<T> = Done(machine: Machine, value: T) | Died(machine: Machine)

  function Perform(m: Machine, e: Effect): Machine
    requires m.left > 0
  {
    var store := match e {
      case DoEnsureRun(id, input) => EnsureRun(m.store, id, input)
      case DoMark(id, step, output) => MarkStepCompleted(m.store, id, step, output)
      case DoOutcome(id, result) => SetOutcome(m.store, id, result)
      case _ => m.store
    };
    Machine(store, m.trace + [e], m.left - 1)
  }

  // ---- what both engines share ------------------------------------------------------------------

  function EmitEvent(m: Machine, env: Env, jobId: string, event: Event): Ran<()> {
    if !env.records then Done(m, ())
    else if m.left == 0 then Died(m)
    else Done(Perform(m, Emit(jobId, event)), ())
  }

  function StopWith(m: Machine, env: Env, inp: Input, result: Result): Ran<Option<Result>> {
    match EmitEvent(m, env, inp.jobId, Stopped(result))
    case Died(m) => Died(m)
    case Done(m, _) => Done(m, Some(result))
  }

  function CheckHead(m: Machine, env: Env, inp: Input): Ran<Option<Result>> {
    if env.head.None? then Done(m, None)
    else if m.left == 0 then Died(m)
    else if env.head.value(|m.trace|) != inp.headSha then
      StopWith(Perform(m, AskHead(inp)), env, inp, Result(Cancelled, Some("superseded")))
    else Done(Perform(m, AskHead(inp)), None)
  }

  /** `_checkpoint`. */
  function Checkpoint(m: Machine, env: Env, inp: Input): Ran<Option<Result>> {
    if env.lease.None? then CheckHead(m, env, inp)
    else if m.left == 0 then Died(m)
    else
      var asked := Perform(m, AskLease(inp));
      match env.lease.value(|m.trace|)
      case LeaseCancelled => StopWith(asked, env, inp, Result(Cancelled, Some("cancelled")))
      case LeaseInvalid => StopWith(asked, env, inp, Result(Failed, Some("invalid_or_expired")))
      case LeaseActive => CheckHead(asked, env, inp)
  }

  /** A stop is stored before it is returned. */
  function Conclude(m: Machine, id: WorkflowId, result: Result): Ran<Result> {
    if m.left == 0 then Died(m) else Done(Perform(m, DoOutcome(id, result)), result)
  }

  /** The handler call and the recording of its output; the value is the output. */
  function Execute(m: Machine, env: Env, id: WorkflowId, inp: Input, step: Step, outputs: Outputs): Ran<Output> {
    if m.left == 0 then Died(m)
    else
      var output := env.handler(|m.trace|, step, inp, outputs);
      var m := Perform(m, Handle(step, inp, outputs));
      if m.left == 0 then Died(m)
      else
        match EmitEvent(Perform(m, DoMark(id, step, output)), env, inp.jobId, StepCompleted(step))
        case Died(m) => Died(m)
        case Done(m, _) => Done(m, output)
  }

  // ---- the plain engine -------------------------------------------------------------------------

  /** The loop of `SimpleEngine._advance` from step `k` on. */
  function SimpleFrom(m: Machine, env: Env, id: WorkflowId, inp: Input, k: nat, outputs: Outputs): Ran<Result>
    requires k <= |STEPS|
    decreases |STEPS| - k
  {
    if k == |STEPS| then Conclude(m, id, Result(Completed, None))
    else if STEPS[k] in outputs then SimpleFrom(m, env, id, inp, k + 1, outputs)
    else
      match Checkpoint(m, env, inp)
      case Died(m) => Died(m)
      case Done(m, Some(result)) => Conclude(m, id, result)
      case Done(m, None) =>
        match Execute(m, env, id, inp, STEPS[k], outputs)
        case Died(m) => Died(m)
        case Done(m, output) => SimpleFrom(m, env, id, inp, k + 1, outputs[STEPS[k] := output])
  }

  /** `get_state` raises when the run is unknown. */
  function SimpleAdvance(m: Machine, env: Env, id: WorkflowId, inp: Input): Ran<Result> {
    if id !in m.store.runs then Died(m)
    else if m.store.runs[id].outcome.Some? then Done(m, m.store.runs[id].outcome.value)
    else SimpleFrom(m, env, id, inp, 0, CompletedOutputs(m.store, id))
  }

  // ---- the graph engine -------------------------------------------------------------------------

  datatype GraphState = Running | Halted(result: Result)

  /** One node; the value is the state it returns and the shared outputs after it. */
  function Node(m: Machine, env: Env, id: WorkflowId, inp: Input, step: Step, outputs: Outputs, state: GraphState)
    : Ran<(GraphState, Outputs)>
  {
    if state.Halted? then Done(m, (state, outputs))
    else if step in outputs then Done(m, (Running, outputs))
    else
      match Checkpoint(m, env, inp)
      case Died(m) => Died(m)
      case Done(m, Some(result)) =>
        (match Conclude(m, id, result)
         case Died(m) => Died(m)
         case Done(m, result) => Done(m, (Halted(result), outputs)))
      case Done(m, None) =>
        (match Execute(m, env, id, inp, step, outputs)
         case Died(m) => Died(m)
         case Done(m, output) => Done(m, (Running, outputs[step := output])))
  }

  /** The chain of nodes from `k` on: every node runs, also after a stop. */
  function GraphFrom(m: Machine, env: Env, id: WorkflowId, inp: Input, k: nat, outputs: Outputs,
                     state: GraphState): Ran<GraphState>
    requires k <= |STEPS|
    decreases |STEPS| - k
  {
    if k == |STEPS| then Done(m, state)
    else
      match Node(m, env, id, inp, STEPS[k], outputs, state)
      case Died(m) => Died(m)
      case Done(m, (state, outputs)) => GraphFrom(m, env, id, inp, k + 1, outputs, state)
  }

  /** `LangGraphEngine._advance`. */
  function GraphAdvance(m: Machine, env: Env, id: WorkflowId, inp: Input): Ran<Result> {
    if id !in m.store.runs then Died(m)
    else if m.store.runs[id].outcome.Some? then Done(m, m.store.runs[id].outcome.value)
    else
      match GraphFrom(m, env, id, inp, 0, CompletedOutputs(m.store, id), Running)
      case Died(m) => Died(m)
      case Done(m, Halted(result)) => Done(m, result)
      case Done(m, Running) => Conclude(m, id, Result(Completed, None))
  }

  // ---- the engines agree ------------------------------------------------------------------------

  lemma {:induction false} HaltedNodesPass(m: Machine, env: Env, id: WorkflowId, inp: Input, k: nat, outputs: Outputs,
                                           state: GraphState)
    requires k <= |STEPS| && state.Halted?
    ensures GraphFrom(m, env, id, inp, k, outputs, state) == Done(m, state)
    decreases |STEPS| - k
  {
    if k < |STEPS| {
      HaltedNodesPass(m, env, id, inp, k + 1, outputs, state);
    }
  }

  function Finish(g: Ran<GraphState>, id: WorkflowId): Ran<Result> {
    match g
    case Died(m) => Died(m)
    case Done(m, Halted(result)) => Done(m, result)
    case Done(m, Running) => Conclude(m, id, Result(Completed, None))
  }

  lemma {:induction false} ChainsAgree(m: Machine, env: Env, id: WorkflowId, inp: Input, k: nat, outputs: Outputs)
    requires k <= |STEPS|
    ensures Finish(GraphFrom(m, env, id, inp, k, outputs, Running), id) == SimpleFrom(m, env, id, inp, k, outputs)
    decreases |STEPS| - k
  {
    if k < |STEPS| {
      match Node(m, env, id, inp, STEPS[k], outputs, Running)
      case Died(_) =>
      case Done(m', (state, outputs')) =>
        if state.Halted? {
          HaltedNodesPass(m', env, id, inp, k + 1, outputs', state);
        } else {
          ChainsAgree(m', env, id, inp, k + 1, outputs');
        }
    }
  }

  /** For every starting store, every answer of every callable and every moment of death, the two
      engines return the same result, leave the same store and perform the same effects in the same
      order, handler calls and events included. */
  lemma EnginesAgree(m: Machine, env: Env, id: WorkflowId, inp: Input)
    ensures GraphAdvance(m, env, id, inp) == SimpleAdvance(m, env, id, inp)
  {
    ChainsAgree(m, env, id, inp, 0, CompletedOutputs(m.store, id));
  }

  // ---- calls ------------------------------------------------------------------------------------

  datatype Call =
    | RunCall(graph: bool, id: WorkflowId, input: Input, env: Env, left: nat)
    | ResumeCall(graph: bool, id: WorkflowId, env: Env, left: nat)

  function Advance(graph: bool, m: Machine, env: Env, id: WorkflowId, inp: Input): Ran<Result> {
    if graph then GraphAdvance(m, env, id, inp) else SimpleAdvance(m, env, id, inp)
  }

  /** `run` advances with the input it was given, `resume` with the stored one. */
  function Perform1(s: Store, call: Call): Ran<Result> {
    var m := Machine(s, [], call.left);
    match call
    case RunCall(graph, id, input, env, _) =>
      if m.left == 0 then Died(m) else Advance(graph, Perform(m, DoEnsureRun(id, input)), env, id, input)
    case ResumeCall(graph, id, env, _) =>
      if id !in s.runs then Died(m) else Advance(graph, m, env, id, s.runs[id].input)
  }

  function After(s: Store, calls: seq<Call>): Store
    decreases calls
  {
    if calls == [] then s else After(Perform1(s, calls[0]).machine.store, calls[1..])
  }
}
