/** The staged deployment as a transition system: one goroutine a node that enters the create stage,
    a bounded pool of workers that take nodes from an unbuffered channel and drive them through the
    remaining stages, and the goroutine that closes the channel. Every signal of a Done loop is a step
    of its own, and steps of different nodes interleave in any order. */
module Scheduler {
  import opened DependencyGraph

  datatype PC =
    | Entering(stage: Stage)    // blocked in EnterStage: create in its goroutine, the rest on a worker
    | AwaitingExternal          // waiting for an external container
    | Sending                   // blocked on the worker channel
    | Working(stage: Stage)     // the work between EnterStage and Done of a stage
    | Signalling(stage: Stage)  // inside the loop of Done
    | Failing                   // writing its error to the failure channel
    | Failed
    | Finished

  /** The dependency graph the workers start from, and how many of them there are. */
  datatype Plan = Plan(graph: Graph, workers: nat)

  /** counters: the wait groups. sent[q]: how many dependers Done has signalled for q.
      gate: goroutines that have not yet reported to the gate in front of closing the channel.
      idle, busy, gone: the workers. failures: whose error is in the failure channel.
      passed, begun, unhealthy: history, which ports EnterStage has let through, for which ports Done
      has begun, and which nodes gave up on their health check. */
  datatype State = State(
    pc: map<string, PC>,
    counters: map<Port, int>,
    sent: map<Port, nat>,
    gate: set<string>,
    closed: bool,
    idle: nat,
    busy: set<string>,
    gone: nat,
    failures: set<string>,
    cancelled: bool,
    passed: set<Port>,
    begun: set<Port>,
    unhealthy: set<string>)

  datatype Step =
    | PassStage(node: string)
    | ExternalReady(node: string)
    | HandOver(node: string)
    | ReportToGate(node: string)
    | CloseChannel
    | WorkDone(node: string)
    | SignalOne(node: string)
    | LeaveDone(node: string)
    | KeepPolling(node: string)
    | GiveUpOnHealth(node: string)
    | WorkFails(node: string)
    | ReportFailure(node: string)
    | WorkerExits
    | CancelContext

  function Init(plan: Plan): State {
    State(
      map n | n in plan.graph.nodes :: Entering(Create),
      plan.graph.counters,
      map q | q in plan.graph.dependers :: 0,
      plan.graph.nodes, false, plan.workers, {}, 0, {}, false, {}, {}, {})
  }

  /** The node has not been taken by a worker yet. */
  predicate BeforeHandOver(pc: PC) {
    pc == Entering(Create) || pc == AwaitingExternal || pc == Sending
  }

  predicate OnWorker(pc: PC) {
    !BeforeHandOver(pc) && pc != Finished && pc != Failed
  }

  /** Where a worker goes after a stage: the health and exit stages only when somebody waits. */
  function After(g: Graph, n: string, stage: Stage): PC {
    match stage
    case Create => Entering(CreateLinks)
    case CreateLinks => Entering(Configure)
    case Configure =>
      if Port(n, Healthy) in g.mustWait then Entering(Healthy)
      else if Port(n, Exit) in g.mustWait then Entering(Exit) else Finished
    case Healthy => if Port(n, Exit) in g.mustWait then Entering(Exit) else Finished
    case Exit => Finished
  }

  /** Moves a node on; a node that starts on a worker takes an idle one, a node that is finished or
      failed gives its worker back. */
  function MoveTo(s: State, n: string, pc: PC): State
    requires n in s.pc && (OnWorker(pc) && !OnWorker(s.pc[n]) ==> s.idle > 0)
  {
    s.(pc := s.pc[n := pc],
       idle := if OnWorker(pc) && !OnWorker(s.pc[n]) then s.idle - 1
               else if OnWorker(s.pc[n]) && !OnWorker(pc) then s.idle + 1 else s.idle,
       busy := if OnWorker(pc) then s.busy + {n} else s.busy - {n})
  }

  predicate Fits(plan: Plan, s: State) {
    s.counters.Keys == s.sent.Keys == plan.graph.dependers.Keys
  }

  // The steps: when each can be taken, and what it does.

  /** EnterStage returns once the wait group of the stage is zero. */
  predicate CanPassStage(plan: Plan, s: State, n: string) {
    n in s.pc && s.pc[n].Entering? && Port(n, s.pc[n].stage) in s.counters
    && s.counters[Port(n, s.pc[n].stage)] == 0
  }

  function DoPassStage(plan: Plan, s: State, n: string): State
    requires CanPassStage(plan, s, n)
  {
    var stage := s.pc[n].stage;
    MoveTo(s.(passed := s.passed + {Port(n, stage)}), n,
           if stage == Create then AwaitingExternal else Working(stage))
  }

  /** The unbuffered channel hands a waiting node to an idle worker. */
  predicate CanHandOver(plan: Plan, s: State, n: string) {
    n in s.pc && s.pc[n] == Sending && s.idle > 0
  }

  function DoHandOver(plan: Plan, s: State, n: string): State
    requires CanHandOver(plan, s, n)
  {
    MoveTo(s, n, Working(Create))
  }

  /** Work is done and Done begins. */
  function DoWorkDone(plan: Plan, s: State, n: string): State
    requires n in s.pc && s.pc[n].Working?
  {
    MoveTo(s.(begun := s.begun + {Port(n, s.pc[n].stage)}), n, Signalling(s.pc[n].stage))
  }

  /** One iteration of the loop in Done: the next depender's wait group goes down by one. */
  predicate CanSignalOne(plan: Plan, s: State, n: string)
    requires Fits(plan, s)
  {
    n in s.pc && s.pc[n].Signalling? && Port(n, s.pc[n].stage) in s.sent
    && s.sent[Port(n, s.pc[n].stage)] < |plan.graph.dependers[Port(n, s.pc[n].stage)]|
  }

  function NextTarget(plan: Plan, s: State, q: Port): Port
    requires Fits(plan, s) && q in s.sent && s.sent[q] < |plan.graph.dependers[q]|
  {
    plan.graph.dependers[q][s.sent[q]]
  }

  function DoSignalOne(plan: Plan, s: State, n: string): State
    requires Fits(plan, s) && CanSignalOne(plan, s, n)
  {
    var q := Port(n, s.pc[n].stage);
    var p := NextTarget(plan, s, q);
    s.(counters := if p in s.counters then s.counters[p := s.counters[p] - 1] else s.counters,
       sent := s.sent[q := s.sent[q] + 1])
  }

  predicate CanLeaveDone(plan: Plan, s: State, n: string)
    requires Fits(plan, s)
  {
    n in s.pc && s.pc[n].Signalling? && Port(n, s.pc[n].stage) in s.sent
    && s.sent[Port(n, s.pc[n].stage)] == |plan.graph.dependers[Port(n, s.pc[n].stage)]|
  }

  function DoLeaveDone(plan: Plan, s: State, n: string): State
    requires Fits(plan, s) && CanLeaveDone(plan, s, n)
  {
    MoveTo(s, n, After(plan.graph, n, s.pc[n].stage))
  }

  /** Pre-deploy, deploy and the link deployment can fail; the later steps only log their errors. */
  predicate CanFail(s: State, n: string) {
    n in s.pc && (s.pc[n] == Working(Create) || s.pc[n] == Working(CreateLinks))
  }

  function DoWorkFails(s: State, n: string): State
    requires CanFail(s, n)
  {
    MoveTo(s, n, Failing)
  }

  /** The health check returns an error: the deployment continues without Done. */
  function DoGiveUpOnHealth(plan: Plan, s: State, n: string): State
    requires n in s.pc && s.pc[n] == Working(Healthy)
  {
    MoveTo(s.(unhealthy := s.unhealthy + {n}), n, After(plan.graph, n, Healthy))
  }

  /** The failure channel is buffered for one error a node. */
  predicate CanReportFailure(plan: Plan, s: State, n: string) {
    n in s.pc && s.pc[n] == Failing && |s.failures| < |plan.graph.nodes|
  }

  function DoReportFailure(plan: Plan, s: State, n: string): State
    requires CanReportFailure(plan, s, n)
  {
    MoveTo(s.(failures := s.failures + {n}), n, Failed)
  }

  predicate Enabled(plan: Plan, s: State, step: Step)
    requires Fits(plan, s)
  {
    match step
    case PassStage(n) => CanPassStage(plan, s, n)
    case ExternalReady(n) => n in s.pc && s.pc[n] == AwaitingExternal
    case HandOver(n) => CanHandOver(plan, s, n)
    case ReportToGate(n) => n in s.gate && n in s.pc && !BeforeHandOver(s.pc[n])
    case CloseChannel => s.gate == {} && !s.closed
    case WorkDone(n) => n in s.pc && s.pc[n].Working?
    case SignalOne(n) => CanSignalOne(plan, s, n)
    case LeaveDone(n) => CanLeaveDone(plan, s, n)
    case KeepPolling(n) => n in s.pc && (s.pc[n] == Working(Healthy) || s.pc[n] == Working(Exit))
    case GiveUpOnHealth(n) => n in s.pc && s.pc[n] == Working(Healthy)
    case WorkFails(n) => CanFail(s, n)
    case ReportFailure(n) => CanReportFailure(plan, s, n)
    case WorkerExits => s.idle > 0 && (s.closed || s.cancelled)
    case CancelContext => !s.cancelled
  }

  function Apply(plan: Plan, s: State, step: Step): State
    requires Fits(plan, s) && Enabled(plan, s, step)
  {
    match step
    case PassStage(n) => DoPassStage(plan, s, n)
    case ExternalReady(n) => MoveTo(s, n, Sending)
    case HandOver(n) => DoHandOver(plan, s, n)
    case ReportToGate(n) => s.(gate := s.gate - {n})
    case CloseChannel => s.(closed := true)
    case WorkDone(n) => DoWorkDone(plan, s, n)
    case SignalOne(n) => DoSignalOne(plan, s, n)
    case LeaveDone(n) => DoLeaveDone(plan, s, n)
    case KeepPolling(n) => s
    case GiveUpOnHealth(n) => DoGiveUpOnHealth(plan, s, n)
    case WorkFails(n) => DoWorkFails(s, n)
    case ReportFailure(n) => DoReportFailure(plan, s, n)
    case WorkerExits => s.(idle := s.idle - 1, gone := s.gone + 1)
    case CancelContext => s.(cancelled := true)
  }

  lemma SignalOneFits(plan: Plan, s: State, n: string)
    requires Fits(plan, s) && CanSignalOne(plan, s, n)
    ensures Fits(plan, DoSignalOne(plan, s, n))
  {
    var q := Port(n, s.pc[n].stage);
    assert (s.sent[q := s.sent[q] + 1]).Keys == s.sent.Keys;
  }

  lemma ApplyFits(plan: Plan, s: State, step: Step)
    requires Fits(plan, s) && Enabled(plan, s, step)
    ensures Fits(plan, Apply(plan, s, step))
  {
    if step.SignalOne? {
      SignalOneFits(plan, s, step.node);
    }
  }

  /** The steps can be taken one after the other from s. */
  ghost predicate IsRun(plan: Plan, s: State, steps: seq<Step>)
    requires Fits(plan, s)
    decreases |steps|
  {
    steps == [] || (Enabled(plan, s, steps[0]) &&
      (ApplyFits(plan, s, steps[0]); IsRun(plan, Apply(plan, s, steps[0]), steps[1..])))
  }

  ghost function End(plan: Plan, s: State, steps: seq<Step>): (end: State)
    requires Fits(plan, s) && IsRun(plan, s, steps)
    ensures Fits(plan, end)
    decreases |steps|
  {
    if steps == [] then s
    else ApplyFits(plan, s, steps[0]); End(plan, Apply(plan, s, steps[0]), steps[1..])
  }
}
