/** Which way a node goes through its stages, in every run: the first three stages always, the healthy and
    exit stages only when somebody waits for them. */
module NodeRoutes {
  import opened DependencyGraph
  import opened Scheduler
  import opened SchedulerSafety
  import SS = StageSafety

  /** The node goes through the stage. */
  ghost predicate OnRoute(g: Graph, n: string, stage: Stage) {
    stage == Create || stage == CreateLinks || stage == Configure || Port(n, stage) in g.mustWait
  }

  /** After the stage comes the next stage on the route, or the end. */
  ghost predicate Follows(g: Graph, n: string, stage: Stage, pc: PC) {
    match pc
    case Entering(next) =>
      && OnRoute(g, n, next) && StageIndex(stage) < StageIndex(next)
      && forall t :: OnRoute(g, n, t) && StageIndex(stage) < StageIndex(t) ==> StageIndex(next) <= StageIndex(t)
    case Finished => forall t :: OnRoute(g, n, t) ==> StageIndex(t) <= StageIndex(stage)
    case _ => false
  }

  lemma FollowsOnly(g: Graph, n: string, stage: Stage, pc: PC)
    ensures pc == After(g, n, stage) <==> Follows(g, n, stage, pc)
  {
    assert OnRoute(g, n, Healthy) <==> Port(n, Healthy) in g.mustWait;
    assert OnRoute(g, n, Exit) <==> Port(n, Exit) in g.mustWait;
    assert OnRoute(g, n, CreateLinks) && OnRoute(g, n, Configure);
  }

  /** What a node can become by one step. */
  ghost predicate CanBecome(plan: Plan, s: State, n: string, pc: PC)
    requires Fits(plan, s) && n in s.pc
  {
    match s.pc[n]
    case Entering(stage) =>
      && Port(n, stage) in s.counters && s.counters[Port(n, stage)] == 0
      && pc == if stage == Create then AwaitingExternal else Working(stage)
    case AwaitingExternal => pc == Sending
    case Sending => s.idle > 0 && pc == Working(Create)
    case Working(stage) =>
      || pc == Signalling(stage)
      || ((stage == Create || stage == CreateLinks) && pc == Failing)
      || (stage == Healthy && Follows(plan.graph, n, stage, pc))
    case Signalling(stage) =>
      AllSignalled(plan.graph.dependers, s.sent, Port(n, stage)) && Follows(plan.graph, n, stage, pc)
    case Failing => |s.failures| < |plan.graph.nodes| && pc == Failed
    case Failed => false
    case Finished => false
  }

  ghost predicate Takes(plan: Plan, s: State, step: Step, n: string, pc: PC)
    requires Fits(plan, s)
  {
    Enabled(plan, s, step) && n in Apply(plan, s, step).pc && Apply(plan, s, step).pc[n] == pc
  }

  /** The moves of a node, one by one: exactly these can happen. */
  lemma NodeMoves(plan: Plan, s: State, n: string, pc: PC)
    requires Fits(plan, s) && n in s.pc && pc != s.pc[n]
    ensures (exists step :: Takes(plan, s, step, n, pc)) <==> CanBecome(plan, s, n, pc)
  {
    forall step | Takes(plan, s, step, n, pc) ensures CanBecome(plan, s, n, pc) {
      MoveIsAllowed(plan, s, step, n, pc);
    }
    if CanBecome(plan, s, n, pc) {
      var step := MoveFor(plan, s, n, pc);
    }
  }

  lemma MoveIsAllowed(plan: Plan, s: State, step: Step, n: string, pc: PC)
    requires Fits(plan, s) && n in s.pc && pc != s.pc[n] && Takes(plan, s, step, n, pc)
    ensures CanBecome(plan, s, n, pc)
  {
    hide Follows, After, OnWorker;
    match s.pc[n]
    case Working(stage) => FollowsOnly(plan.graph, n, stage, pc);
    case Signalling(stage) => FollowsOnly(plan.graph, n, stage, pc);
    case _ =>
  }

  lemma MoveFor(plan: Plan, s: State, n: string, pc: PC) returns (step: Step)
    requires Fits(plan, s) && n in s.pc && pc != s.pc[n] && CanBecome(plan, s, n, pc)
    ensures Takes(plan, s, step, n, pc)
  {
    hide After, OnRoute, OnWorker;
    match s.pc[n]
    case Entering(_) => step := PassStage(n);
    case AwaitingExternal => step := ExternalReady(n);
    case Sending => step := HandOver(n);
    case Working(stage) =>
      FollowsOnly(plan.graph, n, stage, pc);
      step := if pc.Signalling? then WorkDone(n) else if pc.Failing? then WorkFails(n) else GiveUpOnHealth(n);
    case Signalling(stage) =>
      FollowsOnly(plan.graph, n, stage, pc);
      step := LeaveDone(n);
    case Failing => step := ReportFailure(n);
  }

  // What a node has passed, in every run.

  ghost predicate RouteOk(g: Graph, passed: set<Port>, n: string, pc: PC) {
    && (pc.Entering? ==> OnRoute(g, n, pc.stage)) && (pc.Working? ==> OnRoute(g, n, pc.stage))
    && (pc.Signalling? ==> OnRoute(g, n, pc.stage))
    && (forall t :: Port(n, t) in passed ==> OnRoute(g, n, t))
    && (forall t :: OnRoute(g, n, t) && Position(pc) > 5 * StageIndex(t) ==> Port(n, t) in passed)
  }

  ghost predicate OnRoutes(plan: Plan, s: State) {
    forall n :: n in s.pc ==> RouteOk(plan.graph, s.passed, n, s.pc[n])
  }

  lemma StepKeepsRoutes(plan: Plan, s: State, step: Step)
    requires Inv(plan, s) && OnRoutes(plan, s) && Fits(plan, s) && Enabled(plan, s, step)
    ensures OnRoutes(plan, Apply(plan, s, step))
  {
    hide Inv, RouteOk, Follows, After;
    var t := Apply(plan, s, step);
    InvKeepsNodes(plan, s, step);
    forall n | n in t.pc ensures RouteOk(plan.graph, t.passed, n, t.pc[n]) {
      assert RouteOk(plan.graph, s.passed, n, s.pc[n]);
      SS.StepHistory(plan, s, step, Port(n, Create));
      NodeKeepsRoute(plan, s, step, n);
    }
  }

  lemma InvKeepsNodes(plan: Plan, s: State, step: Step)
    requires Inv(plan, s) && Fits(plan, s) && Enabled(plan, s, step)
    ensures Apply(plan, s, step).pc.Keys == s.pc.Keys
  {
    InvFits(plan, s);
    StepKeepsInv(plan, s, step);
  }

  lemma NodeKeepsRoute(plan: Plan, s: State, step: Step, n: string)
    requires Fits(plan, s) && Enabled(plan, s, step) && n in s.pc && n in Apply(plan, s, step).pc
    requires RouteOk(plan.graph, s.passed, n, s.pc[n])
    ensures RouteOk(plan.graph, Apply(plan, s, step).passed, n, Apply(plan, s, step).pc[n])
  {
    hide RouteOk, Follows, After;
    var t := Apply(plan, s, step);
    forall stage ensures Port(n, stage) in t.passed <==>
        Port(n, stage) in s.passed || (step == PassStage(n) && s.pc[n] == Entering(stage))
    {
      SS.StepHistory(plan, s, step, Port(n, stage));
    }
    if t.pc[n] != s.pc[n] {
      MoveIsAllowed(plan, s, step, n, t.pc[n]);
      if s.pc[n].Entering? {
        OnlyPassing(plan, s, step, n);
      }
      MoveKeepsRoute(plan.graph, s.passed, t.passed, n, s.pc[n], t.pc[n]);
    } else {
      assert step != PassStage(n);
      SameRoute(plan.graph, s.passed, t.passed, n, s.pc[n]);
    }
  }

  lemma SameRoute(g: Graph, passed: set<Port>, passed': set<Port>, n: string, pc: PC)
    requires RouteOk(g, passed, n, pc) && forall t :: Port(n, t) in passed' <==> Port(n, t) in passed
    ensures RouteOk(g, passed', n, pc)
  {
  }

  lemma OnlyPassing(plan: Plan, s: State, step: Step, n: string)
    requires Fits(plan, s) && Enabled(plan, s, step) && n in s.pc && n in Apply(plan, s, step).pc
    requires s.pc[n].Entering? && Apply(plan, s, step).pc[n] != s.pc[n]
    ensures step == PassStage(n)
  {
    hide After;
  }

  /** What a node can become at all, whatever the counters. */
  ghost predicate Leads(g: Graph, n: string, pc: PC, next: PC) {
    match pc
    case Entering(stage) => next == if stage == Create then AwaitingExternal else Working(stage)
    case AwaitingExternal => next == Sending
    case Sending => next == Working(Create)
    case Working(stage) => next == Signalling(stage) || next == Failing || Follows(g, n, stage, next)
    case Signalling(stage) => Follows(g, n, stage, next)
    case _ => next == Failed
  }

  lemma MoveKeepsRoute(g: Graph, passed: set<Port>, passed': set<Port>, n: string, pc: PC, next: PC)
    requires RouteOk(g, passed, n, pc) && Leads(g, n, pc, next)
    requires forall t :: Port(n, t) in passed' <==> Port(n, t) in passed || pc == Entering(t)
    ensures RouteOk(g, passed', n, next)
  {
  }

  lemma {:induction false} RunKeepsRoutes(plan: Plan, s: State, steps: seq<Step>)
    requires Inv(plan, s) && OnRoutes(plan, s) && Fits(plan, s) && IsRun(plan, s, steps)
    ensures OnRoutes(plan, End(plan, s, steps))
    decreases |steps|
  {
    if steps != [] {
      hide Inv, Enabled, Apply, OnRoutes;
      StepKeepsInv(plan, s, steps[0]);
      StepKeepsRoutes(plan, s, steps[0]);
      ApplyFits(plan, s, steps[0]);
      RunKeepsRoutes(plan, Apply(plan, s, steps[0]), steps[1..]);
    }
  }

  lemma ReachableOnRoute(plan: Plan, s: State)
    requires Recorded(plan.graph) && SS.Reachable(plan, s)
    ensures OnRoutes(plan, s)
  {
    var steps :| IsRun(plan, Init(plan), steps) && End(plan, Init(plan), steps) == s;
    InitInv(plan);
    RunKeepsRoutes(plan, Init(plan), steps);
  }

  /** Nobody polls for health or exit unless somebody waits for it, and a finished node has been through
      exactly the first three stages and the awaited ones of the others. */
  lemma AwaitedStagesOnly(plan: Plan, s: State, n: string, stage: Stage)
    requires Recorded(plan.graph) && SS.Reachable(plan, s) && n in s.pc
    ensures stage in {Healthy, Exit} && s.pc[n] in {Entering(stage), Working(stage), Signalling(stage)} ==>
              Port(n, stage) in plan.graph.mustWait
    ensures s.pc[n] == Finished ==>
              (Port(n, stage) in s.passed
               <==> stage in {Create, CreateLinks, Configure} || Port(n, stage) in plan.graph.mustWait)
  {
    hide RouteOk, SS.Reachable, Recorded;
    ReachableOnRoute(plan, s);
    assert RouteOk(plan.graph, s.passed, n, s.pc[n]);
    RouteMeans(plan.graph, s.passed, n, s.pc[n], stage);
  }

  lemma RouteMeans(g: Graph, passed: set<Port>, n: string, pc: PC, stage: Stage)
    requires RouteOk(g, passed, n, pc)
    ensures pc in {Entering(stage), Working(stage), Signalling(stage)} ==> OnRoute(g, n, stage)
    ensures pc == Finished ==> (Port(n, stage) in passed <==> OnRoute(g, n, stage))
  {
  }
}
