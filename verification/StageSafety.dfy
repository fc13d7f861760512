/** What the scheduler's invariant means for the nodes of a deployment, in every run. */
module StageSafety {
  import opened DependencyGraph
  import opened Scheduler
  import opened SchedulerSafety
  import opened Wrappers
  import NC = NodeCreation

  // What the history of a state means: which steps the run to it has taken.

  /** Some step of the run lets p through EnterStage. */
  ghost predicate LetsThrough(plan: Plan, s: State, steps: seq<Step>, p: Port)
    requires Fits(plan, s) && IsRun(plan, s, steps)
    decreases |steps|
  {
    steps != [] && (
      || (steps[0] == PassStage(p.node) && s.pc[p.node] == Entering(p.stage))
      || (ApplyFits(plan, s, steps[0]); LetsThrough(plan, Apply(plan, s, steps[0]), steps[1..], p)))
  }

  /** Some step of the run enters the signalling loop of Done for q. */
  ghost predicate BeginsDone(plan: Plan, s: State, steps: seq<Step>, q: Port)
    requires Fits(plan, s) && IsRun(plan, s, steps)
    decreases |steps|
  {
    steps != [] && (
      || (steps[0] == WorkDone(q.node) && s.pc[q.node] == Working(q.stage))
      || (ApplyFits(plan, s, steps[0]); BeginsDone(plan, Apply(plan, s, steps[0]), steps[1..], q)))
  }

  lemma StepHistory(plan: Plan, s: State, step: Step, p: Port)
    requires Fits(plan, s) && Enabled(plan, s, step)
    ensures p in Apply(plan, s, step).passed <==>
            p in s.passed || (step == PassStage(p.node) && s.pc[p.node] == Entering(p.stage))
    ensures p in Apply(plan, s, step).begun <==>
            p in s.begun || (step == WorkDone(p.node) && s.pc[p.node] == Working(p.stage))
  {
  }

  /** passed and begun record exactly the steps taken. */
  lemma {:induction false} HistoryIsTrue(plan: Plan, s: State, steps: seq<Step>, p: Port)
    requires Fits(plan, s) && IsRun(plan, s, steps)
    ensures p in End(plan, s, steps).passed <==> p in s.passed || LetsThrough(plan, s, steps, p)
    ensures p in End(plan, s, steps).begun <==> p in s.begun || BeginsDone(plan, s, steps, p)
    decreases |steps|
  {
    if steps != [] {
      hide Enabled, Apply;
      StepHistory(plan, s, steps[0], p);
      ApplyFits(plan, s, steps[0]);
      HistoryIsTrue(plan, Apply(plan, s, steps[0]), steps[1..], p);
    }
  }

  /** s can be reached by some run from the start. */
  ghost predicate Reachable(plan: Plan, s: State)
    requires Recorded(plan.graph)
  {
    exists steps :: IsRun(plan, Init(plan), steps) && End(plan, Init(plan), steps) == s
  }

  lemma ReachableInv(plan: Plan, s: State)
    requires Recorded(plan.graph) && Reachable(plan, s)
    ensures Inv(plan, s)
  {
    var steps :| IsRun(plan, Init(plan), steps) && End(plan, Init(plan), steps) == s;
    InitInv(plan);
    RunKeepsInv(plan, Init(plan), steps);
  }

  lemma PassedAllSignalled(plan: Plan, s: State, p: Port)
    requires Inv(plan, s) && p in s.passed
    ensures p in s.counters && Pending(plan.graph.dependers, s.sent, p) == {}
  {
  }

  /** Whoever is at work on a stage, or beyond it, was let through. */
  lemma PassedWhereItIs(plan: Plan, s: State, n: string, stage: Stage)
    requires Inv(plan, s) && n in s.pc && HasPassed(s.pc[n], stage)
    ensures Port(n, stage) in s.passed
  {
    assert PassedOk(s.passed, n, s.pc[n]);
    PassedIs(s.passed, n, s.pc[n], stage);
  }

  lemma PassedIs(passed: set<Port>, n: string, pc: PC, stage: Stage)
    requires PassedOk(passed, n, pc) && HasPassed(pc, stage)
    ensures Port(n, stage) in passed
  {
    assert PassedAt(passed, n, pc, stage) by {
      match stage
      case Create =>
      case CreateLinks =>
      case Configure =>
      case Healthy =>
      case Exit =>
    }
  }

  lemma SignalledHasBegun(plan: Plan, s: State, q: Port)
    requires Inv(plan, s) && q in s.sent && s.sent[q] > 0
    ensures q in s.begun
  {
  }

  lemma NotPending(dependers: map<Port, seq<Port>>, sent: map<Port, nat>, q: Port, k: nat)
    requires sent.Keys == dependers.Keys && q in dependers && k < |dependers[q]|
    requires Pending(dependers, sent, dependers[q][k]) == {}
    ensures sent[q] > k
  {
    assert Edge(q, k) !in Pending(dependers, sent, dependers[q][k]);
  }

  lemma EdgeNodes(plan: Plan, s: State, q: Port, k: nat)
    requires Inv(plan, s) && q in plan.graph.dependers && k < |plan.graph.dependers[q]|
    ensures plan.graph.dependers[q][k].node in s.pc && q.node in s.pc && Fits(plan, s)
  {
    assert plan.graph.dependers[q][k] in plan.graph.dependers;
  }

  /** A node is let through EnterStage(p.stage) only after every dependee has entered the signalling loop of
      Done for the awaited stage and has signalled this very edge: in all interleavings, also when
      nodes fail, health checks are given up or the context is cancelled. */
  lemma StageSafety(plan: Plan, s: State, q: Port, k: nat)
    requires Recorded(plan.graph) && Reachable(plan, s)
    requires q in plan.graph.dependers && k < |plan.graph.dependers[q]|
    ensures q in s.sent
    ensures plan.graph.dependers[q][k] in s.passed ==> s.sent[q] > k && q in s.begun
  {
    ReachableInv(plan, s);
    var p := plan.graph.dependers[q][k];
    EdgeNodes(plan, s, q, k);
    hide Inv, Reachable, Recorded, Pending;
    if p in s.passed {
      PassedAllSignalled(plan, s, p);
      NotPending(plan.graph.dependers, s.sent, q, k);
      SignalledHasBegun(plan, s, q);
    }
  }

  /** A failed node stays failed and signals nothing more. */
  lemma {:induction false} FailedForGood(plan: Plan, s: State, steps: seq<Step>, q: Port)
    requires Fits(plan, s) && IsRun(plan, s, steps)
    requires q in s.sent && q.node in s.pc && s.pc[q.node] == Failed
    ensures var s' := End(plan, s, steps);
            q in s'.sent && s'.sent[q] == s.sent[q] && q.node in s'.pc && s'.pc[q.node] == Failed
    decreases |steps|
  {
    if steps != [] {
      ApplyFits(plan, s, steps[0]);
      FailedStep(plan, s, steps[0], q);
      FailedForGood(plan, Apply(plan, s, steps[0]), steps[1..], q);
    }
  }

  lemma FailedStep(plan: Plan, s: State, step: Step, q: Port)
    requires Fits(plan, s) && Enabled(plan, s, step)
    requires q in s.sent && q.node in s.pc && s.pc[q.node] == Failed
    ensures var s' := Apply(plan, s, step);
            q in s'.sent && s'.sent[q] == s.sent[q] && q.node in s'.pc && s'.pc[q.node] == Failed
  {
    hide After, BeforeHandOver, Fits;
    match step
    case SignalOne(n) => assert n != q.node;
    case LeaveDone(n) => assert n != q.node;
    case _ =>
  }

  /** A depender that a failed node has not signalled is never let through, and unless it awaits the node
      only before its healthy or exit stage it never finishes. */
  lemma {:induction false} FailedBlocks(plan: Plan, s: State, steps: seq<Step>, q: Port, k: nat)
    requires Recorded(plan.graph) && Reachable(plan, s) && Fits(plan, s) && IsRun(plan, s, steps)
    requires q in plan.graph.dependers && k < |plan.graph.dependers[q]|
    requires q.node in s.pc && s.pc[q.node] == Failed && s.sent[q] <= k
    ensures var p, s' := plan.graph.dependers[q][k], End(plan, s, steps);
            && p !in s'.passed && p.node in s'.pc
            && (StageIndex(p.stage) <= 2 ==> s'.pc[p.node] != Finished)
  {
    hide Inv, Reachable, Recorded, IsRun, End;
    ReachableInv(plan, s);
    RunKeepsInv(plan, s, steps);
    FailedForGood(plan, s, steps, q);
    UnsignalledBlocks(plan, End(plan, s, steps), q, k);
  }

  lemma UnsignalledBlocks(plan: Plan, s: State, q: Port, k: nat)
    requires Inv(plan, s) && q in plan.graph.dependers && k < |plan.graph.dependers[q]|
    requires q in s.sent && s.sent[q] <= k
    ensures var p := plan.graph.dependers[q][k];
            && p !in s.passed && p.node in s.pc
            && (StageIndex(p.stage) <= 2 ==> s.pc[p.node] != Finished)
  {
    hide Recorded, Pending;
    var p := plan.graph.dependers[q][k];
    EdgeNodes(plan, s, q, k);
    if p in s.passed {
      PassedAllSignalled(plan, s, p);
      NotPending(plan.graph.dependers, s.sent, q, k);
    }
    if StageIndex(p.stage) <= 2 && s.pc[p.node] == Finished {
      PassedWhereItIs(plan, s, p.node, p.stage);
    }
  }

  /** Every counter is the number of edges into its port that are not yet signalled; it is never
      negative, and a signal always finds it positive. */
  lemma CountersCount(plan: Plan, s: State, p: Port)
    requires Recorded(plan.graph) && Reachable(plan, s) && p in plan.graph.dependers
    ensures Fits(plan, s) && s.counters[p] == |Pending(plan.graph.dependers, s.sent, p)|
    ensures forall n :: CanSignalOne(plan, s, n) ==>
              NextTarget(plan, s, Port(n, s.pc[n].stage)) in s.counters &&
              s.counters[NextTarget(plan, s, Port(n, s.pc[n].stage))] > 0
  {
    ReachableInv(plan, s);
    forall n | CanSignalOne(plan, s, n)
      ensures NextTarget(plan, s, Port(n, s.pc[n].stage)) in s.counters &&
              s.counters[NextTarget(plan, s, Port(n, s.pc[n].stage))] > 0
    {
      SignalTarget(plan, s, n);
    }
  }

  /** Nobody is left to send once the channel is closed, and writing an error never blocks. */
  lemma ChannelsAreSafe(plan: Plan, s: State, n: string)
    requires Recorded(plan.graph) && Reachable(plan, s) && n in s.pc
    ensures s.closed ==> !BeforeHandOver(s.pc[n])
    ensures s.pc[n] == Failing ==> CanReportFailure(plan, s, n)
  {
    ReachableInv(plan, s);
    if s.pc[n] == Failing {
      ProperSubset(s.failures, plan.graph.nodes, n);
    }
  }

  lemma {:induction false} ClosedStays(plan: Plan, s: State, steps: seq<Step>, i: nat)
    requires Fits(plan, s) && IsRun(plan, s, steps) && s.closed && i < |steps|
    ensures steps[i] != CloseChannel
    decreases |steps|
  {
    if i > 0 {
      ApplyFits(plan, s, steps[0]);
      ClosedStays(plan, Apply(plan, s, steps[0]), steps[1..], i - 1);
    }
  }

  /** The channel is closed at most once. */
  lemma {:induction false} ClosedOnce(plan: Plan, s: State, steps: seq<Step>, i: nat, j: nat)
    requires Fits(plan, s) && IsRun(plan, s, steps) && i < j < |steps|
    requires steps[i] == CloseChannel
    ensures steps[j] != CloseChannel
    decreases |steps|
  {
    ApplyFits(plan, s, steps[0]);
    if i == 0 {
      ClosedStays(plan, Apply(plan, s, steps[0]), steps[1..], j - 1);
    } else {
      ClosedOnce(plan, Apply(plan, s, steps[0]), steps[1..], i - 1, j - 1);
    }
  }

  lemma StaticEdge(nodes: NC.NodeConfigs, g: Graph, st: string, dyn: string) returns (k: nat)
    requires NC.Planned(nodes, g)
    requires st in nodes && nodes[st].IsStatic() && dyn in nodes && !nodes[dyn].IsStatic()
    ensures Port(st, Create) in g.dependers && k < |g.dependers[Port(st, Create)]|
    ensures g.dependers[Port(st, Create)][k] == Port(dyn, Create)
  {
    var q, p := Port(st, Create), Port(dyn, Create);
    assert NC.StaticDynamicEdges(nodes, q, p) == 1;
    EdgeCountPositive(g, q, p);
    k :| 0 <= k < |g.dependers[q]| && g.dependers[q][k] == p;
  }

  lemma CreatePassed(plan: Plan, s: State, n: string)
    requires Inv(plan, s) && n in plan.graph.nodes
    ensures n in s.pc && (s.pc[n] != Entering(Create) ==> Port(n, Create) in s.passed)
  {
    hide Inv;
    NodeOnPc(plan, s, n);
    if s.pc[n] != Entering(Create) {
      PassedWhereItIs(plan, s, n, Create);
    }
  }

  lemma NodeOnPc(plan: Plan, s: State, n: string)
    requires Inv(plan, s) && n in plan.graph.nodes
    ensures n in s.pc
  {
  }

  /** No node without a static management address gets past the wait in front of its deployment before
      every node that has one has entered Done for its create stage, whatever fails. */
  lemma StaticBeforeDynamic(nodes: NC.NodeConfigs, plan: Plan, s: State, st: string, dyn: string)
    requires NC.Planned(nodes, plan.graph) && Reachable(plan, s)
    requires st in nodes && nodes[st].IsStatic() && dyn in nodes && !nodes[dyn].IsStatic()
    ensures dyn in s.pc
    ensures s.pc[dyn] != Entering(Create) ==> Port(dyn, Create) in s.passed && Port(st, Create) in s.begun
  {
    hide Inv, Reachable, Recorded;
    ReachableInv(plan, s);
    CreatePassed(plan, s, dyn);
    var k := StaticEdge(nodes, plan.graph, st, dyn);
    StageSafety(plan, s, Port(st, Create), k);
  }
}
