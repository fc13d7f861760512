/** Termination and deadlock freedom of the scheduler. */
module SchedulerLiveness {
  import opened DependencyGraph
  import opened NodeGraph
  import opened Scheduler
  import opened SchedulerSafety
  import opened Wrappers
  import SS = StageSafety

  // Termination: every step except a poll of a health check or container status uses up a token.

  datatype Token =
    | PcToken(node: string, left: int)
    | SignalToken(edge: Edge)
    | GateToken(node: string)
    | FinalToken
    | CancelToken
    | WorkerToken(worker: int)

  /** How many of its own moves a node can still make at most. */
  ghost function Left(pc: PC): nat {
    match pc
    case Failing => 1
    case Failed => 0
    case Finished => 0
    case _ => PositionIsSmall(pc); 25 - Position(pc)
  }

  lemma PositionIsSmall(pc: PC)
    ensures Position(pc) <= 25
    ensures pc != Finished ==> Position(pc) <= 24
    ensures pc != Failing && pc != Failed ==> Position(pc) >= 0
  {
  }

  ghost predicate IsToken(plan: Plan, s: State, t: Token)
    requires Fits(plan, s)
  {
    match t
    case PcToken(n, i) => n in s.pc && 0 <= i < Left(s.pc[n])
    case SignalToken(e) => e.source in s.sent &&
      s.sent[e.source] <= e.index < |plan.graph.dependers[e.source]|
    case GateToken(n) => n in s.gate
    case FinalToken => !s.closed
    case CancelToken => !s.cancelled
    case WorkerToken(i) => s.gone <= i < plan.workers
  }

  ghost function Tokens(plan: Plan, s: State): (tokens: set<Token>)
    requires Fits(plan, s)
    ensures forall t :: t in tokens <==> IsToken(plan, s, t)
  {
    (set n, i | n in s.pc && 0 <= i < Left(s.pc[n]) :: PcToken(n, i))
    + (set q, k | q in s.sent && s.sent[q] <= k < |plan.graph.dependers[q]| :: SignalToken(Edge(q, k)))
    + (set n | n in s.gate :: GateToken(n))
    + (if s.closed then {} else {FinalToken})
    + (if s.cancelled then {} else {CancelToken})
    + (set i | s.gone <= i < plan.workers :: WorkerToken(i))
  }

  lemma MoveSpends(plan: Plan, s: State, n: string, pc: PC)
    requires Fits(plan, s) && n in s.pc && Left(pc) < Left(s.pc[n])
    requires OnWorker(pc) && !OnWorker(s.pc[n]) ==> s.idle > 0
    ensures Tokens(plan, MoveTo(s, n, pc)) < Tokens(plan, s)
  {
    var s' := MoveTo(s, n, pc);
    var t := PcToken(n, Left(s.pc[n]) - 1);
    forall u | u in Tokens(plan, s') ensures u in Tokens(plan, s) {
      if u.PcToken? && u.node != n {
        assert s'.pc[u.node] == s.pc[u.node];
      }
    }
    assert t in Tokens(plan, s) && t !in Tokens(plan, s');
  }

  lemma HistorySpendsNothing(plan: Plan, s: State, s': State)
    requires Fits(plan, s) && Fits(plan, s')
    requires s'.pc == s.pc && s'.sent == s.sent && s'.gate == s.gate && s'.closed == s.closed
    requires s'.cancelled == s.cancelled && s'.gone == s.gone
    ensures Tokens(plan, s') == Tokens(plan, s)
  {
    forall t ensures t in Tokens(plan, s') <==> t in Tokens(plan, s) {
      assert IsToken(plan, s', t) <==> IsToken(plan, s, t);
    }
  }

  lemma SignalSpends(plan: Plan, s: State, n: string)
    requires Fits(plan, s) && CanSignalOne(plan, s, n)
    ensures Fits(plan, DoSignalOne(plan, s, n))
    ensures Tokens(plan, DoSignalOne(plan, s, n)) < Tokens(plan, s)
  {
    SignalOneFits(plan, s, n);
    var s' := DoSignalOne(plan, s, n);
    var q := Port(n, s.pc[n].stage);
    forall t | t in Tokens(plan, s') ensures t in Tokens(plan, s) {
      if t.SignalToken? && t.edge.source != q {
        assert s'.sent[t.edge.source] == s.sent[t.edge.source];
      }
    }
    var t := SignalToken(Edge(q, s.sent[q]));
    assert t in Tokens(plan, s) && t !in Tokens(plan, s');
  }

  lemma WholePoolSpends(plan: Plan, s: State, step: Step)
    requires Fits(plan, s) && s.idle + |s.busy| + s.gone == plan.workers && Enabled(plan, s, step)
    requires step.ReportToGate? || step.CloseChannel? || step.WorkerExits? || step.CancelContext?
    ensures Fits(plan, Apply(plan, s, step))
    ensures Tokens(plan, Apply(plan, s, step)) < Tokens(plan, s)
  {
    var s' := Apply(plan, s, step);
    match step
    case ReportToGate(n) => OneTokenSpent(plan, s, s', GateToken(n));
    case CloseChannel => OneTokenSpent(plan, s, s', FinalToken);
    case WorkerExits => OneTokenSpent(plan, s, s', WorkerToken(s.gone));
    case CancelContext => OneTokenSpent(plan, s, s', CancelToken);
  }

  lemma OneTokenSpent(plan: Plan, s: State, s': State, t: Token)
    requires Fits(plan, s) && Fits(plan, s') && IsToken(plan, s, t) && !IsToken(plan, s', t)
    requires forall u :: IsToken(plan, s', u) ==> IsToken(plan, s, u)
    ensures Tokens(plan, s') < Tokens(plan, s)
  {
    assert t in Tokens(plan, s) && t !in Tokens(plan, s');
  }

  /** Every step but a poll strictly shrinks the set of tokens, whatever the node does next. */
  lemma StepSpends(plan: Plan, s: State, step: Step)
    requires Fits(plan, s) && s.idle + |s.busy| + s.gone == plan.workers
    requires Enabled(plan, s, step) && !step.KeepPolling?
    ensures Fits(plan, Apply(plan, s, step))
    ensures Tokens(plan, Apply(plan, s, step)) < Tokens(plan, s)
  {
    hide Tokens;
    ApplyFits(plan, s, step);
    match step
    case PassStage(n) =>
      var s1 := s.(passed := s.passed + {Port(n, s.pc[n].stage)});
      HistorySpendsNothing(plan, s, s1);
      MoveSpends(plan, s1, n, if s.pc[n].stage == Create then AwaitingExternal else Working(s.pc[n].stage));
    case ExternalReady(n) => MoveSpends(plan, s, n, Sending);
    case HandOver(n) => MoveSpends(plan, s, n, Working(Create));
    case WorkDone(n) =>
      var s1 := s.(begun := s.begun + {Port(n, s.pc[n].stage)});
      HistorySpendsNothing(plan, s, s1);
      MoveSpends(plan, s1, n, Signalling(s.pc[n].stage));
    case SignalOne(n) => SignalSpends(plan, s, n);
    case LeaveDone(n) =>
      AfterIsLater(plan.graph, n, s.pc[n].stage);
      MoveSpends(plan, s, n, After(plan.graph, n, s.pc[n].stage));
    case GiveUpOnHealth(n) =>
      var s1 := s.(unhealthy := s.unhealthy + {n});
      HistorySpendsNothing(plan, s, s1);
      AfterIsLater(plan.graph, n, Healthy);
      MoveSpends(plan, s1, n, After(plan.graph, n, Healthy));
    case WorkFails(n) => MoveSpends(plan, s, n, Failing);
    case ReportFailure(n) =>
      var s1 := s.(failures := s.failures + {n});
      HistorySpendsNothing(plan, s, s1);
      MoveSpends(plan, s1, n, Failed);
    case ReportToGate(n) => WholePoolSpends(plan, s, step);
    case CloseChannel => WholePoolSpends(plan, s, step);
    case WorkerExits => WholePoolSpends(plan, s, step);
    case CancelContext => WholePoolSpends(plan, s, step);
  }

  lemma AfterIsLater(g: Graph, n: string, stage: Stage)
    ensures Left(After(g, n, stage)) < Left(Signalling(stage)) < Left(Working(stage))
  {
  }

  ghost function NonPolls(steps: seq<Step>): nat {
    if steps == [] then 0 else (if steps[0].KeepPolling? then 0 else 1) + NonPolls(steps[1..])
  }

  lemma {:induction false} RunSpends(plan: Plan, s: State, steps: seq<Step>)
    requires Inv(plan, s) && IsRun(plan, s, steps)
    ensures NonPolls(steps) + |Tokens(plan, End(plan, s, steps))| <= |Tokens(plan, s)|
    decreases |steps|
  {
    hide Inv, Tokens;
    InvFits(plan, s);
    if steps != [] {
      var s' := Apply(plan, s, steps[0]);
      StepKeepsInv(plan, s, steps[0]);
      ApplyFits(plan, s, steps[0]);
      RunSpends(plan, s', steps[1..]);
      if !steps[0].KeepPolling? {
        InvPool(plan, s);
        StepSpends(plan, s, steps[0]);
        SubsetSize(Tokens(plan, s'), Tokens(plan, s));
      }
    }
  }

  lemma InvPool(plan: Plan, s: State)
    requires Inv(plan, s)
    ensures s.idle + |s.busy| + s.gone == plan.workers
  {
  }

  /** However the steps interleave, and whatever fails, a deployment makes a bounded number of steps
      besides polling. */
  lemma EveryRunIsBounded(plan: Plan, steps: seq<Step>)
    requires Recorded(plan.graph) && IsRun(plan, Init(plan), steps)
    ensures NonPolls(steps) <= |Tokens(plan, Init(plan))|
  {
    InitInv(plan);
    RunSpends(plan, Init(plan), steps);
  }

  // Deadlock freedom, when nothing fails and awaited health and exit eventually come about.

  /** A step of a deployment in which no deploy call fails, no health check is given up and the context
      is not cancelled. */
  predicate Orderly(step: Step) {
    !step.WorkFails? && !step.GiveUpOnHealth? && !step.CancelContext?
  }

  ghost predicate NothingFailed(s: State) {
    && s.unhealthy == {} && !s.cancelled
    && forall n :: n in s.pc ==> s.pc[n] != Failing && s.pc[n] != Failed
  }

  /** a holds every node that failed or gave up on its health check, and everybody who depends, over any
      number of edges, on one of its members. */
  ghost predicate Spared(plan: Plan, s: State, a: set<string>) {
    && !s.cancelled && s.unhealthy <= a
    && (forall n :: n in s.pc && (s.pc[n] == Failing || s.pc[n] == Failed) ==> n in a)
    && (forall q, k :: q in plan.graph.dependers && 0 <= k < |plan.graph.dependers[q]| && q.node in a ==>
          plan.graph.dependers[q][k].node in a)
  }

  /** The nodes that may have to wait while they hold a worker: somebody is awaited before a stage that
      comes after create. */
  ghost function Inside(g: Graph): (nodes: set<string>)
    ensures forall n :: n in nodes <==> n in g.nodes && exists s :: InsideAt(g, n, s)
  {
    set n | n in g.nodes && exists s :: InsideAt(g, n, s)
  }

  ghost predicate InsideAt(g: Graph, n: string, s: Stage) {
    s != Create && Port(n, s) in g.counters && g.counters[Port(n, s)] > 0
  }

  /** A pool large enough: one worker more than there are nodes that may wait inside. */
  ghost predicate EnoughWorkers(plan: Plan) {
    plan.graph.nodes != {} ==> plan.workers > |Inside(plan.graph)|
  }

  /** Everything is done: all nodes finished, every edge signalled, the channel closed, no worker
      left. */
  ghost predicate Complete(plan: Plan, s: State) {
    && (forall n :: n in s.pc ==> s.pc[n] == Finished)
    && (forall q :: q in plan.graph.dependers ==> q in s.sent && s.sent[q] == |plan.graph.dependers[q]|)
    && (forall p :: p in s.counters ==> s.counters[p] == 0)
    && s.gate == {} && s.closed && s.idle == 0 && s.busy == {} && s.gone == plan.workers
    && s.failures == {}
  }

  lemma {:induction false} MaxRank(names: set<string>, rank: map<string, nat>) returns (n: string)
    requires names != {} && names <= rank.Keys
    ensures n in names && forall m :: m in names ==> rank[m] <= rank[n]
  {
    n :| n in names;
    if names != {n} {
      var other := MaxRank(names - {n}, rank);
      if rank[n] < rank[other] {
        n := other;
      }
    }
  }

  /** A finished node has signalled all its edges: AddDepender made it wait for every stage that somebody
      depends on. */
  lemma FinishedSignalled(plan: Plan, s: State, q: Port)
    requires Inv(plan, s) && q.node !in s.unhealthy && q.node in s.pc && s.pc[q.node] == Finished
    ensures AllSignalled(plan.graph.dependers, s.sent, q)
  {
    var n := q.node;
    assert PastOk(plan.graph.dependers, s.sent, n, s.pc[n], n in s.unhealthy);
    FinishedPast(plan.graph.dependers, s.sent, n, q.stage);
    assert Port(q.node, q.stage) == q;
  }

  lemma FinishedPast(dependers: map<Port, seq<Port>>, sent: map<Port, nat>, n: string, stage: Stage)
    requires sent.Keys == dependers.Keys && PastOk(dependers, sent, n, Finished, false)
    ensures AllSignalled(dependers, sent, Port(n, stage))
  {
    assert PastAt(dependers, sent, n, Finished, stage) by {
      match stage
      case Create =>
      case CreateLinks =>
      case Configure =>
      case Healthy =>
      case Exit =>
    }
  }

  /** When all higher ranked spared nodes are finished, nothing that n waits for is outstanding. */
  lemma TopIsUnblocked(plan: Plan, s: State, rank: map<string, nat>, a: set<string>, n: string, p: Port)
    requires Inv(plan, s) && Spared(plan, s, a) && GraphRanked(plan.graph, rank)
    requires n in s.pc && p.node == n && n in rank && n !in a
    requires forall m :: m in s.pc && m !in a && m in rank && rank[m] > rank[n] ==> s.pc[m] == Finished
    ensures p in s.counters && s.counters[p] == 0
  {
    var dependers := plan.graph.dependers;
    forall e | e in Pending(dependers, s.sent, p) ensures false {
      assert RanksAbove(plan.graph, rank, e.source, dependers[e.source][e.index]);
      assert e.source.node !in a;
      FinishedSignalled(plan, s, e.source);
    }
    assert Pending(dependers, s.sent, p) == {};
  }

  /** The step that a node can take by itself, if it is not blocked. */
  ghost predicate Blocked(s: State, n: string)
    requires n in s.pc
  {
    || s.pc[n] == Finished
    || (s.pc[n] == Sending && s.idle == 0)
    || (s.pc[n].Entering? && !(Port(n, s.pc[n].stage) in s.counters
                               && s.counters[Port(n, s.pc[n].stage)] == 0))
  }

  lemma RoomForFailure(plan: Plan, s: State, n: string)
    requires Inv(plan, s) && n in s.pc && s.pc[n] == Failing
    ensures CanReportFailure(plan, s, n)
  {
    ProperSubset(s.failures, plan.graph.nodes, n);
  }

  lemma UnblockedSteps(plan: Plan, s: State, n: string) returns (step: Step)
    requires Inv(plan, s) && n in s.pc && s.pc[n] != Failed && !Blocked(s, n)
    ensures Fits(plan, s) && Enabled(plan, s, step) && Orderly(step) && !step.KeepPolling?
  {
    match s.pc[n]
    case Entering(stage) => step := PassStage(n);
    case AwaitingExternal => step := ExternalReady(n);
    case Sending => step := HandOver(n);
    case Working(stage) => step := WorkDone(n);
    case Signalling(stage) =>
      var q := Port(n, stage);
      assert q in s.sent;
      step := if s.sent[q] < |plan.graph.dependers[q]| then SignalOne(n) else LeaveDone(n);
    case Failing =>
      RoomForFailure(plan, s, n);
      step := ReportFailure(n);
  }

  lemma PendingIsIncoming(g: Graph, sent: map<Port, nat>, p: Port)
    requires Recorded(g) && sent.Keys == g.dependers.Keys && p in g.counters
    requires Pending(g.dependers, sent, p) != {}
    ensures g.counters[p] > 0
  {
    var e :| e in Pending(g.dependers, sent, p);
    assert e in Incoming(g, p);
  }

  /** A worker can only be stuck on a node that waits inside. */
  lemma BusyIsBlockedInside(plan: Plan, s: State, b: string)
    requires Inv(plan, s) && b in s.busy && b in s.pc && Blocked(s, b)
    ensures b in Inside(plan.graph)
  {
    var p := Port(b, s.pc[b].stage);
    assert p in s.counters && s.counters[p] != 0;
    PendingIsIncoming(plan.graph, s.sent, p);
    assert InsideAt(plan.graph, b, p.stage);
  }

  /** With a node still to be handed over no worker has left. */
  lemma WorkersPresent(plan: Plan, s: State, n: string)
    requires Inv(plan, s) && !s.cancelled && n in s.pc && s.pc[n] == Sending && s.idle == 0
    ensures |s.busy| == plan.workers && plan.graph.nodes != {}
  {
  }

  /** There are more workers than can be stuck. */
  lemma SomeWorkerMoves(plan: Plan, s: State) returns (b: string)
    requires Inv(plan, s) && |s.busy| > |Inside(plan.graph)|
    ensures b in s.busy && b in s.pc && !Blocked(s, b) && s.pc[b] != Failed
  {
    if forall b :: b in s.busy ==> b in Inside(plan.graph) {
      SubsetSize(s.busy, Inside(plan.graph));
      assert false;
    }
    b :| b in s.busy && b !in Inside(plan.graph);
    BusyOnPc(plan, s, b);
    if Blocked(s, b) {
      BusyIsBlockedInside(plan, s, b);
    }
  }

  /** If the highest ranked unfinished spared node is blocked, then for want of a worker. */
  lemma TopWaitsForWorker(plan: Plan, s: State, rank: map<string, nat>, a: set<string>, n: string)
    requires Inv(plan, s) && Spared(plan, s, a) && GraphRanked(plan.graph, rank)
    requires n in s.pc && s.pc[n] != Finished && n !in a && n in rank
    requires forall m :: m in s.pc && m !in a && m in rank && rank[m] > rank[n] ==> s.pc[m] == Finished
    ensures s.pc[n] != Failed
    ensures Blocked(s, n) ==> s.pc[n] == Sending && s.idle == 0 && !s.cancelled
  {
    hide Inv, GraphRanked;
    if s.pc[n].Entering? {
      TopIsUnblocked(plan, s, rank, a, n, Port(n, s.pc[n].stage));
    }
  }

  lemma RankKnown(plan: Plan, s: State, rank: map<string, nat>)
    requires Inv(plan, s) && GraphRanked(plan.graph, rank)
    ensures s.pc.Keys <= rank.Keys
  {
  }

  /** As long as a spared node is unfinished, some step is possible that is more than a poll. */
  lemma UnfinishedProgress(plan: Plan, s: State, rank: map<string, nat>, a: set<string>) returns (step: Step)
    requires Inv(plan, s) && Spared(plan, s, a) && GraphRanked(plan.graph, rank) && EnoughWorkers(plan)
    requires exists n :: n in s.pc && n !in a && s.pc[n] != Finished
    ensures Fits(plan, s) && Enabled(plan, s, step) && Orderly(step) && !step.KeepPolling?
  {
    hide Inv, Enabled, Fits, Spared, GraphRanked, Blocked, Inside;
    var unfinished := set n | n in s.pc && n !in a && s.pc[n] != Finished;
    RankKnown(plan, s, rank);
    var some :| some in s.pc && some !in a && s.pc[some] != Finished;
    assert some in unfinished;
    var top := MaxRank(unfinished, rank);
    TopWaitsForWorker(plan, s, rank, a, top);
    if !Blocked(s, top) {
      step := UnblockedSteps(plan, s, top);
    } else {
      WorkersPresent(plan, s, top);
      var b := SomeWorkerMoves(plan, s);
      step := UnblockedSteps(plan, s, b);
    }
  }

  lemma BusyOnPc(plan: Plan, s: State, b: string)
    requires Inv(plan, s) && b in s.busy
    ensures b in s.pc
  {
  }

  lemma GateOnPc(plan: Plan, s: State, n: string)
    requires Inv(plan, s) && n in s.gate
    ensures n in s.pc
  {
  }

  lemma FinishedProgress(plan: Plan, s: State) returns (step: Step)
    requires Inv(plan, s) && NothingFailed(s) && !Complete(plan, s)
    requires forall n :: n in s.pc ==> s.pc[n] == Finished
    ensures Fits(plan, s) && Enabled(plan, s, step) && Orderly(step) && !step.KeepPolling?
  {
    hide Inv, Complete, NothingFailed;
    InvFits(plan, s);
    if s.gate != {} {
      var n :| n in s.gate;
      GateOnPc(plan, s, n);
      step := ReportToGate(n);
    } else if !s.closed {
      step := CloseChannel;
    } else if s.idle > 0 {
      step := WorkerExits;
    } else {
      AllFinishedComplete(plan, s);
      assert false;
    }
  }

  lemma AllFinishedComplete(plan: Plan, s: State)
    requires Inv(plan, s) && NothingFailed(s)
    requires forall n :: n in s.pc ==> s.pc[n] == Finished
    requires s.gate == {} && s.closed && s.idle == 0
    ensures Complete(plan, s)
  {
    forall q | q in plan.graph.dependers ensures q in s.sent && s.sent[q] == |plan.graph.dependers[q]| {
      FinishedSignalled(plan, s, q);
    }
    forall p | p in s.counters ensures s.counters[p] == 0 {
      assert Pending(plan.graph.dependers, s.sent, p) == {};
    }
    assert s.busy == {};
    assert s.failures == {};
  }

  /** An unfinished deployment can always take a step that is more than a poll. */
  lemma DeadlockFree(plan: Plan, s: State, rank: map<string, nat>) returns (step: Step)
    requires Inv(plan, s) && NothingFailed(s) && GraphRanked(plan.graph, rank) && EnoughWorkers(plan)
    requires !Complete(plan, s)
    ensures Fits(plan, s) && Enabled(plan, s, step) && Orderly(step) && !step.KeepPolling?
  {
    if exists n :: n in s.pc && s.pc[n] != Finished {
      step := UnfinishedProgress(plan, s, rank, {});
    } else {
      step := FinishedProgress(plan, s);
    }
  }

  lemma CompleteIsFinal(plan: Plan, s: State, step: Step)
    requires Fits(plan, s) && Complete(plan, s) && Enabled(plan, s, step)
    ensures step.CancelContext?
  {
  }

  lemma OrderlyStepKeeps(plan: Plan, s: State, step: Step)
    requires Inv(plan, s) && NothingFailed(s) && Enabled(plan, s, step) && Orderly(step)
    ensures NothingFailed(Apply(plan, s, step))
  {
    hide Inv;
    match step
    case PassStage(n) =>
    case ExternalReady(n) =>
    case HandOver(n) =>
    case WorkDone(n) =>
    case SignalOne(n) =>
    case LeaveDone(n) =>
    case GiveUpOnHealth(n) =>
    case WorkFails(n) =>
    case ReportFailure(n) => assert false;
    case ReportToGate(n) =>
    case CloseChannel =>
    case KeepPolling(n) =>
    case WorkerExits =>
    case CancelContext =>
  }

  lemma {:induction false} OrderlyRunKeeps(plan: Plan, s: State, steps: seq<Step>)
    requires Inv(plan, s) && NothingFailed(s) && IsRun(plan, s, steps)
    requires forall i :: 0 <= i < |steps| ==> Orderly(steps[i])
    ensures Inv(plan, End(plan, s, steps)) && NothingFailed(End(plan, s, steps))
    decreases |steps|
  {
    if steps != [] {
      StepKeepsInv(plan, s, steps[0]);
      OrderlyStepKeeps(plan, s, steps[0]);
      ApplyFits(plan, s, steps[0]);
      OrderlyRunKeeps(plan, Apply(plan, s, steps[0]), steps[1..]);
    }
  }

  /** Every run of an acyclic deployment with enough workers in which nothing fails: as long as it is not
      complete it can go on with more than a poll, and when it is complete it cannot. Together with
      EveryRunIsBounded: the deployment ends, with all nodes finished, the channel closed and all workers
      gone. */
  lemma {:induction false} EveryRunFinishes(plan: Plan, steps: seq<Step>)
    requires Recorded(plan.graph) && !GraphHasCycle(plan.graph) && EnoughWorkers(plan)
    requires IsRun(plan, Init(plan), steps)
    requires forall i :: 0 <= i < |steps| ==> Orderly(steps[i])
    ensures var s := End(plan, Init(plan), steps);
            (exists step :: Enabled(plan, s, step) && Orderly(step) && !step.KeepPolling?)
            <==> !Complete(plan, s)
  {
    hide Inv, Complete, Enabled, Recorded, EnoughWorkers, GraphHasCycle, IsRun, End;
    InitInv(plan);
    InvFits(plan, Init(plan));
    OrderlyRunKeeps(plan, Init(plan), steps);
    GoesOnIffUnfinished(plan, End(plan, Init(plan), steps));
  }

  lemma GoesOnIffUnfinished(plan: Plan, s: State)
    requires Recorded(plan.graph) && !GraphHasCycle(plan.graph) && EnoughWorkers(plan)
    requires Inv(plan, s) && NothingFailed(s)
    ensures Fits(plan, s)
    ensures (exists step :: Enabled(plan, s, step) && Orderly(step) && !step.KeepPolling?) <==> !Complete(plan, s)
  {
    hide Complete, Enabled, EnoughWorkers, GraphHasCycle;
    if Complete(plan, s) {
      forall step | Enabled(plan, s, step) ensures step.CancelContext? {
        CompleteIsFinal(plan, s, step);
      }
    } else {
      var rank := AcyclicGraphHasRank(plan.graph);
      var step := DeadlockFree(plan, s, rank);
    }
  }

  /** When nodes fail, those that depend on none of them still finish: as long as one of them has not, the
      run can go on with more than a poll. */
  lemma {:induction false} OthersFinish(plan: Plan, steps: seq<Step>, a: set<string>, n: string)
    requires Recorded(plan.graph) && !GraphHasCycle(plan.graph) && EnoughWorkers(plan)
    requires IsRun(plan, Init(plan), steps) && Spared(plan, End(plan, Init(plan), steps), a)
    requires n in plan.graph.nodes && n !in a
    ensures var s := End(plan, Init(plan), steps);
            && n in s.pc
            && (s.pc[n] != Finished ==> exists step :: Enabled(plan, s, step) && Orderly(step) && !step.KeepPolling?)
  {
    hide Enabled, Spared, EnoughWorkers, GraphHasCycle, GraphRanked;
    var s := End(plan, Init(plan), steps);
    InitInv(plan);
    RunKeepsInv(plan, Init(plan), steps);
    SS.NodeOnPc(plan, s, n);
    hide Inv;
    if s.pc[n] != Finished {
      var rank := AcyclicGraphHasRank(plan.graph);
      var step := UnfinishedProgress(plan, s, rank, a);
    }
  }

  /** Every such run can be continued to the end. */
  lemma {:induction false} CanComplete(plan: Plan, s: State, rank: map<string, nat>) returns (rest: seq<Step>)
    requires Inv(plan, s) && NothingFailed(s) && GraphRanked(plan.graph, rank) && EnoughWorkers(plan)
    ensures Fits(plan, s) && IsRun(plan, s, rest) && Complete(plan, End(plan, s, rest))
    ensures forall i :: 0 <= i < |rest| ==> Orderly(rest[i]) && !rest[i].KeepPolling?
    decreases (InvFits(plan, s); |Tokens(plan, s)|)
  {
    hide Inv, Enabled, Complete, Tokens, NothingFailed;
    InvFits(plan, s);
    rest := [];
    if !Complete(plan, s) {
      var step := DeadlockFree(plan, s, rank);
      var s' := Apply(plan, s, step);
      InvPool(plan, s);
      StepSpends(plan, s, step);
      StepKeepsInv(plan, s, step);
      OrderlyStepKeeps(plan, s, step);
      SubsetSize(Tokens(plan, s'), Tokens(plan, s));
      var more := CanComplete(plan, s', rank);
      rest := [step] + more;
      assert rest[1..] == more;
    }
  }
}
