/** What every step of the scheduler keeps, in all interleavings and with failing nodes, and the
    safety of the stages that follows. */
module SchedulerSafety {
  import opened DependencyGraph
  import opened Scheduler

  ghost predicate WellFormed(plan: Plan, s: State) {
    Fits(plan, s) && s.pc.Keys == plan.graph.nodes
  }

  /** Every counter is the number of edges into its port that have not been signalled. */
  ghost predicate CountersExact(plan: Plan, s: State)
    requires WellFormed(plan, s)
  {
    Exact(plan.graph.dependers, s.sent, s.counters)
  }

  ghost predicate Exact(dependers: map<Port, seq<Port>>, sent: map<Port, nat>, counters: map<Port, int>)
    requires sent.Keys == dependers.Keys
  {
    && (forall q :: q in sent ==> sent[q] <= |dependers[q]|)
    && (forall p :: p in counters ==> counters[p] == |Pending(dependers, sent, p)|)
  }

  /** Workers are idle, busy with one node each, or gone, and leave only for a reason. */
  ghost predicate PoolConserved(plan: Plan, s: State) {
    && s.idle + |s.busy| + s.gone == plan.workers
    && s.busy <= s.pc.Keys
    && (forall n :: n in s.pc ==> (n in s.busy <==> OnWorker(s.pc[n])))
    && (s.gone > 0 ==> s.closed || s.cancelled)
  }

  /** The channel is closed only after every node has gone through it. */
  ghost predicate GateHolds(plan: Plan, s: State) {
    && s.gate <= s.pc.Keys
    && (forall n :: n in s.pc && BeforeHandOver(s.pc[n]) ==> n in s.gate)
    && (s.closed ==> s.gate == {})
  }

  ghost predicate FailuresReported(plan: Plan, s: State) {
    s.failures <= s.pc.Keys && forall n :: n in s.pc ==> (n in s.failures <==> s.pc[n] == Failed)
  }

  /** How far a node is; a failing node is nowhere. */
  ghost function Position(pc: PC): int {
    match pc
    case Entering(stage) => 5 * StageIndex(stage)
    case AwaitingExternal => 1
    case Sending => 2
    case Working(stage) => 5 * StageIndex(stage) + 3
    case Signalling(stage) => 5 * StageIndex(stage) + 4
    case Finished => 25
    case _ => -1
  }

  /** EnterStage(stage) has let this program counter through. */
  ghost predicate HasPassed(pc: PC, stage: Stage) {
    || pc == Working(stage) || pc == Signalling(stage)
    || (StageIndex(stage) <= 2 && Position(pc) > 5 * StageIndex(stage))
    || (stage == Create && (pc == Failing || pc == Failed))
  }

  ghost predicate PassedOk(passed: set<Port>, n: string, pc: PC) {
    && PassedAt(passed, n, pc, Create) && PassedAt(passed, n, pc, CreateLinks)
    && PassedAt(passed, n, pc, Configure) && PassedAt(passed, n, pc, Healthy)
    && PassedAt(passed, n, pc, Exit)
  }

  ghost predicate PassedAt(passed: set<Port>, n: string, pc: PC, stage: Stage) {
    HasPassed(pc, stage) ==> Port(n, stage) in passed
  }

  ghost predicate PassedRecorded(plan: Plan, s: State)
    requires WellFormed(plan, s)
  {
    && (forall p :: p in s.passed ==> p in s.counters && s.counters[p] == 0)
    && (forall n :: n in s.pc ==> PassedOk(s.passed, n, s.pc[n]))
  }

  ghost predicate BegunRecorded(plan: Plan, s: State)
    requires WellFormed(plan, s)
  {
    && (forall q :: q in s.sent && s.sent[q] > 0 ==> q in s.begun)
    && (forall n :: n in s.pc && s.pc[n].Signalling? ==> Port(n, s.pc[n].stage) in s.begun)
  }

  /** The node has left the stage behind. */
  ghost predicate Past(pc: PC, stage: Stage) {
    Position(pc) >= 5 * StageIndex(stage) + 5
  }

  /** A stage left behind has signalled all its dependers, unless its health check was given up. */
  ghost predicate PastOk(dependers: map<Port, seq<Port>>, sent: map<Port, nat>, n: string, pc: PC,
      unhealthy: bool)
    requires sent.Keys == dependers.Keys
  {
    && PastAt(dependers, sent, n, pc, Create) && PastAt(dependers, sent, n, pc, CreateLinks)
    && PastAt(dependers, sent, n, pc, Configure)
    && (!unhealthy ==> PastAt(dependers, sent, n, pc, Healthy))
    && PastAt(dependers, sent, n, pc, Exit)
  }

  ghost predicate PastAt(dependers: map<Port, seq<Port>>, sent: map<Port, nat>, n: string, pc: PC,
      stage: Stage)
    requires sent.Keys == dependers.Keys
  {
    Past(pc, stage) ==> AllSignalled(dependers, sent, Port(n, stage))
  }

  ghost predicate AllSignalled(dependers: map<Port, seq<Port>>, sent: map<Port, nat>, q: Port)
    requires sent.Keys == dependers.Keys
  {
    q in sent && sent[q] == |dependers[q]|
  }

  ghost predicate PastIsSignalled(plan: Plan, s: State)
    requires WellFormed(plan, s)
  {
    forall n :: n in s.pc ==>
      PastOk(plan.graph.dependers, s.sent, n, s.pc[n], n in s.unhealthy)
  }

  ghost predicate Inv(plan: Plan, s: State) {
    && Recorded(plan.graph) && WellFormed(plan, s) && CountersExact(plan, s)
    && PoolConserved(plan, s) && GateHolds(plan, s)
    && FailuresReported(plan, s) && PassedRecorded(plan, s) && BegunRecorded(plan, s)
    && PastIsSignalled(plan, s)
  }

  lemma InitInv(plan: Plan)
    requires Recorded(plan.graph)
    ensures Inv(plan, Init(plan))
  {
    hide PassedOk, PastOk;
    var s := Init(plan);
    assert s.sent == NothingSent(plan.graph.dependers);
    forall n | n in s.pc
      ensures PassedOk({}, n, s.pc[n]) && PastOk(plan.graph.dependers, s.sent, n, s.pc[n], false)
    {
      InitNode(plan.graph.dependers, s.sent, n);
    }
  }

  lemma InitNode(dependers: map<Port, seq<Port>>, sent: map<Port, nat>, n: string)
    requires sent.Keys == dependers.Keys
    ensures PassedOk({}, n, Entering(Create))
    ensures PastOk(dependers, sent, n, Entering(Create), false)
  {
  }

  // Moving one node keeps each part of the invariant.

  lemma MovePool(plan: Plan, s: State, n: string, pc: PC)
    requires PoolConserved(plan, s) && n in s.pc
    requires OnWorker(pc) && !OnWorker(s.pc[n]) ==> s.idle > 0
    ensures PoolConserved(plan, MoveTo(s, n, pc))
  {
  }

  lemma MoveGate(plan: Plan, s: State, n: string, pc: PC)
    requires GateHolds(plan, s) && n in s.pc && (BeforeHandOver(pc) ==> BeforeHandOver(s.pc[n]))
    requires OnWorker(pc) && !OnWorker(s.pc[n]) ==> s.idle > 0
    ensures GateHolds(plan, MoveTo(s, n, pc))
  {
  }

  lemma MoveFailures(plan: Plan, s: State, n: string, pc: PC)
    requires FailuresReported(plan, s) && n in s.pc && pc != Failed && s.pc[n] != Failed
    requires OnWorker(pc) && !OnWorker(s.pc[n]) ==> s.idle > 0
    ensures FailuresReported(plan, MoveTo(s, n, pc))
  {
  }

  lemma MovePassed(plan: Plan, s: State, n: string, pc: PC)
    requires WellFormed(plan, s) && PassedRecorded(plan, s) && n in s.pc && PassedOk(s.passed, n, pc)
    requires OnWorker(pc) && !OnWorker(s.pc[n]) ==> s.idle > 0
    ensures WellFormed(plan, MoveTo(s, n, pc)) && PassedRecorded(plan, MoveTo(s, n, pc))
  {
    var s' := MoveTo(s, n, pc);
    forall m | m in s'.pc ensures PassedOk(s'.passed, m, s'.pc[m]) {
      if m != n {
        assert PassedOk(s.passed, m, s.pc[m]);
      }
    }
  }

  lemma MoveBegun(plan: Plan, s: State, n: string, pc: PC)
    requires WellFormed(plan, s) && BegunRecorded(plan, s) && n in s.pc
    requires pc.Signalling? ==> Port(n, pc.stage) in s.begun
    requires OnWorker(pc) && !OnWorker(s.pc[n]) ==> s.idle > 0
    ensures WellFormed(plan, MoveTo(s, n, pc)) && BegunRecorded(plan, MoveTo(s, n, pc))
  {
  }

  lemma MovePast(plan: Plan, s: State, n: string, pc: PC)
    requires WellFormed(plan, s) && PastIsSignalled(plan, s) && n in s.pc
    requires PastOk(plan.graph.dependers, s.sent, n, pc, n in s.unhealthy)
    requires OnWorker(pc) && !OnWorker(s.pc[n]) ==> s.idle > 0
    ensures WellFormed(plan, MoveTo(s, n, pc)) && PastIsSignalled(plan, MoveTo(s, n, pc))
  {
    var s' := MoveTo(s, n, pc);
    forall m | m in s'.pc
      ensures PastOk(plan.graph.dependers, s'.sent, m, s'.pc[m], m in s'.unhealthy)
    {
      if m != n {
        assert PastOk(plan.graph.dependers, s.sent, m, s.pc[m], m in s.unhealthy);
      }
    }
  }

  lemma MoveKeeps(plan: Plan, s: State, n: string, pc: PC)
    requires Inv(plan, s) && n in s.pc && pc != Failed && s.pc[n] != Failed
    requires OnWorker(pc) && !OnWorker(s.pc[n]) ==> s.idle > 0
    requires BeforeHandOver(pc) ==> BeforeHandOver(s.pc[n])
    requires PassedOk(s.passed, n, pc)
    requires pc.Signalling? ==> Port(n, pc.stage) in s.begun
    requires PastOk(plan.graph.dependers, s.sent, n, pc, n in s.unhealthy)
    ensures Inv(plan, MoveTo(s, n, pc))
  {
    MovePool(plan, s, n, pc);
    MoveGate(plan, s, n, pc);
    MoveFailures(plan, s, n, pc);
    MovePassed(plan, s, n, pc);
    MoveBegun(plan, s, n, pc);
    MovePast(plan, s, n, pc);
  }

  // Growing the histories keeps the invariant.

  lemma PassedGrows(plan: Plan, s: State, p: Port)
    requires Inv(plan, s) && p in s.counters && s.counters[p] == 0
    ensures Inv(plan, s.(passed := s.passed + {p}))
  {
    PassedGrowsRecorded(plan, s, p);
  }

  lemma PassedGrowsRecorded(plan: Plan, s: State, p: Port)
    requires WellFormed(plan, s) && PassedRecorded(plan, s) && p in s.counters && s.counters[p] == 0
    ensures PassedRecorded(plan, s.(passed := s.passed + {p}))
  {
    forall m | m in s.pc ensures PassedOk(s.passed + {p}, m, s.pc[m]) {
      assert PassedOk(s.passed, m, s.pc[m]);
    }
  }

  lemma BegunGrows(plan: Plan, s: State, q: Port)
    requires Inv(plan, s)
    ensures Inv(plan, s.(begun := s.begun + {q}))
  {
  }

  lemma UnhealthyGrows(plan: Plan, s: State, n: string)
    requires Inv(plan, s)
    ensures Inv(plan, s.(unhealthy := s.unhealthy + {n}))
  {
    var s' := s.(unhealthy := s.unhealthy + {n});
    forall m | m in s'.pc
      ensures PastOk(plan.graph.dependers, s'.sent, m, s'.pc[m], m in s'.unhealthy)
    {
      assert PastOk(plan.graph.dependers, s.sent, m, s.pc[m], m in s.unhealthy);
    }
  }

  // Each step in turn.

  lemma NodeFacts(plan: Plan, s: State, n: string)
    requires Inv(plan, s) && n in s.pc
    ensures Fits(plan, s) && PassedOk(s.passed, n, s.pc[n])
    ensures PastOk(plan.graph.dependers, s.sent, n, s.pc[n], n in s.unhealthy)
    ensures s.pc[n].Signalling? ==> Port(n, s.pc[n].stage) in s.begun
  {
  }

  lemma PassStageKeeps(plan: Plan, s: State, n: string)
    requires Inv(plan, s) && CanPassStage(plan, s, n)
    ensures Inv(plan, DoPassStage(plan, s, n))
  {
    hide Inv, PassedOk, PastOk, MoveTo;
    NodeFacts(plan, s, n);
    var stage := s.pc[n].stage;
    var pc := if stage == Create then AwaitingExternal else Working(stage);
    PassedGrows(plan, s, Port(n, stage));
    PassedNext(s.passed, n, stage);
    PastNext(plan.graph.dependers, s.sent, n, stage, n in s.unhealthy);
    MoveKeeps(plan, s.(passed := s.passed + {Port(n, stage)}), n, pc);
  }

  lemma PassedNext(passed: set<Port>, n: string, stage: Stage)
    requires PassedOk(passed, n, Entering(stage))
    ensures PassedOk(passed + {Port(n, stage)}, n, Working(stage))
    ensures stage == Create ==> PassedOk(passed + {Port(n, stage)}, n, AwaitingExternal)
  {
  }

  lemma PastNext(dependers: map<Port, seq<Port>>, sent: map<Port, nat>, n: string, stage: Stage,
      unhealthy: bool)
    requires sent.Keys == dependers.Keys && PastOk(dependers, sent, n, Entering(stage), unhealthy)
    ensures PastOk(dependers, sent, n, Working(stage), unhealthy)
    ensures stage == Create ==> PastOk(dependers, sent, n, AwaitingExternal, unhealthy)
  {
  }

  lemma WorkDoneKeeps(plan: Plan, s: State, n: string)
    requires Inv(plan, s) && n in s.pc && s.pc[n].Working?
    ensures Inv(plan, DoWorkDone(plan, s, n))
  {
    hide Inv, PassedOk, PastOk, MoveTo;
    NodeFacts(plan, s, n);
    var stage := s.pc[n].stage;
    BegunGrows(plan, s, Port(n, stage));
    SignallingLikeWorking(plan.graph.dependers, s.sent, s.passed, n, stage, n in s.unhealthy);
    MoveKeeps(plan, s.(begun := s.begun + {Port(n, stage)}), n, Signalling(stage));
  }

  lemma SignallingLikeWorking(dependers: map<Port, seq<Port>>, sent: map<Port, nat>,
      passed: set<Port>, n: string, stage: Stage, unhealthy: bool)
    requires sent.Keys == dependers.Keys && PastOk(dependers, sent, n, Working(stage), unhealthy)
    requires PassedOk(passed, n, Working(stage))
    ensures PastOk(dependers, sent, n, Signalling(stage), unhealthy)
    ensures PassedOk(passed, n, Signalling(stage))
  {
  }

  lemma ExternalReadyKeeps(plan: Plan, s: State, n: string)
    requires Inv(plan, s) && n in s.pc && s.pc[n] == AwaitingExternal
    ensures Inv(plan, MoveTo(s, n, Sending))
  {
    hide Inv, PassedOk, PastOk, MoveTo;
    NodeFacts(plan, s, n);
    EarlySteps(plan.graph.dependers, s.sent, s.passed, n, n in s.unhealthy);
    MoveKeeps(plan, s, n, Sending);
  }

  lemma HandOverKeeps(plan: Plan, s: State, n: string)
    requires Inv(plan, s) && CanHandOver(plan, s, n)
    ensures Inv(plan, DoHandOver(plan, s, n))
  {
    hide Inv, PassedOk, PastOk, MoveTo;
    NodeFacts(plan, s, n);
    EarlySteps(plan.graph.dependers, s.sent, s.passed, n, n in s.unhealthy);
    MoveKeeps(plan, s, n, Working(Create));
  }

  lemma EarlySteps(dependers: map<Port, seq<Port>>, sent: map<Port, nat>, passed: set<Port>,
      n: string, unhealthy: bool)
    requires sent.Keys == dependers.Keys
    ensures PassedOk(passed, n, AwaitingExternal) ==> PassedOk(passed, n, Sending)
    ensures PassedOk(passed, n, Sending) ==> PassedOk(passed, n, Working(Create))
    ensures PassedOk(passed, n, Working(Create)) ==> PassedOk(passed, n, Failing)
    ensures PassedOk(passed, n, Working(CreateLinks)) ==> PassedOk(passed, n, Failing)
    ensures PassedOk(passed, n, Failing) ==> PassedOk(passed, n, Failed)
    ensures PastOk(dependers, sent, n, Sending, unhealthy)
    ensures PastOk(dependers, sent, n, Working(Create), unhealthy)
    ensures PastOk(dependers, sent, n, Failing, unhealthy)
    ensures PastOk(dependers, sent, n, Failed, unhealthy)
  {
    forall pc: PC | Position(pc) < 5 ensures PastOk(dependers, sent, n, pc, unhealthy) {
      NothingPast(dependers, sent, n, pc, unhealthy);
    }
  }

  lemma NothingPast(dependers: map<Port, seq<Port>>, sent: map<Port, nat>, n: string, pc: PC, unhealthy: bool)
    requires sent.Keys == dependers.Keys && Position(pc) < 5
    ensures PastOk(dependers, sent, n, pc, unhealthy)
  {
  }

  lemma WorkFailsKeeps(plan: Plan, s: State, n: string)
    requires Inv(plan, s) && CanFail(s, n)
    ensures Inv(plan, DoWorkFails(s, n))
  {
    hide Inv, PassedOk, PastOk, MoveTo;
    NodeFacts(plan, s, n);
    EarlySteps(plan.graph.dependers, s.sent, s.passed, n, n in s.unhealthy);
    MoveKeeps(plan, s, n, Failing);
  }

  lemma ReportFailureKeeps(plan: Plan, s: State, n: string)
    requires Inv(plan, s) && CanReportFailure(plan, s, n)
    ensures Inv(plan, DoReportFailure(plan, s, n))
  {
    hide CountersExact, PoolConserved, GateHolds, FailuresReported, PassedRecorded, BegunRecorded,
      PastIsSignalled, MoveTo, PassedOk, PastOk;
    NodeFacts(plan, s, n);
    FailureGrows(plan, s, n);
    var s1 := s.(failures := s.failures + {n});
    EarlySteps(plan.graph.dependers, s.sent, s.passed, n, n in s.unhealthy);
    MovePool(plan, s1, n, Failed);
    MoveGate(plan, s1, n, Failed);
    MovePassed(plan, s1, n, Failed);
    MoveBegun(plan, s1, n, Failed);
    MovePast(plan, s1, n, Failed);
  }

  lemma FailureGrows(plan: Plan, s: State, n: string)
    requires Inv(plan, s) && n in s.pc && s.pc[n] == Failing
    ensures var s1 := s.(failures := s.failures + {n});
            && PoolConserved(plan, s1) && GateHolds(plan, s1)
            && WellFormed(plan, s1) && PassedRecorded(plan, s1) && BegunRecorded(plan, s1)
            && PastIsSignalled(plan, s1)
            && FailuresReported(plan, MoveTo(s1, n, Failed))
            && WellFormed(plan, MoveTo(s1, n, Failed)) && CountersExact(plan, MoveTo(s1, n, Failed))
  {
    hide Recorded, PassedOk, PastOk, AllSignalled, Pending;
  }

  lemma LeaveDoneKeeps(plan: Plan, s: State, n: string)
    requires Inv(plan, s) && CanLeaveDone(plan, s, n)
    ensures Inv(plan, DoLeaveDone(plan, s, n))
  {
    hide Inv, PassedOk, PastOk, MoveTo;
    NodeFacts(plan, s, n);
    var stage := s.pc[n].stage;
    SkippedIsSignalled(plan, s, n);
    AfterDone(plan.graph, s.sent, s.passed, n, stage, n in s.unhealthy);
    MoveKeeps(plan, s, n, After(plan.graph, n, stage));
  }

  lemma GiveUpOnHealthKeeps(plan: Plan, s: State, n: string)
    requires Inv(plan, s) && n in s.pc && s.pc[n] == Working(Healthy)
    ensures Inv(plan, DoGiveUpOnHealth(plan, s, n))
  {
    hide Inv, PassedOk, PastOk, MoveTo;
    NodeFacts(plan, s, n);
    SkippedIsSignalled(plan, s, n);
    UnhealthyGrows(plan, s, n);
    AfterGivingUp(plan.graph, s.sent, s.passed, n, n in s.unhealthy);
    MoveKeeps(plan, s.(unhealthy := s.unhealthy + {n}), n, After(plan.graph, n, Healthy));
  }

  /** A stage that nobody awaits has no depender left to signal. */
  ghost predicate SkippedOk(g: Graph, sent: map<Port, nat>, n: string)
    requires sent.Keys == g.dependers.Keys
  {
    && (Port(n, Healthy) !in g.mustWait ==> AllSignalled(g.dependers, sent, Port(n, Healthy)))
    && (Port(n, Exit) !in g.mustWait ==> AllSignalled(g.dependers, sent, Port(n, Exit)))
  }

  lemma SkippedIsSignalled(plan: Plan, s: State, n: string)
    requires Inv(plan, s) && n in s.pc
    ensures SkippedOk(plan.graph, s.sent, n)
  {
    forall stage: Stage | Port(n, stage) !in plan.graph.mustWait
      ensures AllSignalled(plan.graph.dependers, s.sent, Port(n, stage))
    {
      assert plan.graph.dependers[Port(n, stage)] == [];
    }
  }

  lemma AfterDone(g: Graph, sent: map<Port, nat>, passed: set<Port>, n: string, stage: Stage,
      unhealthy: bool)
    requires sent.Keys == g.dependers.Keys && SkippedOk(g, sent, n)
    requires PastOk(g.dependers, sent, n, Signalling(stage), unhealthy)
    requires PassedOk(passed, n, Signalling(stage))
    requires AllSignalled(g.dependers, sent, Port(n, stage))
    ensures PastOk(g.dependers, sent, n, After(g, n, stage), unhealthy)
    ensures PassedOk(passed, n, After(g, n, stage))
  {
  }

  lemma AfterGivingUp(g: Graph, sent: map<Port, nat>, passed: set<Port>, n: string, unhealthy: bool)
    requires sent.Keys == g.dependers.Keys && SkippedOk(g, sent, n)
    requires PastOk(g.dependers, sent, n, Working(Healthy), unhealthy)
    requires PassedOk(passed, n, Working(Healthy))
    ensures PastOk(g.dependers, sent, n, After(g, n, Healthy), true)
    ensures PassedOk(passed, n, After(g, n, Healthy))
  {
  }

  /** One signal lowers exactly its target's number of unsignalled edges, by one. */
  lemma SignalPending(dependers: map<Port, seq<Port>>, sent: map<Port, nat>, q: Port, p: Port)
    requires sent.Keys == dependers.Keys && q in dependers && sent[q] < |dependers[q]|
    ensures |Pending(dependers, sent[q := sent[q] + 1], p)| ==
            |Pending(dependers, sent, p)| - (if p == dependers[q][sent[q]] then 1 else 0)
  {
    var before, after := Pending(dependers, sent, p), Pending(dependers, sent[q := sent[q] + 1], p);
    var e := Edge(q, sent[q]);
    forall f ensures f in after <==> f in before && f != e {
    }
    if p == dependers[q][sent[q]] {
      assert e in before && after == before - {e};
    } else {
      assert after == before;
    }
  }

  /** The target of the next signal still counts it, so EnterStage has not let it through. */
  lemma SignalTarget(plan: Plan, s: State, n: string)
    requires Inv(plan, s) && CanSignalOne(plan, s, n)
    ensures var q := Port(n, s.pc[n].stage);
            var p := NextTarget(plan, s, q);
            p in s.counters && s.counters[p] > 0 && p !in s.passed
  {
    var q := Port(n, s.pc[n].stage);
    var p := NextTarget(plan, s, q);
    assert p in plan.graph.dependers;
    assert Edge(q, s.sent[q]) in Pending(plan.graph.dependers, s.sent, p);
  }

  lemma SignalOneCounters(plan: Plan, s: State, n: string)
    requires Recorded(plan.graph) && WellFormed(plan, s) && CountersExact(plan, s)
    requires CanSignalOne(plan, s, n)
    ensures WellFormed(plan, DoSignalOne(plan, s, n))
    ensures CountersExact(plan, DoSignalOne(plan, s, n))
  {
    hide Exact, Recorded, Incoming;
    var q := Port(n, s.pc[n].stage);
    SignalOneFits(plan, s, n);
    TargetKnown(plan, s, q);
    SignalExact(plan.graph.dependers, s.sent, s.counters, q);
  }

  lemma TargetKnown(plan: Plan, s: State, q: Port)
    requires Recorded(plan.graph) && WellFormed(plan, s)
    requires q in s.sent && s.sent[q] < |plan.graph.dependers[q]|
    ensures NextTarget(plan, s, q) in s.counters
  {
    assert NextTarget(plan, s, q) in plan.graph.dependers;
  }

  lemma SignalExact(dependers: map<Port, seq<Port>>, sent: map<Port, nat>, counters: map<Port, int>, q: Port)
    requires sent.Keys == dependers.Keys && q in dependers && sent[q] < |dependers[q]|
    requires dependers[q][sent[q]] in counters && Exact(dependers, sent, counters)
    ensures var t := dependers[q][sent[q]];
            Exact(dependers, sent[q := sent[q] + 1], counters[t := counters[t] - 1])
  {
    hide Pending;
    forall p | p in counters
      ensures |Pending(dependers, sent[q := sent[q] + 1], p)|
           == counters[p] - (if p == dependers[q][sent[q]] then 1 else 0)
    {
      SignalPending(dependers, sent, q, p);
    }
  }

  lemma SignalOnePast(plan: Plan, s: State, n: string)
    requires WellFormed(plan, s) && PastIsSignalled(plan, s) && CanSignalOne(plan, s, n)
    ensures WellFormed(plan, DoSignalOne(plan, s, n))
    ensures PastIsSignalled(plan, DoSignalOne(plan, s, n))
  {
    var s' := DoSignalOne(plan, s, n);
    SignalOneFits(plan, s, n);
    forall m | m in s'.pc
      ensures PastOk(plan.graph.dependers, s'.sent, m, s'.pc[m], m in s'.unhealthy)
    {
      assert PastOk(plan.graph.dependers, s.sent, m, s.pc[m], m in s.unhealthy);
    }
  }

  lemma SignalOneOthers(plan: Plan, s: State, n: string)
    requires Inv(plan, s) && CanSignalOne(plan, s, n)
    ensures var s' := DoSignalOne(plan, s, n);
            && PoolConserved(plan, s') && GateHolds(plan, s') && FailuresReported(plan, s')
  {
  }

  lemma SignalOneHistory(plan: Plan, s: State, n: string)
    requires Inv(plan, s) && CanSignalOne(plan, s, n)
    ensures WellFormed(plan, DoSignalOne(plan, s, n))
    ensures PassedRecorded(plan, DoSignalOne(plan, s, n))
    ensures BegunRecorded(plan, DoSignalOne(plan, s, n))
  {
    hide CountersExact, PoolConserved, GateHolds, FailuresReported, PastIsSignalled, Recorded, PassedOk;
    SignalOneFits(plan, s, n);
    SignalTarget(plan, s, n);
  }

  lemma SignalOneKeeps(plan: Plan, s: State, n: string)
    requires Inv(plan, s) && CanSignalOne(plan, s, n)
    ensures Inv(plan, DoSignalOne(plan, s, n))
  {
    hide CountersExact, PoolConserved, GateHolds, FailuresReported, PassedRecorded, BegunRecorded,
      PastIsSignalled;
    SignalOneOthers(plan, s, n);
    SignalOneCounters(plan, s, n);
    SignalOneHistory(plan, s, n);
    SignalOnePast(plan, s, n);
  }

  /** Every step of every run keeps the invariant. */
  lemma StepKeepsInv(plan: Plan, s: State, step: Step)
    requires Inv(plan, s) && Enabled(plan, s, step)
    ensures Inv(plan, Apply(plan, s, step))
  {
    hide Inv;
    InvFits(plan, s);
    match step
    case PassStage(n) => PassStageKeeps(plan, s, n);
    case ExternalReady(n) => ExternalReadyKeeps(plan, s, n);
    case HandOver(n) => HandOverKeeps(plan, s, n);
    case WorkDone(n) => WorkDoneKeeps(plan, s, n);
    case SignalOne(n) => SignalOneKeeps(plan, s, n);
    case LeaveDone(n) => LeaveDoneKeeps(plan, s, n);
    case GiveUpOnHealth(n) => GiveUpOnHealthKeeps(plan, s, n);
    case WorkFails(n) => WorkFailsKeeps(plan, s, n);
    case ReportFailure(n) => ReportFailureKeeps(plan, s, n);
    case KeepPolling(n) =>
    case ReportToGate(n) => WholePoolKeeps(plan, s, step);
    case CloseChannel => WholePoolKeeps(plan, s, step);
    case WorkerExits => WholePoolKeeps(plan, s, step);
    case CancelContext => WholePoolKeeps(plan, s, step);
  }

  lemma InvFits(plan: Plan, s: State)
    requires Inv(plan, s)
    ensures Fits(plan, s)
  {
  }

  lemma WholePoolKeeps(plan: Plan, s: State, step: Step)
    requires Inv(plan, s) && Enabled(plan, s, step)
    requires step.ReportToGate? || step.CloseChannel? || step.WorkerExits? || step.CancelContext?
    ensures Inv(plan, Apply(plan, s, step))
  {
    hide CountersExact, FailuresReported, PassedRecorded, BegunRecorded, PastIsSignalled, Recorded, OnWorker,
      BeforeHandOver;
    SameNodes(plan, s, Apply(plan, s, step));
  }

  lemma SameNodes(plan: Plan, s: State, s': State)
    requires Inv(plan, s) && PoolConserved(plan, s') && GateHolds(plan, s')
    requires s' == s.(gate := s'.gate, closed := s'.closed, idle := s'.idle, gone := s'.gone,
                      cancelled := s'.cancelled)
    ensures Inv(plan, s')
  {
    hide Recorded, PassedOk, PastOk, Pending;
  }

  lemma {:induction false} RunKeepsInv(plan: Plan, s: State, steps: seq<Step>)
    requires Inv(plan, s) && IsRun(plan, s, steps)
    ensures Inv(plan, End(plan, s, steps))
    decreases |steps|
  {
    if steps != [] {
      StepKeepsInv(plan, s, steps[0]);
      ApplyFits(plan, s, steps[0]);
      RunKeepsInv(plan, Apply(plan, s, steps[0]), steps[1..]);
    }
  }
}
