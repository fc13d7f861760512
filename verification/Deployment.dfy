/** From node configurations to a finished deployment: the dependency graph that createNodes builds,
    run by the scheduler. */
module Deployment {
  import opened DependencyGraph
  import opened NodeGraph
  import opened NodeCreation
  import opened Scheduler
  import opened SchedulerSafety
  import opened SchedulerLiveness
  import opened Wrappers

  /** There are never more workers than nodes. */
  function PlanFor(g: Graph, maxWorkers: nat): (plan: Plan)
    ensures plan.graph == g && plan.workers <= |g.nodes| && plan.workers <= maxWorkers
    ensures plan.workers == |g.nodes| || plan.workers == maxWorkers
  {
    Plan(g, if |g.nodes| < maxWorkers then |g.nodes| else maxWorkers)
  }

  /** The nodes of the topology with a wait-for entry at a stage that comes after create. */
  ghost function WaitsInside(nodes: NodeConfigs): (names: set<string>)
    ensures forall n :: n in names <==> n in nodes && exists s :: EntryInside(nodes[n], s)
  {
    set n | n in nodes && exists s :: EntryInside(nodes[n], s)
  }

  predicate EntryInside(node: NodeConfig, s: Stage) {
    s != Create && node.WaitList(s) != []
  }

  lemma EdgeIsIncoming(g: Graph, q: Port, p: Port)
    requires Recorded(g) && EdgeCount(g, q, p) > 0
    ensures p in g.counters && g.counters[p] > 0
  {
    EdgeCountPositive(g, q, p);
    var k :| 0 <= k < |g.dependers[q]| && g.dependers[q][k] == p;
    assert Edge(q, k) in Incoming(g, p);
  }

  lemma IncomingEdge(g: Graph, p: Port) returns (q: Port, k: nat)
    requires Recorded(g) && p in g.counters && g.counters[p] > 0
    ensures q in g.dependers && k < |g.dependers[q]| && g.dependers[q][k] == p
    ensures EdgeCount(g, q, p) > 0
  {
    assert Incoming(g, p) != {};
    var e :| e in Incoming(g, p);
    q, k := e.source, e.index;
    EdgeCountPositive(g, q, p);
  }

  /** Which nodes may have to wait inside their worker can be read off the topology. */
  lemma PlannedInside(nodes: NodeConfigs, g: Graph)
    requires Planned(nodes, g)
    ensures Inside(g) == WaitsInside(nodes)
  {
    hide Recorded, EdgeCount;
    forall n | n in Inside(g) ensures n in WaitsInside(nodes) {
      var s :| InsideAt(g, n, s);
      var q, _ := IncomingEdge(g, Port(n, s));
      assert WaitForEdges(nodes, q, Port(n, s)) > 0;
      assert EntryInside(nodes[n], s);
    }
    forall n | n in WaitsInside(nodes) ensures n in Inside(g) {
      var s :| EntryInside(nodes[n], s);
      var entry := nodes[n].WaitList(s)[0];
      var q := Port(entry.node, entry.stage);
      assert WaitForEdges(nodes, q, Port(n, s)) > 0;
      EdgeIsIncoming(g, q, Port(n, s));
      assert InsideAt(g, n, s);
    }
  }

  /** All wait-for entries of the topology delay the creation of a node, not a later stage. */
  ghost predicate WaitForOnlyAtCreate(nodes: NodeConfigs) {
    forall n, s :: n in nodes && s != Create ==> nodes[n].WaitList(s) == []
  }

  /** Then nobody waits inside, and one worker is enough for any number of nodes. */
  lemma PlannedWaitsOnlyToCreate(nodes: NodeConfigs, g: Graph)
    requires Planned(nodes, g)
    ensures WaitForOnlyAtCreate(nodes) <==> Inside(g) == {}
  {
    PlannedInside(nodes, g);
    if Inside(g) == {} {
      forall n, s | n in nodes && s != Create ensures nodes[n].WaitList(s) == [] {
        assert n !in WaitsInside(nodes);
        assert !EntryInside(nodes[n], s);
      }
    }
  }

  /** In an acyclic graph somebody waits for nobody. */
  lemma NotAllInside(g: Graph)
    requires Recorded(g) && !GraphHasCycle(g) && g.nodes != {}
    ensures |Inside(g)| < |g.nodes|
  {
    var rank := AcyclicGraphHasRank(g);
    var top := MaxRank(g.nodes, rank);
    if top in Inside(g) {
      var s :| InsideAt(g, top, s);
      var q, k := IncomingEdge(g, Port(top, s));
    }
    ProperSubset(Inside(g), g.nodes, top);
  }

  /** From the start, every run in which nothing fails can go on with more than a poll exactly as long as it
      is not complete. */
  ghost predicate NeverStuck(plan: Plan)
    requires Recorded(plan.graph)
  {
    forall steps :: IsOrderlyRun(plan, steps) ==> GoesOnUnlessComplete(plan, End(plan, Init(plan), steps))
  }

  ghost predicate IsOrderlyRun(plan: Plan, steps: seq<Step>)
    requires Recorded(plan.graph)
  {
    IsRun(plan, Init(plan), steps) && forall i :: 0 <= i < |steps| ==> Orderly(steps[i])
  }

  ghost predicate GoesOnUnlessComplete(plan: Plan, s: State)
    requires Fits(plan, s)
  {
    (exists step :: Enabled(plan, s, step) && Orderly(step) && !step.KeepPolling?) <==> !Complete(plan, s)
  }

  /** A deployment that passed the acyclicity gate, in which no deploy call fails and awaited health and
      exit come about, makes a bounded number of steps besides polling and, until it is complete, always
      has one to make, if there are more workers than nodes with a wait-for entry after create. */
  lemma DeploymentFinishes(nodes: NodeConfigs, g: Graph, maxWorkers: nat, steps: seq<Step>)
    requires Planned(nodes, g) && !GraphHasCycle(g)
    requires nodes != map[] ==> maxWorkers > |WaitsInside(nodes)|
    ensures NeverStuck(PlanFor(g, maxWorkers))
    ensures IsRun(PlanFor(g, maxWorkers), Init(PlanFor(g, maxWorkers)), steps) ==>
              NonPolls(steps) <= |Tokens(PlanFor(g, maxWorkers), Init(PlanFor(g, maxWorkers)))|
  {
    var plan := PlanFor(g, maxWorkers);
    PlannedInside(nodes, g);
    assert EnoughWorkers(plan) by {
      if g.nodes != {} {
        NotAllInside(g);
      }
    }
    hide Recorded, Enabled, Complete, EnoughWorkers, GraphHasCycle, Tokens, Inside;
    if IsRun(plan, Init(plan), steps) {
      EveryRunIsBounded(plan, steps);
    }
    forall more | IsOrderlyRun(plan, more) ensures GoesOnUnlessComplete(plan, End(plan, Init(plan), more)) {
      EveryRunFinishes(plan, more);
    }
  }

  /** The dependencies between static and dynamic addresses alone always pass the acyclicity gate. */
  lemma StaticDynamicAlonePasses(nodes: NodeConfigs, g: Graph)
    requires Planned(nodes, g)
    requires forall n, s :: n in nodes ==> nodes[n].WaitList(s) == []
    requires forall n :: n in nodes ==> nodes[n].netnsOf == None
    ensures !GraphHasCycle(g)
  {
    var rank: map<string, nat> := map n | n in nodes :: if nodes[n].IsStatic() then 1 else 0;
    forall q, k | q in g.dependers && 0 <= k < |g.dependers[q]|
      ensures RanksAbove(g, rank, q, g.dependers[q][k])
    {
      var p := g.dependers[q][k];
      assert p in g.dependers;
      EdgeCountPositive(g, q, p);
      assert WaitForEdges(nodes, q, p) == 0 && NetnsEdges(nodes, q, p) == 0;
    }
    RankedGraphIsAcyclic(g, rank);
  }

  /** The first k signals of a Done loop, as steps of the scheduler. */
  function Signals(n: string, k: nat): seq<Step> {
    seq(k, _ => SignalOne(n))
  }

  /** Run without interruption, the steps of a Done loop do to the counters what DependencyNode.Done
      does. */
  lemma {:induction false} DoneIsARunOfSignals(plan: Plan, s: State, n: string, q: Port, k: nat)
    requires Shaped(plan.graph) && Fits(plan, s)
    requires n in s.pc && s.pc[n].Signalling? && q == Port(n, s.pc[n].stage) && q in s.sent
    requires s.sent[q] + k <= |plan.graph.dependers[q]|
    ensures IsRun(plan, s, Signals(n, k))
    ensures End(plan, s, Signals(n, k)).counters ==
              Lowered(s.counters, plan.graph.dependers[q][s.sent[q]..s.sent[q] + k])
    decreases k
  {
    hide Lowered, DoSignalOne, Shaped, IsRun, End, Enabled, Apply;
    if k > 0 {
      OneSignal(plan, s, n, q);
      DoneIsARunOfSignals(plan, DoSignalOne(plan, s, n), n, q, k - 1);
      var from, list := s.sent[q], plan.graph.dependers[q];
      SignalsGoOn(plan, s, n, k, list[from], list[from + 1..from + k]);
      assert list[from..from + k] == [list[from]] + list[from + 1..from + k];
    } else {
      var list := plan.graph.dependers[q];
      assert Signals(n, k) == [] && list[s.sent[q]..s.sent[q] + k] == [];
      LoweredByNothing(s.counters);
      NoSteps(plan, s);
    }
  }

  lemma SignalsGoOn(plan: Plan, s: State, n: string, k: nat, p: Port, rest: seq<Port>)
    requires k > 0 && Fits(plan, s) && Enabled(plan, s, SignalOne(n))
    requires var s' := Apply(plan, s, SignalOne(n));
             && Fits(plan, s') && IsRun(plan, s', Signals(n, k - 1))
             && End(plan, s', Signals(n, k - 1)).counters == Lowered(s'.counters, rest)
             && p in s.counters && s'.counters == s.counters[p := s.counters[p] - 1]
    ensures IsRun(plan, s, Signals(n, k))
    ensures End(plan, s, Signals(n, k)).counters == Lowered(s.counters, [p] + rest)
  {
    hide Lowered, IsRun, End, Enabled, Apply;
    RunGoesOn(plan, s, SignalOne(n), Signals(n, k - 1));
    assert Signals(n, k) == [SignalOne(n)] + Signals(n, k - 1);
    OneSignalFirst(s.counters, p, rest);
  }

  lemma NoSteps(plan: Plan, s: State)
    requires Fits(plan, s)
    ensures IsRun(plan, s, []) && End(plan, s, []) == s
  {
  }

  lemma LoweredByNothing(counters: map<Port, int>)
    ensures Lowered(counters, []) == counters
  {
  }

  lemma OneSignal(plan: Plan, s: State, n: string, q: Port)
    requires Shaped(plan.graph) && Fits(plan, s)
    requires n in s.pc && s.pc[n].Signalling? && q == Port(n, s.pc[n].stage) && q in s.sent
    requires s.sent[q] < |plan.graph.dependers[q]|
    ensures var s' := DoSignalOne(plan, s, n);
            var p := plan.graph.dependers[q][s.sent[q]];
            && Fits(plan, s') && s'.pc == s.pc && s'.sent[q] == s.sent[q] + 1
            && p in s.counters && s'.counters == s.counters[p := s.counters[p] - 1]
    ensures Enabled(plan, s, SignalOne(n)) && Apply(plan, s, SignalOne(n)) == DoSignalOne(plan, s, n)
  {
    assert NextTarget(plan, s, q) in plan.graph.dependers;
    SignalOneFits(plan, s, n);
  }

  lemma RunGoesOn(plan: Plan, s: State, step: Step, rest: seq<Step>)
    requires Fits(plan, s) && Enabled(plan, s, step) && Fits(plan, Apply(plan, s, step))
    requires IsRun(plan, Apply(plan, s, step), rest)
    ensures IsRun(plan, s, [step] + rest)
    ensures End(plan, s, [step] + rest) == End(plan, Apply(plan, s, step), rest)
  {
    assert ([step] + rest)[1..] == rest;
  }

  lemma OneSignalFirst(counters: map<Port, int>, p: Port, rest: seq<Port>)
    requires p in counters
    ensures Lowered(counters, [p] + rest) == Lowered(counters[p := counters[p] - 1], rest)
  {
    forall r | r in counters
      ensures multiset([p] + rest)[r] == multiset(rest)[r] + (if r == p then 1 else 0)
    {
      assert multiset([p] + rest) == multiset([p]) + multiset(rest);
    }
  }
}
