/** Why the worker count matters: nodes that wait inside the worker can use up any pool that has no more
    workers than there are such nodes, although the dependency graph is acyclic. */
module PoolStarvation {
  import opened DependencyGraph
  import opened NodeGraph
  import opened NodeCreation
  import opened Scheduler
  import opened SchedulerSafety
  import opened SchedulerLiveness
  import opened Deployment
  import opened Wrappers

  const HUB := "hub"

  /** d, dd, ddd, ... */
  function Waiter(i: nat): (name: string)
    ensures |name| == i + 1 && name != HUB
  {
    var name := seq(i + 1, _ => 'd');
    assert name[0] != HUB[0];
    name
  }

  function HubPort(): Port {
    Port(HUB, Create)
  }

  function WaitingPort(i: nat): Port {
    Port(Waiter(i), CreateLinks)
  }

  ghost function Names(k: nat): (names: set<string>)
    ensures forall n :: n in names <==> n == HUB || IsWaiter(k, n)
  {
    {HUB} + Waiters(k)
  }

  ghost function Waiters(k: nat): (names: set<string>)
    ensures forall n :: n in names <==> IsWaiter(k, n)
  {
    set i: nat | i < k :: Waiter(i)
  }

  ghost predicate IsWaiter(k: nat, n: string) {
    exists i: nat :: i < k && n == Waiter(i)
  }

  /** k nodes that wait, before creating their links, for the hub to be created. */
  ghost function StarNodes(k: nat): NodeConfigs {
    map n | n in Names(k) ::
      NodeConfig("", "", None, if n == HUB then map[] else map[CreateLinks := [WaitFor(HUB, Create)]], {})
  }

  ghost function AllPorts(names: set<string>): (ports: set<Port>)
    ensures forall p :: p in ports <==> p.node in names
  {
    set n, s | n in names && s in AllStages() :: Port(n, s)
  }

  function WaitingPorts(k: nat): (ports: seq<Port>)
    ensures |ports| == k && forall i :: 0 <= i < k ==> ports[i] == WaitingPort(i)
  {
    seq(k, i requires 0 <= i < k => WaitingPort(i))
  }

  ghost function StarGraph(k: nat): Graph {
    var ports := AllPorts(Names(k));
    Graph(
      Names(k),
      map q | q in ports :: if q == HubPort() then WaitingPorts(k) else [],
      map p | p in ports :: if p.node != HUB && p.stage == CreateLinks then 1 else 0,
      if k == 0 then {} else {HubPort()})
  }

  lemma StarRecorded(k: nat)
    ensures Recorded(StarGraph(k))
  {
    var g := StarGraph(k);
    forall q, i | q in g.dependers && 0 <= i < |g.dependers[q]|
      ensures g.dependers[q][i] in g.dependers
    {
      assert g.dependers[q][i] == WaitingPort(i);
      assert Waiter(i) in Names(k);
    }
    forall p | p in g.counters ensures g.counters[p] == |Incoming(g, p)| {
      StarIncoming(k, p);
    }
  }

  lemma StarIncoming(k: nat, p: Port)
    requires p in StarGraph(k).counters
    ensures |Incoming(StarGraph(k), p)| == StarGraph(k).counters[p]
  {
    var g := StarGraph(k);
    if p.node != HUB && p.stage == CreateLinks {
      var i: nat :| i < k && p.node == Waiter(i);
      assert HubPort() in g.dependers && g.dependers[HubPort()][i] == WaitingPort(i) == p;
      forall e ensures e in Incoming(g, p) <==> e == Edge(HubPort(), i) {
        if e in Incoming(g, p) {
          assert e.source == HubPort() && WaitingPort(e.index) == p;
        }
      }
      assert Incoming(g, p) == {Edge(HubPort(), i)};
    } else {
      forall e ensures e !in Incoming(g, p) {
        if e.source == HubPort() && 0 <= e.index < k {
          assert g.dependers[e.source][e.index] == WaitingPort(e.index) != p;
        }
      }
      assert Incoming(g, p) == {};
    }
  }

  lemma StarAcyclic(k: nat)
    ensures !GraphHasCycle(StarGraph(k))
  {
    var g := StarGraph(k);
    var rank: map<string, nat> := map n | n in Names(k) :: if n == HUB then 1 else 0;
    forall q, i | q in g.dependers && 0 <= i < |g.dependers[q]|
      ensures RanksAbove(g, rank, q, g.dependers[q][i])
    {
      assert g.dependers[q][i] == WaitingPort(i);
      assert Waiter(i) in Names(k);
    }
    RankedGraphIsAcyclic(g, rank);
  }

  lemma {:induction false} WaitingOnce(k: nat, p: Port)
    ensures multiset(WaitingPorts(k))[p] == if IsWaiter(k, p.node) && p.stage == CreateLinks then 1 else 0
  {
    if k > 0 {
      WaitingOnce(k - 1, p);
      assert WaitingPorts(k) == WaitingPorts(k - 1) + [WaitingPort(k - 1)];
      OneMoreWaiter(k - 1, p.node);
    }
  }

  /** The star is what createNodes builds from these nodes. */
  lemma StarPlanned(k: nat)
    ensures Planned(StarNodes(k), StarGraph(k))
  {
    var nodes, g := StarNodes(k), StarGraph(k);
    StarRecorded(k);
    forall q, p ensures EdgeCount(g, q, p) ==
        StaticDynamicEdges(nodes, q, p) + WaitForEdges(nodes, q, p) + NetnsEdges(nodes, q, p)
    {
      StarEdge(k, q, p);
    }
    assert nodes.Keys == Names(k);
  }

  lemma StarEdge(k: nat, q: Port, p: Port)
    ensures EdgeCount(StarGraph(k), q, p) == WaitForEdges(StarNodes(k), q, p)
    ensures StaticDynamicEdges(StarNodes(k), q, p) == 0 == NetnsEdges(StarNodes(k), q, p)
  {
    WaitingOnce(k, p);
    assert EdgeCount(StarGraph(k), q, p)
        == if q == HubPort() && IsWaiter(k, p.node) && p.stage == CreateLinks then 1 else 0;
    assert WaitFor(q.node, q.stage) == WaitFor(HUB, Create) <==> q == HubPort();
  }

  lemma StarInside(k: nat)
    ensures WaitsInside(StarNodes(k)) == Waiters(k) && |Waiters(k)| == k && |Names(k)| == k + 1
  {
    forall n | n in Waiters(k) ensures n in WaitsInside(StarNodes(k)) {
      assert EntryInside(StarNodes(k)[n], CreateLinks);
    }
    WaitersCount(k);
  }

  lemma {:induction false} WaitersCount(k: nat)
    ensures |Waiters(k)| == k
  {
    if k > 0 {
      WaitersCount(k - 1);
      forall n ensures n in Waiters(k) <==> n in Waiters(k - 1) || n == Waiter(k - 1) {
        OneMoreWaiter(k - 1, n);
      }
      assert Waiters(k) == Waiters(k - 1) + {Waiter(k - 1)};
      OneMoreWaiter(k - 1, Waiter(k - 1));
    }
  }

  lemma OneMoreWaiter(k: nat, n: string)
    ensures IsWaiter(k + 1, n) <==> IsWaiter(k, n) || n == Waiter(k)
    ensures !IsWaiter(k, Waiter(k))
  {
    if IsWaiter(k, n) {
      var i: nat :| i < k && n == Waiter(i);
      assert i < k + 1;
    }
  }

  /** Of the first i waiters, as many as there are workers are blocked inside one, and the others wait for a
      worker. */
  ghost predicate Starved(k: nat, w: nat, s: State, i: nat) {
    && w <= k && i <= k && Fits(Plan(StarGraph(k), w), s) && s.pc.Keys == Names(k)
    && s.counters == StarGraph(k).counters
    && (forall q :: q in s.sent ==> s.sent[q] == 0)
    && !s.closed && !s.cancelled && s.idle == w - Taken(w, i)
    && s.pc[HUB] == Entering(Create)
    && (forall j: nat :: j < k ==> WaiterAt(w, s, i, j))
    && HUB in s.gate
  }

  function Taken(w: nat, i: nat): nat {
    if i < w then i else w
  }

  ghost predicate WaiterAt(w: nat, s: State, i: nat, j: nat) {
    && Waiter(j) in s.pc
    && s.pc[Waiter(j)] == (if j >= i then Entering(Create) else if j < w then Entering(CreateLinks) else Sending)
    && (Waiter(j) in s.gate <==> j >= Taken(w, i))
  }

  lemma StarvedStart(k: nat, w: nat)
    requires w <= k
    ensures Starved(k, w, Init(Plan(StarGraph(k), w)), 0)
    ensures Leads(Plan(StarGraph(k), w), Init(Plan(StarGraph(k), w)), [], Init(Plan(StarGraph(k), w)))
  {
    var s := Init(Plan(StarGraph(k), w));
    forall j: nat | j < k ensures WaiterAt(w, s, 0, j) {
      assert Waiter(j) in Names(k);
    }
  }

  /** A run from s to t. */
  ghost predicate Leads(plan: Plan, s: State, steps: seq<Step>, t: State) {
    Fits(plan, s) && IsRun(plan, s, steps) && End(plan, s, steps) == t
    && forall i :: 0 <= i < |steps| ==> Orderly(steps[i])
  }

  lemma LeadsOne(plan: Plan, s: State, step: Step)
    requires Fits(plan, s) && Enabled(plan, s, step) && Orderly(step)
    ensures Leads(plan, s, [step], Apply(plan, s, step))
  {
    ApplyFits(plan, s, step);
    assert [step][1..] == [];
    assert IsRun(plan, Apply(plan, s, step), []);
  }

  lemma {:induction false} LeadsOn(plan: Plan, s: State, a: seq<Step>, t: State, b: seq<Step>, u: State)
    requires Leads(plan, s, a, t) && Leads(plan, t, b, u)
    ensures Leads(plan, s, a + b, u)
    decreases |a|
  {
    if a == [] {
      assert a + b == b;
    } else {
      ApplyFits(plan, s, a[0]);
      assert (a + b)[1..] == a[1..] + b;
      LeadsOn(plan, Apply(plan, s, a[0]), a[1..], t, b, u);
    }
  }

  lemma LeadsStep(plan: Plan, s: State, a: seq<Step>, t: State, step: Step) returns (b: seq<Step>)
    requires Leads(plan, s, a, t) && Fits(plan, t) && Enabled(plan, t, step) && Orderly(step)
    ensures b == a + [step] && Leads(plan, s, b, Apply(plan, t, step))
    ensures Fits(plan, Apply(plan, t, step))
  {
    LeadsOne(plan, t, step);
    ApplyFits(plan, t, step);
    b := a + [step];
    LeadsOn(plan, s, a, t, [step], Apply(plan, t, step));
  }

  /** t is s after steps that concern node n alone: its program counter, the idle workers and the gate
      change, but no counter and no signal. */
  ghost predicate Differs(s: State, t: State, n: string, pc: PC, idle: nat, gate: set<string>) {
    && t.pc == s.pc[n := pc] && t.idle == idle && t.gate == gate
    && t.counters == s.counters && t.sent == s.sent
    && t.closed == s.closed && t.cancelled == s.cancelled
  }

  lemma Queue(plan: Plan, s: State, n: string) returns (steps: seq<Step>, t: State)
    requires Fits(plan, s) && n in s.pc && s.pc[n] == Entering(Create)
    requires Port(n, Create) in s.counters && s.counters[Port(n, Create)] == 0
    ensures Leads(plan, s, steps, t) && Fits(plan, t)
    ensures Differs(s, t, n, Sending, s.idle, s.gate)
  {
    hide Leads, IsRun, Enabled, Apply;
    Pass(plan, s, n);
    LeadsOne(plan, s, PassStage(n));
    steps, t := [PassStage(n)], Apply(plan, s, PassStage(n));
    Ready(plan, t, n);
    steps := LeadsStep(plan, s, steps, t, ExternalReady(n));
    t := Apply(plan, t, ExternalReady(n));
  }

  lemma TakeWorker(plan: Plan, s: State, n: string) returns (steps: seq<Step>, t: State)
    requires Fits(plan, s) && n in s.pc && s.pc[n] == Entering(Create) && s.idle > 0
    requires Port(n, Create) in s.counters && s.counters[Port(n, Create)] == 0
    ensures Leads(plan, s, steps, t) && Fits(plan, t)
    ensures Differs(s, t, n, Working(Create), s.idle - 1, s.gate)
  {
    hide Leads, IsRun, Enabled, Apply;
    steps, t := Queue(plan, s, n);
    TakeOn(plan, t, n);
    steps := LeadsStep(plan, s, steps, t, HandOver(n));
    t := Apply(plan, t, HandOver(n));
  }

  lemma Pass(plan: Plan, s: State, n: string)
    requires Fits(plan, s) && n in s.pc && s.pc[n] == Entering(Create)
    requires Port(n, Create) in s.counters && s.counters[Port(n, Create)] == 0
    ensures Enabled(plan, s, PassStage(n)) && Fits(plan, Apply(plan, s, PassStage(n)))
    ensures Differs(s, Apply(plan, s, PassStage(n)), n, AwaitingExternal, s.idle, s.gate)
  {
  }

  lemma Ready(plan: Plan, s: State, n: string)
    requires Fits(plan, s) && n in s.pc && s.pc[n] == AwaitingExternal
    ensures Enabled(plan, s, ExternalReady(n)) && Fits(plan, Apply(plan, s, ExternalReady(n)))
    ensures Differs(s, Apply(plan, s, ExternalReady(n)), n, Sending, s.idle, s.gate)
  {
  }

  lemma TakeOn(plan: Plan, s: State, n: string)
    requires Fits(plan, s) && n in s.pc && s.pc[n] == Sending && s.idle > 0
    ensures Enabled(plan, s, HandOver(n)) && Fits(plan, Apply(plan, s, HandOver(n)))
    ensures Differs(s, Apply(plan, s, HandOver(n)), n, Working(Create), s.idle - 1, s.gate)
  {
  }

  lemma FinishWork(plan: Plan, s: State, n: string)
    requires Fits(plan, s) && n in s.pc && s.pc[n] == Working(Create)
    ensures Enabled(plan, s, WorkDone(n)) && Fits(plan, Apply(plan, s, WorkDone(n)))
    ensures Differs(s, Apply(plan, s, WorkDone(n)), n, Signalling(Create), s.idle, s.gate)
  {
  }

  lemma NobodyToSignal(plan: Plan, s: State, n: string)
    requires Fits(plan, s) && n in s.pc && s.pc[n] == Signalling(Create)
    requires Port(n, Create) in s.sent && s.sent[Port(n, Create)] == 0
    requires plan.graph.dependers[Port(n, Create)] == []
    ensures Enabled(plan, s, LeaveDone(n)) && Fits(plan, Apply(plan, s, LeaveDone(n)))
    ensures Differs(s, Apply(plan, s, LeaveDone(n)), n, Entering(CreateLinks), s.idle, s.gate)
  {
  }

  lemma Report(plan: Plan, s: State, n: string)
    requires Fits(plan, s) && n in s.pc && s.pc[n] == Entering(CreateLinks) && n in s.gate
    ensures Enabled(plan, s, ReportToGate(n)) && Fits(plan, Apply(plan, s, ReportToGate(n)))
    ensures Differs(s, Apply(plan, s, ReportToGate(n)), n, Entering(CreateLinks), s.idle, s.gate - {n})
  {
  }

  lemma BlockInside(plan: Plan, s: State, n: string) returns (steps: seq<Step>, t: State)
    requires Fits(plan, s) && n in s.pc && s.pc[n] == Working(Create) && n in s.gate
    requires Port(n, Create) in s.sent && s.sent[Port(n, Create)] == 0
    requires plan.graph.dependers[Port(n, Create)] == []
    ensures Leads(plan, s, steps, t) && Fits(plan, t)
    ensures Differs(s, t, n, Entering(CreateLinks), s.idle, s.gate - {n})
  {
    hide Leads, IsRun, Enabled, Apply;
    FinishWork(plan, s, n);
    LeadsOne(plan, s, WorkDone(n));
    steps, t := [WorkDone(n)], Apply(plan, s, WorkDone(n));
    NobodyToSignal(plan, t, n);
    steps := LeadsStep(plan, s, steps, t, LeaveDone(n));
    t := Apply(plan, t, LeaveDone(n));
    Report(plan, t, n);
    steps := LeadsStep(plan, s, steps, t, ReportToGate(n));
    t := Apply(plan, t, ReportToGate(n));
  }

  lemma NextWaiter(k: nat, w: nat, s: State, i: nat)
    requires Starved(k, w, s, i) && i < k
    ensures var n := Waiter(i);
            && Fits(Plan(StarGraph(k), w), s) && s.idle == w - Taken(w, i)
            && n in s.pc && s.pc[n] == Entering(Create) && n in s.gate
            && Port(n, Create) in s.counters && s.counters[Port(n, Create)] == 0
            && Port(n, Create) in s.sent && s.sent[Port(n, Create)] == 0
            && Port(n, Create) in StarGraph(k).dependers && StarGraph(k).dependers[Port(n, Create)] == []
  {
    assert WaiterAt(w, s, i, i);
  }

  /** The next waiter is created, and takes a worker and blocks in front of its links, or waits for one. */
  lemma StarveOneMore(k: nat, w: nat, s: State, i: nat) returns (steps: seq<Step>, t: State)
    requires Starved(k, w, s, i) && i < k
    ensures Leads(Plan(StarGraph(k), w), s, steps, t) && Starved(k, w, t, i + 1)
  {
    hide Leads, Starved, StarGraph, Fits;
    var plan, n := Plan(StarGraph(k), w), Waiter(i);
    NextWaiter(k, w, s, i);
    if i < w {
      var first, mid := TakeWorker(plan, s, n);
      var second;
      second, t := BlockInside(plan, mid, n);
      LeadsOn(plan, s, first, mid, second, t);
      steps := first + second;
      assert Differs(s, t, n, Entering(CreateLinks), w - i - 1, s.gate - {n});
    } else {
      steps, t := Queue(plan, s, n);
    }
    OneMoreStarved(k, w, s, i, t);
  }

  lemma OneMoreStarved(k: nat, w: nat, s: State, i: nat, t: State)
    requires Starved(k, w, s, i) && i < k && Fits(Plan(StarGraph(k), w), t)
    requires if i < w then Differs(s, t, Waiter(i), Entering(CreateLinks), w - i - 1, s.gate - {Waiter(i)})
             else Differs(s, t, Waiter(i), Sending, 0, s.gate)
    ensures Starved(k, w, t, i + 1)
  {
    var next := i + 1;
    forall j: nat | j < k ensures WaiterAt(w, t, next, j) {
      assert WaiterAt(w, s, i, j);
      assert j != i ==> |Waiter(j)| != |Waiter(i)|;
    }
  }

  lemma {:induction false} StarveAll(k: nat, w: nat, i: nat) returns (steps: seq<Step>, t: State)
    requires w <= k && i <= k
    ensures Leads(Plan(StarGraph(k), w), Init(Plan(StarGraph(k), w)), steps, t) && Starved(k, w, t, i)
    decreases i
  {
    hide Starved, StarGraph, Init, Leads;
    var plan := Plan(StarGraph(k), w);
    if i == 0 {
      StarvedStart(k, w);
      steps, t := [], Init(plan);
    } else {
      var before, s := StarveAll(k, w, i - 1);
      var more;
      more, t := StarveOneMore(k, w, s, i - 1);
      LeadsOn(plan, Init(plan), before, s, more, t);
      steps := before + more;
    }
  }

  /** No step is possible any more, short of cancelling everything. */
  ghost predicate Stuck(plan: Plan, s: State) {
    Fits(plan, s) && forall step :: Enabled(plan, s, step) ==> step.CancelContext?
  }

  /** For every pool and every number of nodes that wait inside, if that number is not below the number of
      workers: an acyclic deployment, planned from a topology with just one node more, that can get stuck
      for ever without anything failing. */
  lemma PoolTooSmall(k: nat, w: nat) returns (steps: seq<Step>, s: State)
    requires w <= k
    ensures Planned(StarNodes(k), StarGraph(k)) && !GraphHasCycle(StarGraph(k))
    ensures |WaitsInside(StarNodes(k))| == k && |StarNodes(k)| == k + 1
    ensures var plan := PlanFor(StarGraph(k), w);
            Leads(plan, Init(plan), steps, s) && Stuck(plan, s) && !Complete(plan, s)
  {
    StarPlanned(k);
    StarAcyclic(k);
    StarInside(k);
    assert StarNodes(k).Keys == Names(k);
    steps, s := StarveAll(k, w, k);
    steps, s := HubSends(k, w, steps, s);
  }

  lemma HubSends(k: nat, w: nat, a: seq<Step>, s: State) returns (steps: seq<Step>, t: State)
    requires Starved(k, w, s, k)
    requires Leads(Plan(StarGraph(k), w), Init(Plan(StarGraph(k), w)), a, s)
    ensures Leads(Plan(StarGraph(k), w), Init(Plan(StarGraph(k), w)), steps, t)
    ensures Stuck(Plan(StarGraph(k), w), t) && !Complete(Plan(StarGraph(k), w), t)
  {
    hide Leads, IsRun, Enabled, StarGraph, Fits;
    var plan := Plan(StarGraph(k), w);
    HubFree(k, w, s);
    var more;
    more, t := Queue(plan, s, HUB);
    LeadsOn(plan, Init(plan), a, s, more, t);
    steps := a + more;
    forall step ensures Enabled(plan, t, step) ==> step.CancelContext? {
      if !step.CancelContext? {
        HubStuck(k, w, s, t, step);
      }
    }
  }

  lemma HubFree(k: nat, w: nat, s: State)
    requires Starved(k, w, s, k)
    ensures Fits(Plan(StarGraph(k), w), s) && HUB in s.pc && s.pc[HUB] == Entering(Create) && s.idle == 0
    ensures HubPort() in s.counters && s.counters[HubPort()] == 0 && HUB in s.gate && !s.closed
  {
    assert HUB in Names(k);
  }

  lemma HubStuck(k: nat, w: nat, s: State, t: State, step: Step)
    requires Starved(k, w, s, k) && Fits(Plan(StarGraph(k), w), t)
    requires t.pc == s.pc[HUB := Sending] && t.idle == 0 && t.counters == s.counters
    requires t.gate == s.gate && !t.closed
    requires !step.CancelContext?
    ensures !Enabled(Plan(StarGraph(k), w), t, step)
  {
    hide Enabled, Fits;
    var plan := Plan(StarGraph(k), w);
    if step.CloseChannel? || step.WorkerExits? {
      GateShut(plan, t, step);
    } else {
      var n := step.node;
      if n in Names(k) && n != HUB {
        var j: nat :| j < k && n == Waiter(j);
        assert WaiterAt(w, s, k, j);
        assert j < w ==> t.pc[n] == Entering(CreateLinks);
        assert Port(n, CreateLinks) in t.counters ==> t.counters[Port(n, CreateLinks)] == 1;
      }
      NodeStuck(plan, t, n, step);
    }
  }

  lemma GateShut(plan: Plan, t: State, step: Step)
    requires Fits(plan, t) && t.idle == 0 && HUB in t.gate && (step.CloseChannel? || step.WorkerExits?)
    ensures !Enabled(plan, t, step)
  {
  }

  /** A node that waits for a worker, or whose worker waits for a signal. */
  lemma NodeStuck(plan: Plan, t: State, n: string, step: Step)
    requires Fits(plan, t) && !step.CloseChannel? && !step.WorkerExits? && !step.CancelContext? && step.node == n
    requires n in t.pc && t.pc[n] != Sending ==> (
               && t.pc[n] == Entering(CreateLinks) && n !in t.gate
               && (Port(n, CreateLinks) in t.counters ==> t.counters[Port(n, CreateLinks)] != 0))
    requires t.idle == 0
    ensures !Enabled(plan, t, step)
  {
  }

  /** The bound on the pool is exact: all acyclic deployments with k nodes that wait inside finish with a pool
      of w workers if and only if k is below w. */
  lemma PoolBoundIsExact(k: nat, w: nat)
    ensures (forall nodes, g :: IsDeployment(nodes, g, k) ==> NeverStuck(PlanFor(g, w))) <==> k < w
  {
    if k < w {
      forall nodes, g | IsDeployment(nodes, g, k) ensures NeverStuck(PlanFor(g, w)) {
        DeploymentFinishes(nodes, g, w, []);
      }
    } else {
      var steps, s := PoolTooSmall(k, w);
      StuckIsNoEnd(PlanFor(StarGraph(k), w), steps, s);
      assert IsDeployment(StarNodes(k), StarGraph(k), k);
    }
  }

  /** An acyclic deployment of a topology in which k nodes have a wait-for entry after create. */
  ghost predicate IsDeployment(nodes: NodeConfigs, g: Graph, k: nat) {
    Planned(nodes, g) && !GraphHasCycle(g) && |WaitsInside(nodes)| == k
  }

  lemma StuckIsNoEnd(plan: Plan, steps: seq<Step>, s: State)
    requires Recorded(plan.graph) && Leads(plan, Init(plan), steps, s) && Stuck(plan, s) && !Complete(plan, s)
    ensures !NeverStuck(plan)
  {
    hide Complete, Enabled;
    assert IsOrderlyRun(plan, steps);
    assert !GoesOnUnlessComplete(plan, s);
  }
}
