/** How a deployment turns the node configurations into dependency edges, and when it goes on to
    schedule the nodes. */
module NodeCreation {
  import opened DependencyGraph
  import opened NodeGraph
  import opened DependencyManagement
  import opened Wrappers

  datatype WaitFor = WaitFor(node: string, stage: Stage)

  /** The parts of a node's configuration that dependencies are made of.
      netnsOf: the name after "container:" when the network mode shares a namespace.
      waitFor: for each of the node's own stages, what to wait for before entering it.
      execs: stages with exec commands. */
  datatype NodeConfig = NodeConfig(
    mgmtIPv4: string,
    mgmtIPv6: string,
    netnsOf: Option<string>,
    waitFor: map<Stage, seq<WaitFor>>,
    execs: set<Stage>)
  {
    predicate IsStatic() {
      mgmtIPv4 != "" || mgmtIPv6 != ""
    }

    function WaitList(stage: Stage): seq<WaitFor> {
      if stage in waitFor then waitFor[stage] else []
    }
  }

  type NodeConfigs = map<string, NodeConfig>

  // The three families of edges q -> p, with their multiplicity.

  ghost function StaticDynamicEdges(nodes: NodeConfigs, q: Port, p: Port): nat {
    if q.node in nodes && p.node in nodes && q.stage == Create && p.stage == Create
      && nodes[q.node].IsStatic() && !nodes[p.node].IsStatic()
    then 1 else 0
  }

  ghost function WaitForEdges(nodes: NodeConfigs, q: Port, p: Port): nat {
    if p.node in nodes then multiset(nodes[p.node].WaitList(p.stage))[WaitFor(q.node, q.stage)]
    else 0
  }

  ghost function NetnsEdges(nodes: NodeConfigs, q: Port, p: Port): nat {
    if q.node in nodes && p.node in nodes && q.stage == Create && p.stage == Create
      && nodes[p.node].netnsOf == Some(q.node)
    then 1 else 0
  }

  /** From `before` to `after`, the multiplicity of every edge q -> p grew by more(q, p). */
  ghost predicate Gained(before: Graph, after: Graph, more: (Port, Port) -> nat) {
    forall q, p :: EdgeCount(after, q, p) == EdgeCount(before, q, p) + more(q, p)
  }

  /** Some wait-for entry names a node that the topology does not have. */
  ghost predicate MissingReference(nodes: NodeConfigs) {
    exists n, s, i :: Dangling(nodes, n, s, i)
  }

  ghost predicate KnownUpTo(nodes: NodeConfigs, list: seq<WaitFor>, i: nat) {
    i <= |list| && forall j :: 0 <= j < i ==> list[j].node in nodes
  }

  lemma KnownOneMore(nodes: NodeConfigs, list: seq<WaitFor>, i: nat)
    requires KnownUpTo(nodes, list, i) && i < |list| && list[i].node in nodes
    ensures KnownUpTo(nodes, list, i + 1)
  {
  }

  lemma NothingDangling(nodes: NodeConfigs, n: string, s: Stage)
    requires n in nodes && KnownUpTo(nodes, nodes[n].WaitList(s), |nodes[n].WaitList(s)|)
    ensures forall i :: !Dangling(nodes, n, s, i)
  {
  }

  ghost predicate Dangling(nodes: NodeConfigs, n: string, s: Stage, i: int) {
    n in nodes && 0 <= i < |nodes[n].WaitList(s)| && nodes[n].WaitList(s)[i].node !in nodes
  }

  ghost predicate ExecsAwaited(nodes: NodeConfigs, g: Graph) {
    forall q :: q in g.dependers ==> (q in g.mustWait <==>
      g.dependers[q] != [] || (q.node in nodes && q in ExecPorts(q.node, nodes[q.node].execs)))
  }

  /** g is the dependency graph of the configurations: exactly the three families of edges, counters
      that count them, and the stages that have to be awaited. */
  ghost predicate Planned(nodes: NodeConfigs, g: Graph) {
    && g.nodes == nodes.Keys && Recorded(g) && ExecsAwaited(nodes, g)
    && (forall q, p :: EdgeCount(g, q, p) ==
          StaticDynamicEdges(nodes, q, p) + WaitForEdges(nodes, q, p) + NetnsEdges(nodes, q, p))
  }

  datatype CreateResult = Scheduled | MissingDependee | CyclicDependencies

  class CLab {
    const nodes: NodeConfigs
    const dependencyManager: DependencyManager

    constructor (nodes: NodeConfigs)
      ensures this.nodes == nodes
      ensures Ready({}) && fresh(dependencyManager)
      ensures dependencyManager.graph == Graph({}, map[], map[], {})
    {
      this.nodes := nodes;
      dependencyManager := new DependencyManager();
    }

    /** The dependency manager knows the given nodes and its counters count its edges. */
    ghost predicate Ready(names: set<string>)
      reads dependencyManager, dependencyManager.nodes.Values
    {
      && dependencyManager.Valid() && dependencyManager.nodes.Keys == names
      && Recorded(dependencyManager.graph) && ExecsAwaited(nodes, dependencyManager.graph)
    }

    /** Registers all nodes, adds the dependencies and gates the scheduling on their acyclicity. */
    method CreateNodes() returns (result: CreateResult)
      requires Ready({}) && dependencyManager.graph == Graph({}, map[], map[], {})
      modifies dependencyManager
      ensures dependencyManager.Valid()
      ensures result.MissingDependee? <==>
                exists n, s, i :: n in nodes && s in nodes[n].waitFor && 0 <= i < |nodes[n].waitFor[s]|
                                  && nodes[n].waitFor[s][i].node !in nodes
      ensures !result.MissingDependee? ==> Planned(nodes, dependencyManager.graph)
      ensures result.Scheduled? ==> !GraphHasCycle(dependencyManager.graph)
      ensures result.CyclicDependencies? ==> GraphHasCycle(dependencyManager.graph)
    {
      DanglingEntries(nodes);
      AddNodes();
      ghost var g0 := dependencyManager.graph;
      CreateStaticDynamicDependency();
      ghost var g1 := dependencyManager.graph;
      var found := CreateWaitForDependency();
      if !found {
        return MissingDependee;
      }
      ghost var g2 := dependencyManager.graph;
      CreateNamespaceSharingDependency();
      AllEdgesPlanned(nodes, g0, g1, g2, dependencyManager.graph);
      var acyclic := dependencyManager.CheckAcyclicity();
      result := if acyclic then Scheduled else CyclicDependencies;
    }

    method AddNodes()
      requires Ready({}) && dependencyManager.graph == Graph({}, map[], map[], {})
      modifies dependencyManager
      ensures Ready(nodes.Keys)
      ensures forall q, p :: EdgeCount(dependencyManager.graph, q, p) == 0
      ensures forall n :: n in dependencyManager.nodes ==> fresh(dependencyManager.nodes[n])
    {
      var todo := nodes.Keys;
      while todo != {}
        invariant todo <= nodes.Keys
        invariant Ready(nodes.Keys - todo)
        invariant forall q, p :: EdgeCount(dependencyManager.graph, q, p) == 0
        invariant forall n :: n in dependencyManager.nodes ==> fresh(dependencyManager.nodes[n])
      {
        var name :| name in todo;
        WithNodeRecorded(nodes, dependencyManager.graph, name);
        dependencyManager.AddNode(name, nodes[name].execs);
        todo := todo - {name};
        assert nodes.Keys - todo == dependencyManager.nodes.Keys;
      }
    }

    /** One dependee.AddDepender(...) call on nodes looked up by name. */
    method AddDependency(dependee: string, stage: Stage, depender: string, dependerStage: Stage)
      requires Ready(nodes.Keys) && dependee in nodes && depender in nodes
      modifies dependencyManager.nodes.Values, dependencyManager`graph
      ensures Ready(nodes.Keys)
      ensures Gained(old(dependencyManager.graph), dependencyManager.graph,
                     OneEdge(Port(dependee, stage), Port(depender, dependerStage)))
    {
      ghost var before := dependencyManager.graph;
      ghost var source, target := Port(dependee, stage), Port(depender, dependerStage);
      var dependeeNode, dependerNode :=
        dependencyManager.nodes[dependee], dependencyManager.nodes[depender];
      OneEdgeMore(nodes, before, source, target);
      dependeeNode.AddDepender(dependerStage, dependerNode, stage, dependencyManager);
    }

    /** Every node without a static management address waits for all nodes that have one. */
    method CreateStaticDynamicDependency()
      requires Ready(nodes.Keys)
      modifies dependencyManager.nodes.Values, dependencyManager`graph
      ensures Ready(nodes.Keys)
      ensures Gained(old(dependencyManager.graph), dependencyManager.graph,
                     StaticDynamicDone(nodes, {}))
    {
      ghost var start := dependencyManager.graph;
      var staticIPNodes := set n | n in nodes && nodes[n].IsStatic();
      var dynIPNodes := nodes.Keys - staticIPNodes;
      var dynTodo := dynIPNodes;
      StaticDynamicDoneStart(nodes, start);
      while dynTodo != {}
        invariant dynTodo <= dynIPNodes && Ready(nodes.Keys)
        invariant Gained(start, dependencyManager.graph,
                         StaticDynamicDone(nodes, dynTodo))
      {
        ghost var before, rest := dependencyManager.graph, dynTodo;
        var dynNode :| dynNode in dynTodo;
        dynTodo := dynTodo - {dynNode};
        DependOnAllStatic(staticIPNodes, dynNode);
        StaticDynamicDoneStep(nodes, start, before, dependencyManager.graph, rest, dynNode);
      }
    }

    method DependOnAllStatic(staticIPNodes: set<string>, dynNode: string)
      requires Ready(nodes.Keys)
      requires staticIPNodes == set n | n in nodes && nodes[n].IsStatic()
      requires dynNode in nodes && dynNode !in staticIPNodes
      modifies dependencyManager.nodes.Values, dependencyManager`graph
      ensures Ready(nodes.Keys)
      ensures Gained(old(dependencyManager.graph), dependencyManager.graph,
                     StaticDynamicOf(nodes, dynNode, {}))
    {
      ghost var start := dependencyManager.graph;
      var staticTodo := staticIPNodes;
      StaticDynamicOfStart(nodes, start, dynNode);
      while staticTodo != {}
        invariant staticTodo <= staticIPNodes && Ready(nodes.Keys)
        invariant Gained(start, dependencyManager.graph,
                         StaticDynamicOf(nodes, dynNode, staticTodo))
      {
        ghost var before, rest := dependencyManager.graph, staticTodo;
        var staticNode :| staticNode in staticTodo;
        AddDependency(staticNode, Create, dynNode, Create);
        staticTodo := staticTodo - {staticNode};
        StaticDynamicOfStep(nodes, start, before, dependencyManager.graph, dynNode, rest, staticNode);
      }
    }

    /** The wait-for entries of the configurations; false when one names an unknown node. */
    method CreateWaitForDependency() returns (found: bool)
      requires Ready(nodes.Keys)
      modifies dependencyManager.nodes.Values, dependencyManager`graph
      ensures Ready(nodes.Keys)
      ensures found <==> !MissingReference(nodes)
      ensures found ==> Gained(old(dependencyManager.graph), dependencyManager.graph,
                               WaitForDone(nodes, {}))
    {
      ghost var start := dependencyManager.graph;
      var todo := nodes.Keys;
      WaitForDoneStart(nodes, start);
      while todo != {}
        invariant todo <= nodes.Keys && Ready(nodes.Keys)
        invariant forall n, s, i :: n !in todo ==> !Dangling(nodes, n, s, i)
        invariant Gained(start, dependencyManager.graph, WaitForDone(nodes, todo))
      {
        ghost var before, rest := dependencyManager.graph, todo;
        var dependerNode :| dependerNode in todo;
        todo := todo - {dependerNode};
        found := CreateWaitForOf(dependerNode);
        if !found {
          return;
        }
        WaitForDoneStep(nodes, start, before, dependencyManager.graph, rest, dependerNode);
      }
      found := true;
    }

    method CreateWaitForOf(depender: string) returns (found: bool)
      requires Ready(nodes.Keys) && depender in nodes
      modifies dependencyManager.nodes.Values, dependencyManager`graph
      ensures Ready(nodes.Keys)
      ensures found <==> forall s, i :: !Dangling(nodes, depender, s, i)
      ensures found ==> Gained(old(dependencyManager.graph), dependencyManager.graph,
                               WaitForOf(nodes, depender, {}))
    {
      ghost var start := dependencyManager.graph;
      var todo := AllStages();
      WaitForOfStart(nodes, start, depender);
      while todo != {}
        invariant Ready(nodes.Keys)
        invariant forall s, i :: s !in todo ==> !Dangling(nodes, depender, s, i)
        invariant Gained(start, dependencyManager.graph,
                         WaitForOf(nodes, depender, todo))
      {
        ghost var before, rest := dependencyManager.graph, todo;
        var stage :| stage in todo;
        todo := todo - {stage};
        found := CreateWaitForAt(depender, stage);
        if !found {
          return;
        }
        WaitForOfStep(nodes, start, before, dependencyManager.graph, depender, rest, stage);
      }
      found := true;
    }

    method CreateWaitForAt(depender: string, dependerStage: Stage) returns (found: bool)
      requires Ready(nodes.Keys) && depender in nodes
      modifies dependencyManager.nodes.Values, dependencyManager`graph
      ensures Ready(nodes.Keys)
      ensures found <==> forall i :: !Dangling(nodes, depender, dependerStage, i)
      ensures found ==>
                Gained(old(dependencyManager.graph), dependencyManager.graph,
                       WaitListEdges(Port(depender, dependerStage),
                                     nodes[depender].WaitList(dependerStage)))
    {
      hide Gained, WaitListEdges, Recorded, ExecsAwaited, OneEdge, Shaped;
      ghost var start, port := dependencyManager.graph, Port(depender, dependerStage);
      var waitForNodes := nodes[depender].WaitList(dependerStage);
      WaitListStart(start, port, waitForNodes);
      for i := 0 to |waitForNodes|
        invariant Ready(nodes.Keys)
        invariant KnownUpTo(nodes, waitForNodes, i)
        invariant Gained(start, dependencyManager.graph, WaitListEdges(port, waitForNodes[..i]))
      {
        var dependee := waitForNodes[i];
        if dependee.node !in nodes {
          assert Dangling(nodes, depender, dependerStage, i);
          return false;
        }
        ghost var before := dependencyManager.graph;
        AddDependency(dependee.node, dependee.stage, depender, dependerStage);
        KnownOneMore(nodes, waitForNodes, i);
        WaitListStep(start, before, dependencyManager.graph, port, waitForNodes, i);
      }
      assert waitForNodes[..|waitForNodes|] == waitForNodes;
      NothingDangling(nodes, depender, dependerStage);
      found := true;
    }

    /** A node that shares another node's network namespace waits for that node to be created; a name
        outside the topology is an external container and adds nothing. */
    method CreateNamespaceSharingDependency()
      requires Ready(nodes.Keys)
      modifies dependencyManager.nodes.Values, dependencyManager`graph
      ensures Ready(nodes.Keys)
      ensures Gained(old(dependencyManager.graph), dependencyManager.graph,
                     NetnsDone(nodes, {}))
    {
      ghost var start := dependencyManager.graph;
      var todo := nodes.Keys;
      NetnsStart(nodes, start);
      while todo != {}
        invariant todo <= nodes.Keys && Ready(nodes.Keys)
        invariant Gained(start, dependencyManager.graph, NetnsDone(nodes, todo))
      {
        ghost var before, rest := dependencyManager.graph, todo;
        var n :| n in todo;
        todo := todo - {n};
        if nodes[n].netnsOf.Some? && nodes[n].netnsOf.value in nodes {
          AddDependency(nodes[n].netnsOf.value, Create, n, Create);
        }
        NetnsStep(nodes, start, before, dependencyManager.graph, rest, n);
      }
    }
  }

  // What the loops above have added so far; `todo` is what they still have to visit.

  ghost function OneEdge(source: Port, target: Port): (Port, Port) -> nat {
    (q, p) => if q == source && p == target then 1 else 0
  }

  ghost function StaticDynamicDone(nodes: NodeConfigs, todo: set<string>): (Port, Port) -> nat {
    (q: Port, p: Port) => if p.node in todo then 0 else StaticDynamicEdges(nodes, q, p)
  }

  ghost function StaticDynamicOf(nodes: NodeConfigs, n: string, todo: set<string>)
    : (Port, Port) -> nat
  {
    (q: Port, p: Port) =>
      if p.node != n || q.node in todo then 0 else StaticDynamicEdges(nodes, q, p)
  }

  ghost function WaitForDone(nodes: NodeConfigs, todo: set<string>): (Port, Port) -> nat {
    (q: Port, p: Port) => if p.node in todo then 0 else WaitForEdges(nodes, q, p)
  }

  ghost function WaitForOf(nodes: NodeConfigs, n: string, todo: set<Stage>): (Port, Port) -> nat {
    (q: Port, p: Port) =>
      if p.node != n || p.stage in todo then 0 else WaitForEdges(nodes, q, p)
  }

  ghost function WaitListEdges(port: Port, list: seq<WaitFor>): (Port, Port) -> nat {
    (q: Port, p: Port) => if p == port then multiset(list)[WaitFor(q.node, q.stage)] else 0
  }

  ghost function NetnsDone(nodes: NodeConfigs, todo: set<string>): (Port, Port) -> nat {
    (q: Port, p: Port) => if p.node in todo then 0 else NetnsEdges(nodes, q, p)
  }

  lemma StaticDynamicDoneStart(nodes: NodeConfigs, g: Graph)
    ensures Gained(g, g, StaticDynamicDone(nodes, set n | n in nodes && !nodes[n].IsStatic()))
  {
  }

  lemma StaticDynamicDoneStep(nodes: NodeConfigs, a: Graph, b: Graph, c: Graph,
      todo: set<string>, n: string)
    requires Gained(a, b, StaticDynamicDone(nodes, todo)) && n in todo
    requires Gained(b, c, StaticDynamicOf(nodes, n, {}))
    ensures Gained(a, c, StaticDynamicDone(nodes, todo - {n}))
  {
  }

  lemma StaticDynamicOfStart(nodes: NodeConfigs, g: Graph, n: string)
    ensures Gained(g, g, StaticDynamicOf(nodes, n, set m | m in nodes && nodes[m].IsStatic()))
  {
  }

  lemma StaticDynamicOfStep(nodes: NodeConfigs, a: Graph, b: Graph, c: Graph,
      n: string, todo: set<string>, m: string)
    requires Gained(a, b, StaticDynamicOf(nodes, n, todo)) && m in todo
    requires m in nodes && nodes[m].IsStatic() && n in nodes && !nodes[n].IsStatic()
    requires Gained(b, c, OneEdge(Port(m, Create), Port(n, Create)))
    ensures Gained(a, c, StaticDynamicOf(nodes, n, todo - {m}))
  {
  }

  lemma WaitForDoneStart(nodes: NodeConfigs, g: Graph)
    ensures Gained(g, g, WaitForDone(nodes, nodes.Keys))
  {
  }

  lemma WaitForDoneStep(nodes: NodeConfigs, a: Graph, b: Graph, c: Graph,
      todo: set<string>, n: string)
    requires Gained(a, b, WaitForDone(nodes, todo)) && n in todo
    requires Gained(b, c, WaitForOf(nodes, n, {}))
    ensures Gained(a, c, WaitForDone(nodes, todo - {n}))
  {
  }

  lemma WaitForOfStart(nodes: NodeConfigs, g: Graph, n: string)
    ensures Gained(g, g, WaitForOf(nodes, n, AllStages()))
  {
  }

  lemma WaitForOfStep(nodes: NodeConfigs, a: Graph, b: Graph, c: Graph,
      n: string, todo: set<Stage>, s: Stage)
    requires Gained(a, b, WaitForOf(nodes, n, todo)) && s in todo && n in nodes
    requires Gained(b, c, WaitListEdges(Port(n, s), nodes[n].WaitList(s)))
    ensures Gained(a, c, WaitForOf(nodes, n, todo - {s}))
  {
  }

  lemma WaitListStart(g: Graph, port: Port, list: seq<WaitFor>)
    ensures Gained(g, g, WaitListEdges(port, list[..0]))
  {
  }

  lemma WaitListStep(a: Graph, b: Graph, c: Graph, port: Port, list: seq<WaitFor>, i: nat)
    requires i < |list|
    requires Gained(a, b, WaitListEdges(port, list[..i]))
    requires Gained(b, c, OneEdge(Port(list[i].node, list[i].stage), port))
    ensures Gained(a, c, WaitListEdges(port, list[..i + 1]))
  {
    assert list[..i + 1] == list[..i] + [list[i]];
  }

  lemma NetnsStart(nodes: NodeConfigs, g: Graph)
    ensures Gained(g, g, NetnsDone(nodes, nodes.Keys))
  {
  }

  lemma NetnsStep(nodes: NodeConfigs, a: Graph, b: Graph, c: Graph, todo: set<string>, n: string)
    requires Gained(a, b, NetnsDone(nodes, todo)) && n in todo && n in nodes
    requires if nodes[n].netnsOf.Some? && nodes[n].netnsOf.value in nodes
             then Gained(b, c, OneEdge(Port(nodes[n].netnsOf.value, Create), Port(n, Create)))
             else b == c
    ensures Gained(a, c, NetnsDone(nodes, todo - {n}))
  {
  }

  lemma OneEdgeMore(nodes: NodeConfigs, g: Graph, source: Port, target: Port)
    requires Recorded(g) && ExecsAwaited(nodes, g)
    requires source in g.dependers && target in g.dependers
    ensures Recorded(EdgeAdded(g, source, target)) && ExecsAwaited(nodes, EdgeAdded(g, source, target))
    ensures Gained(g, EdgeAdded(g, source, target), OneEdge(source, target))
  {
    EdgeAddedRecorded(g, source, target);
    forall q, p ensures EdgeCount(EdgeAdded(g, source, target), q, p)
        == EdgeCount(g, q, p) + OneEdge(source, target)(q, p)
    {
      EdgeAddedCount(g, source, target, q, p);
    }
  }

  lemma AllEdgesPlanned(nodes: NodeConfigs, g0: Graph, g1: Graph, g2: Graph, g3: Graph)
    requires forall q, p :: EdgeCount(g0, q, p) == 0
    requires Gained(g0, g1, StaticDynamicDone(nodes, {}))
    requires Gained(g1, g2, WaitForDone(nodes, {}))
    requires Gained(g2, g3, NetnsDone(nodes, {}))
    ensures forall q, p :: EdgeCount(g3, q, p) ==
              StaticDynamicEdges(nodes, q, p) + WaitForEdges(nodes, q, p) + NetnsEdges(nodes, q, p)
  {
  }

  lemma WithNodeRecorded(nodes: NodeConfigs, g: Graph, name: string)
    requires Recorded(g) && ExecsAwaited(nodes, g) && name in nodes && name !in g.nodes
    requires forall q, p :: EdgeCount(g, q, p) == 0
    ensures Recorded(WithNode(g, name, nodes[name].execs))
    ensures ExecsAwaited(nodes, WithNode(g, name, nodes[name].execs))
    ensures forall q, p :: EdgeCount(WithNode(g, name, nodes[name].execs), q, p) == 0
  {
    var g' := WithNode(g, name, nodes[name].execs);
    forall q | q in g'.dependers ensures g'.dependers[q] == [] {
      if q in g.dependers && g.dependers[q] != [] {
        EdgeCountPositive(g, q, g.dependers[q][0]);
      }
    }
    forall p | p in g'.counters ensures g'.counters[p] == 0 && Incoming(g', p) == {} {
      if p in g.counters {
        NoEdgesNoCounters(g, p);
      }
    }
  }

  lemma NoEdgesNoCounters(g: Graph, p: Port)
    requires Recorded(g) && p in g.counters
    requires forall q, p :: EdgeCount(g, q, p) == 0
    ensures g.counters[p] == 0
  {
    forall e | e in Incoming(g, p) ensures false {
      EdgeCountPositive(g, e.source, p);
    }
    assert Incoming(g, p) == {};
  }

  // The plan, read off the fields of the configurations.

  lemma DanglingEntries(nodes: NodeConfigs)
    ensures MissingReference(nodes) <==>
              exists n, s, i :: n in nodes && s in nodes[n].waitFor && 0 <= i < |nodes[n].waitFor[s]|
                                && nodes[n].waitFor[s][i].node !in nodes
  {
    if MissingReference(nodes) {
      var n, s, i :| Dangling(nodes, n, s, i);
      assert nodes[n].waitFor[s][i].node !in nodes;
    }
    if n, s, i :| n in nodes && s in nodes[n].waitFor && 0 <= i < |nodes[n].waitFor[s]|
                  && nodes[n].waitFor[s][i].node !in nodes
    {
      assert Dangling(nodes, n, s, i);
    }
  }

  /** How often p is told by q: for the addresses, for each wait-for entry, for the shared namespace. */
  lemma PlannedEdges(nodes: NodeConfigs, g: Graph, q: Port, p: Port)
    requires Planned(nodes, g) && q in g.dependers
    ensures multiset(g.dependers[q])[p]
         == (if q.stage == Create && p.stage == Create && q.node in nodes && p.node in nodes
                && (nodes[q.node].mgmtIPv4 != "" || nodes[q.node].mgmtIPv6 != "")
                && nodes[p.node].mgmtIPv4 == "" && nodes[p.node].mgmtIPv6 == "" then 1 else 0)
          + (if p.node in nodes && p.stage in nodes[p.node].waitFor
             then multiset(nodes[p.node].waitFor[p.stage])[WaitFor(q.node, q.stage)] else 0)
          + (if q.stage == Create && p.stage == Create && q.node in nodes && p.node in nodes
                && nodes[p.node].netnsOf == Some(q.node) then 1 else 0)
  {
    assert EdgeCount(g, q, p) == multiset(g.dependers[q])[p];
  }

  /** Every wait-for entry is honoured: its node tells the waiting node at the awaited stage, once for each
      time it is listed at least. */
  lemma WaitForHonoured(nodes: NodeConfigs, g: Graph, n: string, s: Stage, i: nat)
    requires Planned(nodes, g) && n in nodes && s in nodes[n].waitFor && i < |nodes[n].waitFor[s]|
    ensures var e := nodes[n].waitFor[s][i];
            && Port(e.node, e.stage) in g.dependers && Port(n, s) in g.dependers[Port(e.node, e.stage)]
            && multiset(g.dependers[Port(e.node, e.stage)])[Port(n, s)] >= multiset(nodes[n].waitFor[s])[e] > 0
  {
    var e := nodes[n].waitFor[s][i];
    var q, p := Port(e.node, e.stage), Port(n, s);
    assert e in multiset(nodes[n].waitFor[s]);
    assert WaitForEdges(nodes, q, p) > 0;
    assert EdgeCount(g, q, p) > 0;
    PlannedEdges(nodes, g, q, p);
  }

  /** Which stages a worker has to go into: those that somebody awaits, and those with commands. */
  lemma PlannedWaits(nodes: NodeConfigs, g: Graph, n: string, s: Stage)
    requires Planned(nodes, g) && n in nodes
    ensures Port(n, s) in g.dependers
    ensures Port(n, s) in g.mustWait <==>
              g.dependers[Port(n, s)] != [] || (s in nodes[n].execs && s in {CreateLinks, Configure, Healthy})
  {
    assert Shaped(g);
  }
}
