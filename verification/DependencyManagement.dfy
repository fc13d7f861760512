/** The dependency manager and its nodes as the deployment code updates them. */
module DependencyManagement {
  import opened DependencyGraph
  import opened NodeGraph
  import Acyclicity

  /** An entry of a depender list: whose wait group to lower, and for which stage. */
  datatype DependerNodeStage = DependerNodeStage(depender: DependencyNode, stage: Stage)

  class DependencyNode {
    const name: string
    var stageWG: map<Stage, int>
    var mustWait: map<Stage, bool>
    var depender: map<Stage, seq<DependerNodeStage>>

    /** execs: the stages for which the node's configuration holds exec commands. */
    constructor (name: string, execs: set<Stage>)
      ensures this.name == name
      ensures stageWG == map s | s in AllStages() :: 0
      ensures depender == map s | s in AllStages() :: []
      ensures forall s :: MustWait(s) <==> s in execs && s in {CreateLinks, Configure, Healthy}
    {
      this.name := name;
      stageWG := map s | s in AllStages() :: 0;
      depender := map s | s in AllStages() :: [];
      mustWait := map[
        CreateLinks := CreateLinks in execs,
        Configure := Configure in execs,
        Healthy := Healthy in execs];
    }

    /** True iff dependers, or execs, exist for the stage. */
    predicate MustWait(stage: Stage)
      reads this`mustWait
    {
      stage in mustWait && mustWait[stage]
    }

    // This node's fields for one stage are what the dependency graph says about them.

    ghost predicate CounterMirrors(stage: Stage, counters: map<Port, int>)
      reads this`stageWG
    {
      && stage in stageWG && Port(name, stage) in counters
      && stageWG[stage] == counters[Port(name, stage)]
    }

    ghost predicate WaitMirrors(stage: Stage, mustWait: set<Port>)
      reads this`mustWait
    {
      MustWait(stage) <==> Port(name, stage) in mustWait
    }

    ghost predicate ListMirrors(stage: Stage, dependers: map<Port, seq<Port>>)
      reads this`depender
    {
      && stage in depender && Port(name, stage) in dependers
      && SameList(depender[stage], dependers[Port(name, stage)])
    }

    /** Records that `depender` waits with its dependerStage for this node's stage. The depender may
        be the node itself. */
    method AddDepender(dependerStage: Stage, depender: DependencyNode, stage: Stage,
        ghost dm: DependencyManager)
      requires dm.Valid() && dm.Knows(this) && dm.Knows(depender)
      modifies this, depender, dm`graph
      ensures dm.Valid()
      ensures dm.graph == EdgeAdded(old(dm.graph), Port(name, stage),
                                    Port(depender.name, dependerStage))
    {
      Append(stage, DependerNodeStage(depender, dependerStage), dm);
      depender.IncreaseDependencyWG(dependerStage, dm);
      RequireWait(stage, dm);
    }

    method RequireWait(stage: Stage, ghost dm: DependencyManager)
      requires dm.Valid() && dm.Knows(this)
      modifies this`mustWait, dm`graph
      ensures dm.Valid()
      ensures dm.graph == WaitRequired(old(dm.graph), Port(name, stage))
    {
      hide DependencyManager.CountersMirror;
      assert ListMirrors(stage, dm.graph.dependers);
      mustWait := mustWait[stage := true];
      dm.graph := WaitRequired(dm.graph, Port(name, stage));
      forall n, s | n in dm.nodes ensures dm.nodes[n].WaitMirrors(s, dm.graph.mustWait) {
        assert old(dm.nodes[n].WaitMirrors(s, dm.graph.mustWait));
      }
    }

    method Append(stage: Stage, entry: DependerNodeStage, ghost dm: DependencyManager)
      requires dm.Valid() && dm.Knows(this) && dm.Knows(entry.depender)
      modifies this`depender, dm`graph
      ensures dm.Valid()
      ensures dm.graph
           == EntryAdded(old(dm.graph), Port(name, stage), Port(entry.depender.name, entry.stage))
    {
      hide Shaped, DependencyManager.CountersMirror, DependencyManager.WaitsMirror;
      assert ListMirrors(stage, dm.graph.dependers);
      assert entry.depender.ListMirrors(entry.stage, dm.graph.dependers);
      ghost var port := Port(name, stage);
      ghost var before := dm.graph;
      var list := depender[stage];
      depender := depender[stage := list + [entry]];
      EntryAddedShaped(before, port, Port(entry.depender.name, entry.stage));
      dm.graph := EntryAdded(before, port, Port(entry.depender.name, entry.stage));
      assert SameList(depender[stage], dm.graph.dependers[port]);
      forall n, s | n in dm.nodes ensures dm.nodes[n].ListMirrors(s, dm.graph.dependers) {
        assert old(dm.nodes[n].ListMirrors(s, before.dependers));
      }
      forall n, s | n in dm.nodes && s in dm.nodes[n].depender ensures dm.KnowsAll(dm.nodes[n].depender[s]) {
        assert old(s in dm.nodes[n].depender ==> dm.KnowsAll(dm.nodes[n].depender[s]));
      }
    }

    method IncreaseDependencyWG(stage: Stage, ghost dm: DependencyManager)
      requires dm.Valid() && dm.Knows(this)
      modifies this`stageWG, dm`graph
      ensures dm.Valid()
      ensures dm.graph == CounterRaised(old(dm.graph), Port(name, stage))
    {
      hide DependencyManager.WaitsMirror, DependencyManager.ListsMirror;
      assert CounterMirrors(stage, dm.graph.counters);
      stageWG := stageWG[stage := stageWG[stage] + 1];
      dm.graph := CounterRaised(dm.graph, Port(name, stage));
      forall n, s | n in dm.nodes ensures dm.nodes[n].CounterMirrors(s, dm.graph.counters) {
        assert old(dm.nodes[n].CounterMirrors(s, dm.graph.counters));
        assert n != name ==> dm.nodes[n] != this;
      }
    }

    /** Signals every depender recorded for the stage, one after the other. A wait group panics when
        it drops below zero, so the caller has to know that it never does. */
    method Done(stage: Stage, ghost dm: DependencyManager)
      requires dm.Valid() && dm.Knows(this)
      requires forall p :: p in dm.graph.counters ==>
                 multiset(dm.graph.dependers[Port(name, stage)])[p] <= dm.graph.counters[p]
      modifies dm.nodes.Values, dm`graph
      ensures dm.Valid()
      ensures dm.graph
           == Signalled(old(dm.graph), old(dm.graph).dependers[Port(name, stage)])
    {
      hide Shaped, Lowered, ListMirrors;
      hide DependencyManager.WaitsMirror, DependencyManager.CountersMirror, DependencyManager.ListsMirror;
      ghost var before := dm.graph;
      Recorded(stage, dm);
      ghost var list := before.dependers[Port(name, stage)];
      SignalledNone(before);
      assert list[..0] == [];
      for i := 0 to |depender[stage]|
        invariant dm.Valid() && depender == old(depender)
        invariant dm.graph == Signalled(before, list[..i])
      {
        Recorded(stage, dm);
        SignalledStep(before, list, i);
        depender[stage][i].depender.SignalDone(depender[stage][i].stage, dm);
      }
      assert list[..|list|] == list;
    }

    lemma Recorded(stage: Stage, dm: DependencyManager)
      requires dm.Valid() && dm.Knows(this)
      ensures stage in depender && dm.KnowsAll(depender[stage])
      ensures Port(name, stage) in dm.graph.dependers
      ensures SameList(depender[stage], dm.graph.dependers[Port(name, stage)])
      ensures forall p :: p in dm.graph.dependers[Port(name, stage)] ==> p in dm.graph.counters
    {
      assert ListMirrors(stage, dm.graph.dependers);
    }

    /** Lowers this node's wait group for the stage by one. */
    method SignalDone(stage: Stage, ghost dm: DependencyManager)
      requires dm.Valid() && dm.Knows(this)
      requires dm.graph.counters[Port(name, stage)] > 0
      modifies this`stageWG, dm`graph
      ensures dm.Valid()
      ensures dm.graph == Signalled(old(dm.graph), [Port(name, stage)])
    {
      hide DependencyManager.WaitsMirror, DependencyManager.ListsMirror;
      assert CounterMirrors(stage, dm.graph.counters);
      stageWG := stageWG[stage := stageWG[stage] - 1];
      dm.graph := Signalled(dm.graph, [Port(name, stage)]);
      forall n, s | n in dm.nodes ensures dm.nodes[n].CounterMirrors(s, dm.graph.counters) {
        assert old(dm.nodes[n].CounterMirrors(s, dm.graph.counters));
      }
    }
  }

  ghost predicate SameList(list: seq<DependerNodeStage>, ports: seq<Port>) {
    && |list| == |ports|
    && (forall i :: 0 <= i < |list| ==> Port(list[i].depender.name, list[i].stage) == ports[i])
  }

  class DependencyManager {
    var nodes: map<string, DependencyNode>
    /** The dependency graph that the nodes hold between them. */
    ghost var graph: Graph

    constructor ()
      ensures nodes == map[] && Valid() && graph == Graph({}, map[], map[], {})
    {
      nodes := map[];
      graph := Graph({}, map[], map[], {});
    }

    ghost predicate Valid()
      reads this, nodes.Values
    {
      && Shaped(graph) && graph.nodes == nodes.Keys
      && (forall n :: n in nodes ==> nodes[n].name == n)
      && CountersMirror(graph.counters) && WaitsMirror(graph.mustWait) && ListsMirror(graph.dependers)
    }

    ghost predicate CountersMirror(counters: map<Port, int>)
      reads this`nodes, nodes.Values`stageWG
    {
      forall n, s :: n in nodes ==> nodes[n].CounterMirrors(s, counters)
    }

    ghost predicate WaitsMirror(mustWait: set<Port>)
      reads this`nodes, nodes.Values`mustWait
    {
      forall n, s :: n in nodes ==> nodes[n].WaitMirrors(s, mustWait)
    }

    ghost predicate ListsMirror(dependers: map<Port, seq<Port>>)
      reads this`nodes, nodes.Values`depender
    {
      && (forall n, s :: n in nodes ==> nodes[n].ListMirrors(s, dependers))
      && (forall n, s :: n in nodes && s in nodes[n].depender ==> KnowsAll(nodes[n].depender[s]))
    }

    ghost predicate Knows(node: DependencyNode)
      reads this`nodes
    {
      node.name in nodes && nodes[node.name] == node
    }

    ghost predicate KnowsAll(list: seq<DependerNodeStage>)
      reads this`nodes
    {
      forall i :: 0 <= i < |list| ==> Knows(list[i].depender)
    }

    /** Registers a node; names are unique because they are the keys of the node map. */
    method AddNode(name: string, execs: set<Stage>)
      requires Valid() && name !in nodes
      modifies this
      ensures Valid()
      ensures nodes.Keys == old(nodes).Keys + {name}
      ensures forall n :: n in old(nodes) ==> nodes[n] == old(nodes)[n]
      ensures fresh(nodes[name])
      ensures graph == WithNode(old(graph), name, execs)
    {
      var node := new DependencyNode(name, execs);
      nodes := nodes[name := node];
      graph := WithNode(graph, name, execs);
      forall n, s | n in nodes
        ensures nodes[n].CounterMirrors(s, graph.counters)
        ensures nodes[n].WaitMirrors(s, graph.mustWait)
        ensures nodes[n].ListMirrors(s, graph.dependers)
      {
        if n != name {
          assert old(nodes[n].CounterMirrors(s, graph.counters));
          assert old(nodes[n].WaitMirrors(s, graph.mustWait));
          assert old(nodes[n].ListMirrors(s, graph.dependers));
        }
      }
    }

    /** Node name -> names of its dependers, over all stages in any order. */
    method GenerateDependencyMap() returns (dependencies: Acyclicity.DependerMap)
      requires Valid()
      ensures Lists(graph, dependencies)
    {
      dependencies := map[];
      var todo := nodes.Keys;
      while todo != {}
        invariant todo <= nodes.Keys && dependencies.Keys == nodes.Keys - todo
        invariant forall a, b :: a in dependencies ==>
                    (b in dependencies[a] <==> WaitsFor(graph, b, a))
      {
        var nodeName :| nodeName in todo;
        var names := DependersOfAllStages(nodes[nodeName]);
        dependencies := dependencies[nodeName := names];
        todo := todo - {nodeName};
      }
    }

    method DependersOfAllStages(node: DependencyNode) returns (names: seq<string>)
      requires Valid() && Knows(node)
      ensures forall b :: b in names <==> WaitsFor(graph, b, node.name)
    {
      names := [];
      var todo := AllStages();
      while todo != {}
        invariant forall b :: b in names <==>
                    exists s :: s !in todo && WaitsAtStage(graph, b, node.name, s)
      {
        var stage :| stage in todo;
        var more := DependersAt(node, stage);
        names := names + more;
        todo := todo - {stage};
      }
    }

    method DependersAt(node: DependencyNode, stage: Stage) returns (names: seq<string>)
      requires Valid() && Knows(node)
      ensures forall b :: b in names <==> WaitsAtStage(graph, b, node.name, stage)
    {
      assert node.ListMirrors(stage, graph.dependers);
      ghost var list := graph.dependers[Port(node.name, stage)];
      names := [];
      for i := 0 to |node.depender[stage]|
        invariant |names| == i
        invariant forall j :: 0 <= j < i ==> names[j] == list[j].node
      {
        names := names + [node.depender[stage][i].depender.name];
      }
      NamesWaiting(graph, node.name, stage, names);
    }

    /** Passes iff the node graph has no cycle. */
    method CheckAcyclicity() returns (ok: bool)
      requires Valid()
      ensures ok <==> !GraphHasCycle(graph)
    {
      var dependencies := GenerateDependencyMap();
      ok := Acyclicity.IsAcyclic(dependencies, 1);
      CyclesAgree(graph, dependencies);
    }
  }
}
