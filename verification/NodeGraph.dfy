/** The stage-blind node graph of a dependency graph: what the cycle check looks at. */
module NodeGraph {
  import opened DependencyGraph
  import Acyclicity

  /** Node b waits, with one of its stages, for stage s of node a. */
  ghost predicate WaitsAtStage(g: Graph, b: string, a: string, s: Stage) {
    Port(a, s) in g.dependers && exists t :: Port(b, t) in g.dependers[Port(a, s)]
  }

  /** Node b waits for node a at some pair of stages. */
  ghost predicate WaitsFor(g: Graph, b: string, a: string) {
    exists s :: WaitsAtStage(g, b, a, s)
  }

  /** A closed chain of nodes, each waiting for its predecessor; a node waiting for itself is one. */
  ghost predicate IsGraphCycle(g: Graph, w: seq<string>) {
    && |w| >= 2 && w[0] == w[|w| - 1]
    && (forall i :: 0 <= i < |w| - 1 ==> WaitsFor(g, w[i + 1], w[i]))
  }

  ghost predicate GraphHasCycle(g: Graph) {
    exists w :: IsGraphCycle(g, w)
  }

  /** Every node ranks strictly above the nodes that wait for it. */
  ghost predicate GraphRanked(g: Graph, rank: map<string, nat>) {
    && g.nodes <= rank.Keys
    && (forall q, k :: q in g.dependers && 0 <= k < |g.dependers[q]| ==>
          RanksAbove(g, rank, q, g.dependers[q][k]))
  }

  ghost predicate RanksAbove(g: Graph, rank: map<string, nat>, q: Port, p: Port) {
    q.node in rank && p.node in rank && rank[p.node] < rank[q.node]
  }

  /** m lists for every node exactly the nodes that wait for it. */
  ghost predicate Lists(g: Graph, m: Acyclicity.DependerMap) {
    && m.Keys == g.nodes
    && (forall a, b :: a in m ==> (b in m[a] <==> WaitsFor(g, b, a)))
  }

  lemma NamesWaiting(g: Graph, a: string, s: Stage, names: seq<string>)
    requires Port(a, s) in g.dependers && |names| == |g.dependers[Port(a, s)]|
    requires forall j :: 0 <= j < |names| ==> names[j] == g.dependers[Port(a, s)][j].node
    ensures forall b :: b in names <==> WaitsAtStage(g, b, a, s)
  {
    var list := g.dependers[Port(a, s)];
    forall b ensures b in names <==> WaitsAtStage(g, b, a, s) {
      if b in names {
        var j :| 0 <= j < |names| && names[j] == b;
        assert list[j] == Port(b, list[j].stage);
      }
      if WaitsAtStage(g, b, a, s) {
        var t :| Port(b, t) in list;
        var j :| 0 <= j < |list| && list[j] == Port(b, t);
        assert names[j] == b;
      }
    }
  }

  /** Seen through its node map, a graph has a cycle exactly when the map has one. */
  lemma CyclesAgree(g: Graph, m: Acyclicity.DependerMap)
    requires Shaped(g) && Lists(g, m)
    ensures Acyclicity.Closed(m)
    ensures Acyclicity.HasCycle(m) <==> GraphHasCycle(g)
  {
    ListsIsClosed(g, m);
    forall w ensures Acyclicity.IsCycle(m, w) <==> IsGraphCycle(g, w) {
      CycleInBoth(g, m, w);
    }
    if GraphHasCycle(g) {
      var w :| IsGraphCycle(g, w);
      assert Acyclicity.IsCycle(m, w);
    }
    if Acyclicity.HasCycle(m) {
      var w :| Acyclicity.IsCycle(m, w);
      assert IsGraphCycle(g, w);
    }
  }

  lemma WaitingNodesAreKnown(g: Graph, b: string, a: string)
    requires Shaped(g) && WaitsFor(g, b, a)
    ensures a in g.nodes && b in g.nodes
  {
    var s :| WaitsAtStage(g, b, a, s);
    var t :| Port(b, t) in g.dependers[Port(a, s)];
    var k :| 0 <= k < |g.dependers[Port(a, s)]| && g.dependers[Port(a, s)][k] == Port(b, t);
    assert g.dependers[Port(a, s)][k] in g.dependers;
  }

  lemma ListsIsClosed(g: Graph, m: Acyclicity.DependerMap)
    requires Shaped(g) && Lists(g, m)
    ensures Acyclicity.Closed(m)
  {
    forall n, d | n in m && d in m[n] ensures d in m {
      WaitingNodesAreKnown(g, d, n);
    }
  }

  lemma CycleInBoth(g: Graph, m: Acyclicity.DependerMap, w: seq<string>)
    requires Shaped(g) && Lists(g, m)
    ensures Acyclicity.IsCycle(m, w) <==> IsGraphCycle(g, w)
  {
    if IsGraphCycle(g, w) {
      forall i | 0 <= i < |w| ensures w[i] in m {
        if i > 0 {
          WaitingNodesAreKnown(g, w[i - 1 + 1], w[i - 1]);
        } else {
          WaitingNodesAreKnown(g, w[i + 1], w[i]);
        }
      }
    }
    if Acyclicity.IsCycle(m, w) {
      forall i | 0 <= i < |w| - 1 ensures WaitsFor(g, w[i + 1], w[i]) {
        assert w[i + 1] in m[w[i]];
      }
    }
  }

  ghost function NodeMap(g: Graph): (m: Acyclicity.DependerMap)
    requires Shaped(g)
  {
    map n | n in g.nodes ::
      NodeNames(g.dependers[Port(n, Create)]) + NodeNames(g.dependers[Port(n, CreateLinks)]) +
      NodeNames(g.dependers[Port(n, Configure)]) + NodeNames(g.dependers[Port(n, Healthy)]) +
      NodeNames(g.dependers[Port(n, Exit)])
  }

  lemma NodeMapLists(g: Graph)
    requires Shaped(g)
    ensures Lists(g, NodeMap(g))
  {
    forall a, b | a in g.nodes ensures b in NodeMap(g)[a] <==> WaitsFor(g, b, a) {
      forall s: Stage ensures b in NodeNames(g.dependers[Port(a, s)]) <==> WaitsAtStage(g, b, a, s) {
        NamesWaiting(g, a, s, NodeNames(g.dependers[Port(a, s)]));
      }
      if WaitsFor(g, b, a) {
        var s :| WaitsAtStage(g, b, a, s);
        match s
        case Create =>
        case CreateLinks =>
        case Configure =>
        case Healthy =>
        case Exit =>
      }
    }
  }

  /** Without a cycle there is a rank: the round in which the check peels each node. */
  lemma AcyclicGraphHasRank(g: Graph) returns (rank: map<string, nat>)
    requires Shaped(g) && !GraphHasCycle(g)
    ensures GraphRanked(g, rank)
  {
    var m := NodeMap(g);
    NodeMapLists(g);
    CyclesAgree(g, m);
    Acyclicity.PeelingIsExact(m);
    Acyclicity.PeelRoundRanks(m);
    rank := Acyclicity.PeelRound(m);
    forall q, k | q in g.dependers && 0 <= k < |g.dependers[q]|
      ensures RanksAbove(g, rank, q, g.dependers[q][k])
    {
      var p := g.dependers[q][k];
      assert Port(q.node, q.stage) == q && Port(p.node, p.stage) == p;
      assert WaitsAtStage(g, p.node, q.node, q.stage);
      assert Acyclicity.RisesTo(m, rank, q.node, p.node);
    }
  }

  lemma WaitingRanksBelow(g: Graph, rank: map<string, nat>, b: string, a: string)
    requires GraphRanked(g, rank) && WaitsFor(g, b, a)
    ensures a in rank && b in rank && rank[b] < rank[a]
  {
    var s :| WaitsAtStage(g, b, a, s);
    var t :| Port(b, t) in g.dependers[Port(a, s)];
    var k :| 0 <= k < |g.dependers[Port(a, s)]| && g.dependers[Port(a, s)][k] == Port(b, t);
    assert RanksAbove(g, rank, Port(a, s), g.dependers[Port(a, s)][k]);
  }

  lemma {:induction false} RankFalls(g: Graph, rank: map<string, nat>, w: seq<string>, i: nat)
    requires GraphRanked(g, rank) && i < |w|
    requires forall j :: 0 <= j < |w| - 1 ==> WaitsFor(g, w[j + 1], w[j])
    ensures i > 0 ==> w[i] in rank && w[0] in rank && rank[w[i]] + i <= rank[w[0]]
  {
    if i > 0 {
      RankFalls(g, rank, w, i - 1);
      assert WaitsFor(g, w[i - 1 + 1], w[i - 1]);
      WaitingRanksBelow(g, rank, w[i], w[i - 1]);
    }
  }

  /** Any rank excludes cycles. */
  lemma RankedGraphIsAcyclic(g: Graph, rank: map<string, nat>)
    requires GraphRanked(g, rank)
    ensures !GraphHasCycle(g)
  {
    forall w | IsGraphCycle(g, w) ensures false {
      RankFalls(g, rank, w, |w| - 1);
    }
  }
}
