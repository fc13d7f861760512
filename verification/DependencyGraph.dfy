/** The values behind the deployment scheduler: the five stages a node goes through, and the
    dependency edges (dependee, stage) -> (depender, stage) with their wait-group counters. */
module DependencyGraph {

  datatype Stage = Create | CreateLinks | Configure | Healthy | Exit

  function AllStages(): (stages: set<Stage>)
    ensures forall s :: s in stages
  {
    set s: Stage | StageIndex(s) < 5
  }

  /** The order in which a node goes through its stages. */
  function StageIndex(s: Stage): (i: nat)
    ensures i < 5
  {
    match s
    case Create => 0
    case CreateLinks => 1
    case Configure => 2
    case Healthy => 3
    case Exit => 4
  }

  /** A node together with one of its stages. */
  datatype Port = Port(node: string, stage: Stage)

  /** One recorded edge: the position `index` in the depender list of `source`. */
  datatype Edge = Edge(source: Port, index: nat)

  /** dependers[q]: who waits for q, in the order in which the edges were added.
      counters[p]: how many signals p still waits for.
      mustWait: ports whose stage has to be awaited during deployment. */
  datatype Graph = Graph(
    nodes: set<string>,
    dependers: map<Port, seq<Port>>,
    counters: map<Port, int>,
    mustWait: set<Port>)

  ghost predicate Shaped(g: Graph) {
    && (forall p :: p in g.dependers <==> p.node in g.nodes)
    && g.counters.Keys == g.dependers.Keys && g.mustWait <= g.dependers.Keys
    && (forall q, k :: q in g.dependers && 0 <= k < |g.dependers[q]| ==>
          g.dependers[q][k] in g.dependers)
  }

  /** The edges into p whose position is not below sent[source]: those not yet signalled when each
      source has signalled the first sent[source] entries of its list. */
  ghost function Pending(dependers: map<Port, seq<Port>>, sent: map<Port, nat>, p: Port)
    : (edges: set<Edge>)
    requires sent.Keys == dependers.Keys
    ensures forall e :: e in edges <==> IsPending(dependers, sent, p, e)
  {
    set q, k | q in dependers && sent[q] <= k < |dependers[q]| && dependers[q][k] == p :: Edge(q, k)
  }

  ghost predicate IsPending(dependers: map<Port, seq<Port>>, sent: map<Port, nat>, p: Port, e: Edge)
    requires sent.Keys == dependers.Keys
  {
    && e.source in dependers
    && sent[e.source] <= e.index < |dependers[e.source]|
    && dependers[e.source][e.index] == p
  }

  ghost function NothingSent(dependers: map<Port, seq<Port>>): map<Port, nat> {
    map q | q in dependers :: 0
  }

  ghost function Incoming(g: Graph, p: Port): set<Edge> {
    Pending(g.dependers, NothingSent(g.dependers), p)
  }

  /** What AddDepender maintains: every counter is the number of edges into its port, and every
      port that somebody waits for must be awaited. */
  ghost predicate Recorded(g: Graph) {
    && Shaped(g)
    && (forall p :: p in g.counters ==> g.counters[p] == |Incoming(g, p)|)
    && (forall q :: q in g.dependers && g.dependers[q] != [] ==> q in g.mustWait)
  }

  function EdgeAdded(g: Graph, source: Port, target: Port): Graph
    requires source in g.dependers && target in g.counters
  {
    g.(dependers := g.dependers[source := g.dependers[source] + [target]],
       counters := g.counters[target := g.counters[target] + 1],
       mustWait := g.mustWait + {source})
  }

  ghost function EntryAdded(g: Graph, source: Port, target: Port): Graph
    requires source in g.dependers
  {
    g.(dependers := g.dependers[source := g.dependers[source] + [target]])
  }

  ghost function WaitRequired(g: Graph, source: Port): Graph {
    g.(mustWait := g.mustWait + {source})
  }

  ghost function CounterRaised(g: Graph, target: Port): Graph
    requires target in g.counters
  {
    g.(counters := g.counters[target := g.counters[target] + 1])
  }

  lemma EdgeAddedIncoming(g: Graph, source: Port, target: Port, p: Port)
    requires Shaped(g) && source in g.dependers && target in g.dependers && p in g.dependers
    ensures |Incoming(EdgeAdded(g, source, target), p)|
         == |Incoming(g, p)| + (if p == target then 1 else 0)
  {
    var before, after := Incoming(g, p), Incoming(EdgeAdded(g, source, target), p);
    var added := Edge(source, |g.dependers[source]|);
    forall e ensures e in after <==> e in before || (e == added && p == target) {
    }
    if p == target {
      assert after == before + {added};
    } else {
      assert after == before;
    }
  }

  lemma EntryAddedShaped(g: Graph, source: Port, target: Port)
    requires Shaped(g) && source in g.dependers && target in g.dependers
    ensures Shaped(EntryAdded(g, source, target))
  {
    var g' := EntryAdded(g, source, target);
    forall q, k | q in g'.dependers && 0 <= k < |g'.dependers[q]|
      ensures g'.dependers[q][k] in g'.dependers
    {
      if q == source && k == |g.dependers[q]| {
      } else {
        assert g'.dependers[q][k] == g.dependers[q][k];
      }
    }
  }

  /** Recording an edge keeps counters equal to the number of edges, for any two ports of known
      nodes, self-edges and repeated edges included. */
  lemma EdgeAddedRecorded(g: Graph, source: Port, target: Port)
    requires Recorded(g) && source in g.dependers && target in g.dependers
    ensures Recorded(EdgeAdded(g, source, target))
  {
    EntryAddedShaped(g, source, target);
    var g' := EdgeAdded(g, source, target);
    forall q | q in g'.dependers && g'.dependers[q] != [] ensures q in g'.mustWait {
      assert q != source ==> g'.dependers[q] == g.dependers[q];
    }
    forall p | p in g'.counters ensures g'.counters[p] == |Incoming(g', p)| {
      EdgeAddedIncoming(g, source, target, p);
    }
  }

  /** How many times the edge source -> target was recorded. */
  ghost function EdgeCount(g: Graph, source: Port, target: Port): nat {
    if source in g.dependers then multiset(g.dependers[source])[target] else 0
  }

  lemma EdgeAddedCount(g: Graph, source: Port, target: Port, q: Port, p: Port)
    requires source in g.dependers && target in g.counters
    ensures EdgeCount(EdgeAdded(g, source, target), q, p)
         == EdgeCount(g, q, p) + (if q == source && p == target then 1 else 0)
  {
    if q == source {
      assert multiset(g.dependers[source] + [target])
          == multiset(g.dependers[source]) + multiset([target]);
    }
  }

  lemma EdgeCountPositive(g: Graph, q: Port, p: Port)
    requires q in g.dependers
    ensures EdgeCount(g, q, p) > 0 <==> p in g.dependers[q]
  {
  }

  /** The graph after one signal to each port of the list. */
  ghost function Signalled(g: Graph, list: seq<Port>): Graph {
    g.(counters := Lowered(g.counters, list))
  }

  ghost function Lowered(counters: map<Port, int>, list: seq<Port>): map<Port, int> {
    map p | p in counters :: counters[p] - multiset(list)[p]
  }

  /** A freshly registered node: no edges, and waits only for the exec stages it was given. */
  ghost function WithNode(g: Graph, name: string, execs: set<Stage>): Graph {
    Graph(
      g.nodes + {name},
      map q: Port | q in g.dependers.Keys + PortsOfNode(name) :: if q.node == name then [] else g.dependers[q],
      map q: Port | q in g.counters.Keys + PortsOfNode(name) :: if q.node == name then 0 else g.counters[q],
      g.mustWait + ExecPorts(name, execs))
  }

  ghost function ExecPorts(name: string, execs: set<Stage>): (ports: set<Port>)
    ensures forall p :: p in ports <==>
              p.node == name && p.stage in execs && p.stage in {CreateLinks, Configure, Healthy}
  {
    set s | s in execs && s in {CreateLinks, Configure, Healthy} :: Port(name, s)
  }

  lemma SignalledNone(g: Graph)
    ensures Signalled(g, []) == g
  {
    assert Lowered(g.counters, []) == g.counters;
  }

  lemma SignalledStep(g: Graph, list: seq<Port>, i: nat)
    requires i < |list| && list[i] in g.counters && multiset(list)[list[i]] <= g.counters[list[i]]
    ensures list[i] in Signalled(g, list[..i]).counters && Signalled(g, list[..i]).counters[list[i]] > 0
    ensures Signalled(Signalled(g, list[..i]), [list[i]]) == Signalled(g, list[..i + 1])
  {
    assert list == list[..i] + [list[i]] + list[i + 1..];
    assert list[..i + 1] == list[..i] + [list[i]];
    var now, next := Signalled(Signalled(g, list[..i]), [list[i]]), Signalled(g, list[..i + 1]);
    forall p | p in g.counters ensures now.counters[p] == next.counters[p] {
      assert multiset(list[..i + 1])[p] == multiset(list[..i])[p] + multiset([list[i]])[p];
    }
  }

  ghost function PortsOfNode(name: string): (ports: set<Port>)
    ensures forall p :: p in ports <==> p.node == name
  {
    set s | s in AllStages() :: Port(name, s)
  }

  ghost function NodeNames(ports: seq<Port>): (names: seq<string>)
    ensures |names| == |ports|
    ensures forall i :: 0 <= i < |ports| ==> names[i] == ports[i].node
  {
    seq(|ports|, i requires 0 <= i < |ports| => ports[i].node)
  }
}
