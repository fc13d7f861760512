/** Generating a Clos topology: every node of a stage is linked to every node of the next stage. */
module ClosTopology {

  /** A link is the k-th of node j of stage i, all counted from zero; so is its far end. */
  datatype Triple = Triple(i: nat, j: nat, k: nat)

  datatype End = End(node: string, iface: nat)

  datatype Link = Link(a: End, b: End)

  datatype NodeDef = NodeDef(stage: nat)

  function Digit(d: nat): char
    requires d < 10
  {
    "0123456789"[d]
  }

  function Decimal(n: nat): string {
    if n < 10 then [Digit(n)] else Decimal(n / 10) + [Digit(n % 10)]
  }

  function NodeName(prefix: string, stage: nat, pos: nat): string {
    prefix + Decimal(stage + 1) + "-" + Decimal(pos + 1)
  }

  /** The number that a string of digits stands for. */
  function NumberOf(s: string): int {
    if s == "" then 0 else 10 * NumberOf(s[..|s| - 1]) + (s[|s| - 1] as int - '0' as int)
  }

  /** Numbers are written with digits, without leading zeros, and stand for themselves. */
  lemma {:induction false} DecimalIs(n: nat)
    ensures NumberOf(Decimal(n)) == n && Decimal(n) != "" && forall c :: c in Decimal(n) ==> '0' <= c <= '9'
    ensures n > 0 ==> Decimal(n)[0] != '0'
  {
    assert forall d: nat :: d < 10 ==> Digit(d) as int == '0' as int + d;
    if n < 10 {
      assert Decimal(n)[..0] == "";
    } else {
      DecimalIs(n / 10);
      assert Decimal(n)[..|Decimal(n)| - 1] == Decimal(n / 10);
    }
  }

  lemma DigitInjective(a: nat, b: nat)
    requires a < 10 && b < 10 && Digit(a) == Digit(b)
    ensures a == b
  {
  }

  lemma {:induction false} DecimalInjective(a: nat, b: nat)
    requires Decimal(a) == Decimal(b)
    ensures a == b
  {
    hide Decimal, Digit;
    LastDigit(a);
    LastDigit(b);
    DigitInjective(a % 10, b % 10);
    if a >= 10 {
      DecimalInjective(a / 10, b / 10);
    }
  }

  lemma LastDigit(n: nat)
    ensures |Decimal(n)| > 0 && (|Decimal(n)| > 1 <==> n >= 10)
    ensures Decimal(n)[|Decimal(n)| - 1] == Digit(n % 10)
    ensures n >= 10 ==> Decimal(n)[..|Decimal(n)| - 1] == Decimal(n / 10)
  {
    if n >= 10 {
      assert |Decimal(n / 10)| > 0;
    }
  }

  lemma {:induction false} DecimalHasNoDash(n: nat)
    ensures '-' !in Decimal(n)
  {
    if n >= 10 {
      DecimalHasNoDash(n / 10);
    }
  }

  lemma SplitAtDash(a: string, b: string, c: string, d: string)
    requires '-' !in a && '-' !in c && a + "-" + b == c + "-" + d
    ensures a == c && b == d
  {
    var s := a + "-" + b;
    assert s[|a|] == '-' && s[|c|] == '-';
    assert forall x :: 0 <= x < |a| ==> s[x] == a[x];
    assert forall x :: 0 <= x < |c| ==> s[x] == c[x];
    assert |a| == |c|;
    assert a == s[..|a|] && b == s[|a| + 1..];
  }

  /** Different positions have different names. */
  lemma NamesDiffer(prefix: string, s: nat, p: nat, t: nat, q: nat)
    requires NodeName(prefix, s, p) == NodeName(prefix, t, q)
    ensures s == t && p == q
  {
    var a, b, c, d := Decimal(s + 1), Decimal(p + 1), Decimal(t + 1), Decimal(q + 1);
    assert NodeName(prefix, s, p)[|prefix|..] == a + "-" + b;
    assert NodeName(prefix, t, q)[|prefix|..] == c + "-" + d;
    DecimalHasNoDash(s + 1);
    DecimalHasNoDash(t + 1);
    SplitAtDash(a, b, c, d);
    DecimalInjective(s + 1, t + 1);
    DecimalInjective(p + 1, q + 1);
  }

  // The links.

  /** How many nodes the stage before has. */
  function Before(stages: seq<nat>, s: nat): nat {
    if 0 < s <= |stages| then stages[s - 1] else 0
  }

  /** How many nodes the stage after has. */
  function After(stages: seq<nat>, s: nat): nat {
    if s + 1 < |stages| then stages[s + 1] else 0
  }

  function LinkOf(prefix: string, stages: seq<nat>, t: Triple): Link {
    Link(End(NodeName(prefix, t.i, t.j), t.k + 1 + Before(stages, t.i)), End(NodeName(prefix, t.i + 1, t.k), t.j + 1))
  }

  predicate InRange(stages: seq<nat>, t: Triple) {
    t.i + 1 < |stages| && t.j < stages[t.i] && t.k < stages[t.i + 1]
  }

  predicate Precedes(a: Triple, b: Triple) {
    a.i < b.i || (a.i == b.i && (a.j < b.j || (a.j == b.j && a.k < b.k)))
  }

  ghost predicate Increasing(order: seq<Triple>) {
    forall x, y :: 0 <= x < y < |order| ==> Precedes(order[x], order[y])
  }

  /** The order holds exactly the triples in range before the given one. */
  ghost predicate Complete(stages: seq<nat>, order: seq<Triple>, upTo: Triple) {
    forall t :: t in order <==> InRange(stages, t) && Precedes(t, upTo)
  }

  ghost predicate Reflects(prefix: string, stages: seq<nat>, links: seq<Link>, order: seq<Triple>) {
    |links| == |order| && forall x :: 0 <= x < |order| ==> links[x] == LinkOf(prefix, stages, order[x])
  }

  function LinkCount(stages: seq<nat>, m: nat): nat
    requires m == 0 || m < |stages|
  {
    if m == 0 then 0 else LinkCount(stages, m - 1) + stages[m - 1] * stages[m]
  }

  lemma AddNext(prefix: string, stages: seq<nat>, links: seq<Link>, order: seq<Triple>, t: Triple)
    requires InRange(stages, t) && Increasing(order) && Complete(stages, order, t)
    requires Reflects(prefix, stages, links, order)
    ensures Increasing(order + [t]) && Complete(stages, order + [t], Triple(t.i, t.j, t.k + 1))
    ensures Reflects(prefix, stages, links + [LinkOf(prefix, stages, t)], order + [t])
  {
    assert forall x :: 0 <= x < |order| ==> order[x] in order;
  }

  /** Nothing in range lies between the end of a row, or of a stage, and what comes next. */
  lemma NextRow(stages: seq<nat>, order: seq<Triple>, i: nat, j: nat)
    requires i + 1 < |stages| && Complete(stages, order, Triple(i, j, stages[i + 1]))
    ensures Complete(stages, order, Triple(i, j + 1, 0))
  {
  }

  lemma NextStage(stages: seq<nat>, order: seq<Triple>, i: nat)
    requires i + 1 < |stages| && Complete(stages, order, Triple(i, stages[i], 0))
    ensures Complete(stages, order, Triple(i + 1, 0, 0))
  {
  }

  /** Which nodes are defined: those of a single stage, and those that some pass of the loops meets. */
  predicate Met(stages: seq<nat>, s: nat, p: nat) {
    && s < |stages| && p < stages[s]
    && (|stages| == 1 || s + 1 < |stages| || Before(stages, s) > 0)
  }

  datatype Place = Place(stage: nat, pos: nat)

  /** What the loops have met: the first j nodes of stage i, and of the next stage the first k or, after a
      complete row, all. */
  predicate MetBy(stages: seq<nat>, i: nat, j: nat, row: bool, k: nat, p: Place) {
    && p.stage < |stages| && p.pos < stages[p.stage]
    && (p.stage < i || (p.stage == i && (p.pos < j || Before(stages, i) > 0))
        || (p.stage == i + 1 && (row || p.pos < k)))
  }

  ghost predicate MetAre(stages: seq<nat>, met: set<Place>, i: nat, j: nat, row: bool, k: nat) {
    forall p :: p in met <==> MetBy(stages, i, j, row, k, p)
  }

  ghost predicate NodesAre(prefix: string, nodes: map<string, NodeDef>, met: set<Place>) {
    && (forall p :: p in met ==> NodeName(prefix, p.stage, p.pos) in nodes
                                 && nodes[NodeName(prefix, p.stage, p.pos)] == NodeDef(p.stage))
    && (forall n :: n in nodes ==> exists p :: p in met && n == NodeName(prefix, p.stage, p.pos))
  }

  /** Defines the node unless it is defined already. */
  method AddNode(prefix: string, nodes: map<string, NodeDef>, stage: nat, pos: nat, ghost met: set<Place>)
    returns (more: map<string, NodeDef>)
    requires NodesAre(prefix, nodes, met)
    ensures NodesAre(prefix, more, met + {Place(stage, pos)})
  {
    var node := NodeName(prefix, stage, pos);
    more := nodes;
    if node !in nodes {
      more := nodes[node := NodeDef(stage)];
      forall n | n in more ensures exists p :: p in met + {Place(stage, pos)} && n == NodeName(prefix, p.stage, p.pos) {
        if n == node {
          assert Place(stage, pos) in met + {Place(stage, pos)};
        } else {
          var p :| p in met && n == NodeName(prefix, p.stage, p.pos);
          assert p in met + {Place(stage, pos)};
        }
      }
    } else {
      ghost var p :| p in met && node == NodeName(prefix, p.stage, p.pos);
      NamesDiffer(prefix, p.stage, p.pos, stage, pos);
      assert met + {Place(stage, pos)} == met;
    }
  }

  /** All links of node j of stage i. */
  method AddRow(prefix: string, stages: seq<nat>, i: nat, j: nat, nodes: map<string, NodeDef>, links: seq<Link>,
                ghost order: seq<Triple>, ghost met: set<Place>)
    returns (nodes': map<string, NodeDef>, links': seq<Link>, ghost order': seq<Triple>, ghost met': set<Place>)
    requires i + 1 < |stages| && j < stages[i]
    requires NodesAre(prefix, nodes, met) && MetAre(stages, met, i, j, j > 0, 0)
    requires Increasing(order) && Complete(stages, order, Triple(i, j, 0)) && Reflects(prefix, stages, links, order)
    ensures NodesAre(prefix, nodes', met') && MetAre(stages, met', i, j + 1, true, 0)
    ensures Increasing(order') && Complete(stages, order', Triple(i, j + 1, 0))
    ensures Reflects(prefix, stages, links', order')
    ensures |links'| == |links| + stages[i + 1]
  {
    hide NodesAre, Increasing, Complete, Reflects, MetAre, NodeName, LinkOf;
    var interfaceOffset := if i > 0 then stages[i - 1] else 0;
    links', order' := links, order;
    nodes' := AddNode(prefix, nodes, i, j, met);
    met' := met + {Place(i, j)};
    MeetNode(stages, met, i, j);
    for k := 0 to stages[i + 1]
      invariant NodesAre(prefix, nodes', met') && MetAre(stages, met', i, j + 1, j > 0, k)
      invariant Increasing(order') && Complete(stages, order', Triple(i, j, k))
      invariant Reflects(prefix, stages, links', order') && |links'| == |links| + k
    {
      nodes' := AddNode(prefix, nodes', i + 1, k, met');
      MeetPeer(stages, met', i, j, k);
      met' := met' + {Place(i + 1, k)};
      var l := Link(End(NodeName(prefix, i, j), k + 1 + interfaceOffset), End(NodeName(prefix, i + 1, k), j + 1));
      LinkIs(prefix, stages, Triple(i, j, k));
      AddNext(prefix, stages, links', order', Triple(i, j, k));
      links', order' := links' + [l], order' + [Triple(i, j, k)];
    }
    NextRow(stages, order', i, j);
    MeetRow(stages, met', i, j);
  }

  lemma LinkIs(prefix: string, stages: seq<nat>, t: Triple)
    requires InRange(stages, t)
    ensures LinkOf(prefix, stages, t)
         == Link(End(NodeName(prefix, t.i, t.j), t.k + 1 + if t.i > 0 then stages[t.i - 1] else 0),
                 End(NodeName(prefix, t.i + 1, t.k), t.j + 1))
  {
  }

  lemma MeetNode(stages: seq<nat>, met: set<Place>, i: nat, j: nat)
    requires i + 1 < |stages| && j < stages[i] && MetAre(stages, met, i, j, j > 0, 0)
    ensures MetAre(stages, met + {Place(i, j)}, i, j + 1, j > 0, 0)
  {
  }

  lemma MeetPeer(stages: seq<nat>, met: set<Place>, i: nat, j: nat, k: nat)
    requires i + 1 < |stages| && j < stages[i] && k < stages[i + 1] && MetAre(stages, met, i, j + 1, j > 0, k)
    ensures MetAre(stages, met + {Place(i + 1, k)}, i, j + 1, j > 0, k + 1)
  {
  }

  lemma MeetRow(stages: seq<nat>, met: set<Place>, i: nat, j: nat)
    requires i + 1 < |stages| && MetAre(stages, met, i, j + 1, j > 0, stages[i + 1])
    ensures MetAre(stages, met, i, j + 1, true, 0)
  {
  }

  lemma MeetStage(stages: seq<nat>, met: set<Place>, i: nat)
    requires i + 1 < |stages| && MetAre(stages, met, i, stages[i], stages[i] > 0, 0)
    ensures MetAre(stages, met, i + 1, 0, false, 0)
  {
  }

  /** A single stage has nodes but no links. */
  method SingleStage(prefix: string, stages: seq<nat>) returns (nodes: map<string, NodeDef>, ghost met: set<Place>)
    requires |stages| == 1
    ensures NodesAre(prefix, nodes, met) && MetAre(stages, met, 0, stages[0], false, 0)
  {
    nodes, met := map[], {};
    for j := 0 to stages[0]
      invariant NodesAre(prefix, nodes, met) && MetAre(stages, met, 0, j, false, 0)
    {
      nodes := AddNode(prefix, nodes, 0, j, met);
      met := met + {Place(0, j)};
    }
  }

  method GenerateTopologyConfig(prefix: string, stages: seq<nat>)
    returns (nodes: map<string, NodeDef>, links: seq<Link>, ghost order: seq<Triple>, ghost met: set<Place>)
    ensures Reflects(prefix, stages, links, order) && Increasing(order)
    ensures forall t :: t in order <==> InRange(stages, t)
    ensures stages != [] ==> |links| == LinkCount(stages, |stages| - 1)
    ensures NodesAre(prefix, nodes, met) && forall p :: p in met <==> Met(stages, p.stage, p.pos)
  {
    hide NodesAre, Increasing, Reflects, NodeName, LinkOf;
    Nothing(prefix, stages);
    links, order := [], [];
    if |stages| == 0 {
      return map[], [], [], {};
    }
    if |stages| == 1 {
      nodes, met := SingleStage(prefix, stages);
      return;
    }
    nodes, met := map[], {};
    for i := 0 to |stages| - 1
      invariant NodesAre(prefix, nodes, met) && MetAre(stages, met, i, 0, false, 0)
      invariant Increasing(order) && Complete(stages, order, Triple(i, 0, 0))
      invariant Reflects(prefix, stages, links, order) && |links| == LinkCount(stages, i)
    {
      ghost var before := |links|;
      for j := 0 to stages[i]
        invariant NodesAre(prefix, nodes, met) && MetAre(stages, met, i, j, j > 0, 0)
        invariant Increasing(order) && Complete(stages, order, Triple(i, j, 0))
        invariant Reflects(prefix, stages, links, order) && |links| == before + j * stages[i + 1]
      {
        nodes, links, order, met := AddRow(prefix, stages, i, j, nodes, links, order, met);
      }
      NextStage(stages, order, i);
      MeetStage(stages, met, i);
    }
  }

  lemma Nothing(prefix: string, stages: seq<nat>)
    ensures NodesAre(prefix, map[], {}) && Reflects(prefix, stages, [], []) && Increasing([])
  {
  }

  // What the links amount to.

  function EndAt(link: Link, far: bool): End {
    if far then link.b else link.a
  }

  /** Everything generated is as GenerateTopologyConfig says. */
  ghost predicate Generated(prefix: string, stages: seq<nat>, links: seq<Link>, order: seq<Triple>) {
    && Reflects(prefix, stages, links, order) && Increasing(order)
    && forall t :: t in order <==> InRange(stages, t)
  }

  /** No interface of a node is in two links, or twice in one. */
  lemma InterfaceUsedOnce(prefix: string, stages: seq<nat>, links: seq<Link>, order: seq<Triple>,
                          x: nat, far: bool, y: nat, far': bool)
    requires Generated(prefix, stages, links, order) && x < |links| && y < |links|
    requires EndAt(links[x], far) == EndAt(links[y], far')
    ensures x == y && far == far'
  {
    var t, u := order[x], order[y];
    assert t in order && u in order && InRange(stages, t) && InRange(stages, u);
    NamesDiffer(prefix, if far then t.i + 1 else t.i, if far then t.k else t.j,
                if far' then u.i + 1 else u.i, if far' then u.k else u.j);
    assert t == u;
  }

  /** The link at which a node has the interface: towards the stage before for the low numbers, towards the
      stage after for the others. */
  function LinkAt(stages: seq<nat>, s: nat, p: nat, iface: nat): Triple
    requires 1 <= iface
  {
    if iface <= Before(stages, s) && s > 0 then Triple(s - 1, iface - 1, p)
    else Triple(s, p, if iface > Before(stages, s) then iface - 1 - Before(stages, s) else 0)
  }

  lemma InterfaceFound(prefix: string, stages: seq<nat>, links: seq<Link>, order: seq<Triple>,
                       s: nat, p: nat, iface: nat) returns (x: nat, far: bool)
    requires Generated(prefix, stages, links, order) && s < |stages| && p < stages[s]
    requires 1 <= iface <= Before(stages, s) + After(stages, s)
    ensures x < |links| && EndAt(links[x], far) == End(NodeName(prefix, s, p), iface)
  {
    hide NodeName, Increasing;
    var t := LinkAt(stages, s, p, iface);
    assert InRange(stages, t) && t in order;
    x :| 0 <= x < |order| && order[x] == t;
    far := t.i != s;
    assert links[x] == LinkOf(prefix, stages, t);
  }

  lemma InterfaceInRange(prefix: string, stages: seq<nat>, links: seq<Link>, order: seq<Triple>,
                         s: nat, p: nat, iface: nat, x: nat, far: bool)
    requires Generated(prefix, stages, links, order) && x < |links|
    requires EndAt(links[x], far) == End(NodeName(prefix, s, p), iface)
    ensures 1 <= iface <= Before(stages, s) + After(stages, s)
  {
    hide NodeName, Increasing;
    var t := order[x];
    assert t in order && InRange(stages, t);
    assert links[x] == LinkOf(prefix, stages, t);
    NamesDiffer(prefix, if far then t.i + 1 else t.i, if far then t.k else t.j, s, p);
  }

  /** Every node uses exactly the interfaces numbered from one to the sizes of its two neighbours. */
  lemma InterfacesAre(prefix: string, stages: seq<nat>, links: seq<Link>, order: seq<Triple>,
                      s: nat, p: nat, iface: nat)
    requires Generated(prefix, stages, links, order) && s < |stages| && p < stages[s]
    ensures (exists x, far :: 0 <= x < |links| && EndAt(links[x], far) == End(NodeName(prefix, s, p), iface))
       <==> 1 <= iface <= (if s > 0 then stages[s - 1] else 0) + (if s + 1 < |stages| then stages[s + 1] else 0)
  {
    hide NodeName, Generated;
    if 1 <= iface <= Before(stages, s) + After(stages, s) {
      var x, far := InterfaceFound(prefix, stages, links, order, s, p, iface);
    }
    if x, far :| 0 <= x < |links| && EndAt(links[x], far) == End(NodeName(prefix, s, p), iface) {
      InterfaceInRange(prefix, stages, links, order, s, p, iface, x, far);
    }
  }

  /** Every two nodes of neighbouring stages are linked, at the interfaces that their positions give. */
  lemma FullyMeshed(prefix: string, stages: seq<nat>, links: seq<Link>, order: seq<Triple>,
                    s: nat, p: nat, q: nat)
    requires Generated(prefix, stages, links, order) && s + 1 < |stages| && p < stages[s] && q < stages[s + 1]
    ensures exists x :: 0 <= x < |links| && links[x] ==
              Link(End(prefix + Decimal(s + 1) + "-" + Decimal(p + 1), q + 1 + if s > 0 then stages[s - 1] else 0),
                   End(prefix + Decimal(s + 2) + "-" + Decimal(q + 1), p + 1))
  {
    var t := Triple(s, p, q);
    assert InRange(stages, t) && t in order;
    var x :| 0 <= x < |order| && order[x] == t;
    assert links[x] == LinkOf(prefix, stages, t);
  }
}
