/** The leaf-peeling cycle check of the dependency manager, and why it is exact. */
module Acyclicity {
  import opened Wrappers

  /** Node name -> names of the nodes that wait for it, repetitions allowed. */
  type DependerMap = map<string, seq<string>>

  ghost predicate Closed(m: DependerMap) {
    forall n, d :: n in m && d in m[n] ==> d in m
  }

  ghost predicate IsWalk(m: DependerMap, w: seq<string>) {
    && w != []
    && (forall i :: 0 <= i < |w| ==> w[i] in m)
    && (forall i :: 0 <= i < |w| - 1 ==> w[i + 1] in m[w[i]])
  }

  ghost predicate IsCycle(m: DependerMap, w: seq<string>) {
    IsWalk(m, w) && |w| >= 2 && w[0] == w[|w| - 1]
  }

  ghost predicate HasCycle(m: DependerMap) {
    exists w :: IsCycle(m, w)
  }

  /** Every node ranks strictly above all nodes that wait for it. */
  ghost predicate Ranked(m: DependerMap, rank: map<string, nat>) {
    && m.Keys <= rank.Keys
    && (forall n, d :: n in m && d in m[n] ==> RisesTo(m, rank, n, d))
  }

  ghost predicate RisesTo(m: DependerMap, rank: map<string, nat>, n: string, d: string)
    requires n in m && m.Keys <= rank.Keys
  {
    d in m && rank[d] < rank[n]
  }

  function Leaves(m: DependerMap): set<string> {
    set n | n in m && m[n] == []
  }

  function Without(names: seq<string>, removed: set<string>): (kept: seq<string>)
    ensures forall d :: d in kept <==> d in names && d !in removed
  {
    if names == [] then []
    else (if names[0] in removed then [] else [names[0]]) + Without(names[1..], removed)
  }

  lemma WithoutAppend(names: seq<string>, d: string, removed: set<string>)
    ensures Without(names + [d], removed)
         == Without(names, removed) + (if d in removed then [] else [d])
  {
    if names == [] {
      assert names + [d] == [d];
    } else {
      assert (names + [d])[1..] == names[1..] + [d];
    }
  }

  function Peel(m: DependerMap): DependerMap {
    map n | n in m && m[n] != [] :: Without(m[n], Leaves(m))
  }

  lemma PeelShrinks(m: DependerMap)
    requires Leaves(m) != {}
    ensures |Peel(m)| < |m|
  {
    var leaf :| leaf in Leaves(m);
    assert Peel(m).Keys == m.Keys - Leaves(m);
    assert Peel(m).Keys <= m.Keys - {leaf};
    SubsetSize(Peel(m).Keys, m.Keys - {leaf});
  }

  /** The result of peeling round after round. */
  ghost predicate PeelsAway(m: DependerMap)
    decreases |m|
  {
    m == map[] || (Leaves(m) != {} && (PeelShrinks(m); PeelsAway(Peel(m))))
  }

  /** The round in which each node is peeled. */
  ghost function PeelRound(m: DependerMap): (round: map<string, nat>)
    requires PeelsAway(m)
    ensures round.Keys == m.Keys
    decreases |m|
  {
    if m == map[] then map[] else PeelShrinks(m); OneRoundMore(m, PeelRound(Peel(m)))
  }

  ghost function OneRoundMore(m: DependerMap, later: map<string, nat>): (round: map<string, nat>)
    requires later.Keys == Peel(m).Keys
    ensures round.Keys == m.Keys
  {
    map n | n in m :: if n in Leaves(m) then 0 else 1 + later[n]
  }

  lemma OneRoundMoreRanks(m: DependerMap, later: map<string, nat>)
    requires later.Keys == Peel(m).Keys && Ranked(Peel(m), later)
    ensures Ranked(m, OneRoundMore(m, later))
  {
    forall n, d | n in m && d in m[n]
      ensures RisesTo(m, OneRoundMore(m, later), n, d)
    {
      OneRoundMoreRises(m, later, n, d);
    }
  }

  lemma OneRoundMoreRises(m: DependerMap, later: map<string, nat>, n: string, d: string)
    requires later.Keys == Peel(m).Keys && Ranked(Peel(m), later)
    requires n in m && d in m[n]
    ensures RisesTo(m, OneRoundMore(m, later), n, d)
  {
    SurvivorsOf(m, n, d);
    if d !in Leaves(m) {
      assert RisesTo(Peel(m), later, n, d);
    }
  }

  // A node that somebody waits for is no leaf, and keeps every depender that is none either.
  lemma SurvivorsOf(m: DependerMap, n: string, d: string)
    requires n in m && d in m[n]
    ensures n !in Leaves(m) && n in Peel(m)
    ensures d in Leaves(m) || d in Peel(m)[n]
  {
  }

  lemma {:induction false} PeelRoundRanks(m: DependerMap)
    requires PeelsAway(m)
    ensures Ranked(m, PeelRound(m))
    decreases |m|
  {
    if m != map[] {
      PeelShrinks(m);
      PeelRoundRanks(Peel(m));
      OneRoundMoreRanks(m, PeelRound(Peel(m)));
    }
  }

  // A rank excludes cycles: it descends along every walk.
  lemma {:induction false} RankDescends(m: DependerMap, rank: map<string, nat>, w: seq<string>)
    requires Ranked(m, rank) && IsWalk(m, w)
    ensures rank[w[|w| - 1]] + |w| - 1 <= rank[w[0]]
  {
    if |w| > 1 {
      RankDescends(m, rank, w[1..]);
      assert w[1] in m[w[0]] && RisesTo(m, rank, w[0], w[1]);
    }
  }

  lemma RankedHasNoCycle(m: DependerMap, rank: map<string, nat>)
    requires Ranked(m, rank)
    ensures Closed(m) && !HasCycle(m)
  {
    forall w | IsCycle(m, w) ensures false {
      RankDescends(m, rank, w);
    }
  }

  // The other direction: in a closed map without leaves one can walk for ever.
  ghost function WalkFrom(m: DependerMap, n: string, steps: nat): (w: seq<string>)
    requires Closed(m) && Leaves(m) == {} && n in m
    ensures |w| == steps + 1 && w[0] == n
    ensures IsWalk(m, w)
    decreases steps
  {
    assert n !in Leaves(m);
    if steps == 0 then [n] else [n] + WalkFrom(m, m[n][0], steps - 1)
  }

  lemma {:induction false} Pigeonhole(w: seq<string>, names: set<string>) returns (i: nat, j: nat)
    requires |w| > |names|
    requires forall k :: 0 <= k < |w| ==> w[k] in names
    ensures i < j < |w| && w[i] == w[j]
    decreases |w|
  {
    var last := |w| - 1;
    if exists k :: 0 <= k < last && w[k] == w[last] {
      i :| 0 <= i < last && w[i] == w[last];
      j := last;
    } else {
      i, j := Pigeonhole(w[..last], names - {w[last]});
    }
  }

  lemma LeaflessHasCycle(m: DependerMap)
    requires Closed(m) && Leaves(m) == {} && m != map[]
    ensures HasCycle(m)
  {
    var n :| n in m;
    var w := WalkFrom(m, n, |m|);
    var i, j := Pigeonhole(w, m.Keys);
    assert IsCycle(m, w[i..j + 1]);
  }

  lemma CycleSurvivesUnpeeling(m: DependerMap)
    requires HasCycle(Peel(m))
    ensures HasCycle(m)
  {
    var w :| IsCycle(Peel(m), w);
    assert IsCycle(m, w);
  }

  lemma PeelClosed(m: DependerMap)
    requires Closed(m)
    ensures Closed(Peel(m))
  {
  }

  lemma {:induction false} StuckHasCycle(m: DependerMap)
    requires Closed(m) && !PeelsAway(m)
    ensures HasCycle(m)
    decreases |m|
  {
    if Leaves(m) == {} {
      LeaflessHasCycle(m);
    } else {
      PeelShrinks(m);
      PeelClosed(m);
      StuckHasCycle(Peel(m));
      CycleSurvivesUnpeeling(m);
    }
  }

  /** Peeling empties the map exactly when all names are known and there is no cycle. */
  lemma PeelingIsExact(m: DependerMap)
    ensures PeelsAway(m) <==> Closed(m) && !HasCycle(m)
  {
    if PeelsAway(m) {
      PeelRoundRanks(m);
      RankedHasNoCycle(m, PeelRound(m));
    } else if Closed(m) {
      StuckHasCycle(m);
    }
  }

  /** The recursive check, one call a round. No condition on the map: a name that waits without
      being a key counts against it, and a self-dependency or a repeated entry is handled. */
  method IsAcyclic(nodeDependers: DependerMap, i: nat) returns (acyclic: bool)
    ensures acyclic <==> Closed(nodeDependers) && !HasCycle(nodeDependers)
    decreases |nodeDependers|
  {
    PeelingIsExact(nodeDependers);
    if |nodeDependers| == 0 {
      return true;
    }
    var remaining, leafNodes := SplitLeaves(nodeDependers);
    if |leafNodes| == 0 {
      assert Leaves(nodeDependers) == {};
      return false;
    }
    assert leafNodes[0] in Leaves(nodeDependers);
    remaining := DropLeaves(nodeDependers, remaining, leafNodes);
    PeelShrinks(nodeDependers);
    PeelingIsExact(remaining);
    acyclic := IsAcyclic(remaining, i + 1);
  }

  /** First loop: nodes that still have dependers stay, the others become leaves. */
  method SplitLeaves(nodeDependers: DependerMap)
    returns (remaining: DependerMap, leafNodes: seq<string>)
    ensures remaining == map n | n in nodeDependers && nodeDependers[n] != [] :: nodeDependers[n]
    ensures forall n :: n in leafNodes <==> n in Leaves(nodeDependers)
  {
    remaining, leafNodes := map[], [];
    var todo := nodeDependers.Keys;
    while todo != {}
      invariant todo <= nodeDependers.Keys
      invariant remaining
             == map n | n in nodeDependers && n !in todo && nodeDependers[n] != [] :: nodeDependers[n]
      invariant forall n :: n in leafNodes <==> n in Leaves(nodeDependers) && n !in todo
    {
      var dependee :| dependee in todo;
      if |nodeDependers[dependee]| > 0 {
        remaining := remaining[dependee := nodeDependers[dependee]];
      } else {
        leafNodes := leafNodes + [dependee];
      }
      todo := todo - {dependee};
    }
  }

  /** Second loop: forget the leaves in the lists of the remaining nodes. */
  method DropLeaves(ghost m: DependerMap, nodes: DependerMap, leafNodes: seq<string>)
    returns (remaining: DependerMap)
    requires nodes == map n | n in m && m[n] != [] :: m[n]
    requires forall n :: n in leafNodes <==> n in Leaves(m)
    ensures remaining == Peel(m)
  {
    remaining := nodes;
    var todo := nodes.Keys;
    while todo != {}
      invariant todo <= nodes.Keys == remaining.Keys
      invariant forall n :: n in nodes ==>
                  remaining[n] == if n in todo then m[n] else Without(m[n], Leaves(m))
    {
      var dependee :| dependee in todo;
      var kept := KeepOthers(remaining[dependee], leafNodes, Leaves(m));
      remaining := remaining[dependee := kept];
      todo := todo - {dependee};
    }
  }

  method KeepOthers(dependers: seq<string>, leafNodes: seq<string>, ghost leaves: set<string>)
    returns (kept: seq<string>)
    requires forall n :: n in leafNodes <==> n in leaves
    ensures kept == Without(dependers, leaves)
  {
    kept := [];
    for i := 0 to |dependers|
      invariant kept == Without(dependers[..i], leaves)
    {
      var keep := true;
      for j := 0 to |leafNodes|
        invariant keep
        invariant dependers[i] !in leafNodes[..j]
      {
        if leafNodes[j] == dependers[i] {
          keep := false;
          break;
        }
      }
      if keep {
        kept := kept + [dependers[i]];
      }
      WithoutAppend(dependers[..i], dependers[i], leaves);
      assert dependers[..i + 1] == dependers[..i] + [dependers[i]];
    }
    assert dependers[..|dependers|] == dependers;
  }
}
