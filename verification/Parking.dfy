/** Parking a node's interfaces and bringing them back: transactional moves between two nodes, and the
    rebuilding of the parking node's bookkeeping from what its namespace really holds. */
module Parking {
  import opened EndpointOwnership
  import opened CarriedLinks

  /** Whether the interface counts as one of the node's dataplane interfaces. */
  predicate IsOwnedInterface(links: Links, ns: string, known: set<string>, name: string) {
    && name != "lo" && name != "eth0" && Loc(ns, name) in links && links[Loc(ns, name)].kind.Veth?
    && (name in known || links[Loc(ns, name)].altName) && !PeerPresent(links, ns, links[Loc(ns, name)].kind)
  }

  ghost function OwnedNames(links: Links, ns: string, known: set<string>): (names: set<string>)
    ensures forall n :: n in names <==> IsOwnedInterface(links, ns, known, n)
  {
    set l | l in links && l.ns == ns && IsOwnedInterface(links, ns, known, l.name) :: l.name
  }

  /** An interface counts if it is an end of a veth pair other than lo and eth0, tracked or with the altname,
      and no interface of the namespace is the other end of the pair. */
  lemma OwnedExactly(links: Links, ns: string, known: set<string>, n: string)
    ensures IsOwnedInterface(links, ns, known, n) <==>
            && n !in {"lo", "eth0"} && Loc(ns, n) in links && links[Loc(ns, n)].kind.Veth?
            && (n in known || links[Loc(ns, n)].altName)
            && forall m :: Loc(ns, m) in links ==>
                 links[Loc(ns, m)].kind != Veth(links[Loc(ns, n)].kind.pair, !links[Loc(ns, n)].kind.side)
  {
    if Loc(ns, n) in links && links[Loc(ns, n)].kind.Veth? && PeerPresent(links, ns, links[Loc(ns, n)].kind) {
      var l :| l in links && l.ns == ns && links[l].kind == links[Loc(ns, n)].kind.Peer();
      assert l == Loc(ns, l.name);
    }
  }

  predicate NoRepeats(names: seq<string>) {
    forall i, j :: 0 <= i < j < |names| ==> names[i] != names[j]
  }

  /** The order of strings by their first different character. */
  predicate Precedes(a: string, b: string) {
    b != "" && (a == "" || a[0] < b[0] || (a[0] == b[0] && Precedes(a[1..], b[1..])))
  }

  /** One is the beginning of the other, or the first different characters decide. */
  lemma {:induction false} PrecedesMeans(a: string, b: string)
    ensures Precedes(a, b) <==> a < b || exists i :: FirstSmaller(a, b, i)
  {
    if a != "" && b != "" {
      PrecedesMeans(a[1..], b[1..]);
      if a[0] == b[0] {
        assert a < b <==> a[1..] < b[1..];
        if i :| FirstSmaller(a[1..], b[1..], i) {
          SmallerBehind(a, b, i + 1);
        }
        if i :| FirstSmaller(a, b, i) {
          SmallerBehind(a, b, i);
        }
      } else if a[0] < b[0] {
        assert FirstSmaller(a, b, 0);
      }
    }
  }

  lemma SmallerBehind(a: string, b: string, i: int)
    requires a != "" && b != "" && a[0] == b[0]
    ensures FirstSmaller(a, b, i) <==> FirstSmaller(a[1..], b[1..], i - 1)
  {
    if 0 < i < |a| && i < |b| {
      assert a[..i] == [a[0]] + a[1..][..i - 1] && b[..i] == [b[0]] + b[1..][..i - 1];
      if a[..i] == b[..i] {
        assert a[1..][..i - 1] == a[..i][1..] && b[1..][..i - 1] == b[..i][1..];
      }
    }
  }

  ghost predicate FirstSmaller(a: string, b: string, i: int) {
    0 <= i < |a| && i < |b| && a[..i] == b[..i] && a[i] < b[i]
  }

  lemma {:induction false} PrecedesIsOrder(a: string, b: string, c: string)
    ensures !Precedes(a, a)
    ensures Precedes(a, b) || a == b || Precedes(b, a)
    ensures Precedes(a, b) && Precedes(b, c) ==> Precedes(a, c)
  {
    if a != "" {
      PrecedesIsOrder(a[1..], if b != "" then b[1..] else "", if c != "" then c[1..] else "");
    }
  }

  ghost predicate Sorted(names: seq<string>) {
    forall i, j :: 0 <= i < j < |names| ==> Precedes(names[i], names[j])
  }

  lemma SortedNoRepeats(names: seq<string>)
    requires Sorted(names)
    ensures NoRepeats(names)
  {
    forall i, j | 0 <= i < j < |names| ensures names[i] != names[j] {
      PrecedesIsOrder(names[i], names[j], "");
    }
  }

  method InsertName(names: seq<string>, name: string) returns (more: seq<string>)
    requires Sorted(names) && name !in names
    ensures Sorted(more) && forall n :: n in more <==> n in names || n == name
  {
    var i := 0;
    while i < |names| && Precedes(names[i], name)
      invariant i <= |names| && forall j :: 0 <= j < i ==> Precedes(names[j], name)
    {
      i := i + 1;
    }
    forall j | i <= j < |names| ensures Precedes(name, names[j]) {
      PrecedesIsOrder(name, names[i], "");
      PrecedesIsOrder(name, names[i], names[j]);
    }
    more := names[..i] + [name] + names[i..];
    assert names == names[..i] + names[i..];
  }

  /** The owned interfaces of the namespace, in order. */
  method ListOwnedInterfaceNames(k: Kernel, ns: string, known: set<string>, faulty: bool)
    returns (ok: bool, names: seq<string>)
    ensures ok ==> Sorted(names) && NoRepeats(names)
    ensures ok ==> forall n :: n in names <==> IsOwnedInterface(k.links, ns, known, n)
    ensures ok ==> ns in k.namespaces
    ensures !faulty && ns in k.namespaces ==> ok
  {
    var fails: bool := *;
    names := [];
    if ns !in k.namespaces || (faulty && fails) {
      return false, names;
    }
    var left := set l | l in k.links && l.ns == ns :: l;
    while left != {}
      invariant forall l :: l in left ==> l in k.links && l.ns == ns
      invariant Sorted(names) && forall l :: l in left ==> l.name !in names
      invariant forall n :: n in names ==> IsOwnedInterface(k.links, ns, known, n)
      invariant forall n :: IsOwnedInterface(k.links, ns, known, n) ==> n in names || Loc(ns, n) in left
    {
      var l :| l in left;
      left := left - {l};
      if IsOwnedInterface(k.links, ns, known, l.name) {
        names := InsertName(names, l.name);
      }
    }
    SortedNoRepeats(names);
    ok := true;
  }

  // Batches of endpoints.

  /** In both the bookkeeping and the kernel, home has room for the batch that holder holds. */
  ghost predicate Returnable(k: Kernel, moved: seq<Endpoint>, holder: LinkNode, home: LinkNode)
    reads k, moved, holder, home
  {
    && holder != home && holder.ns != home.ns && home.ns in k.namespaces
    && (forall e :: e in moved ==> e.node == holder)
    && Names(moved) !! Names(home.endpoints)
    && Holds(k.links, Names(moved), holder.ns, home.ns)
  }

  ghost predicate Holds(links: Links, names: set<string>, from: string, to: string) {
    forall n :: n in names ==> Loc(from, n) in links && Loc(to, n) !in links
  }

  lemma TakeLast(base: seq<Endpoint>, moved: seq<Endpoint>, i: nat)
    requires i < |moved| && Distinct(base + moved[..i + 1])
    ensures Without(base + moved[..i + 1], moved[i]) == base + moved[..i]
    ensures moved[i] in base + moved[..i + 1]
    ensures forall j :: 0 <= j < i ==> moved[j] != moved[i]
    ensures Distinct(base + moved[..i])
  {
    var list := base + moved[..i + 1];
    assert list == base + moved[..i] + [moved[i]];
    DistinctOnce(list, |base| + i);
    assert list[..|base| + i] == base + moved[..i];
  }

  lemma SplitAt(moved: seq<Endpoint>, i: nat)
    requires i < |moved| && Distinct(moved)
    ensures moved[i].ifaceName in Names(moved)
    ensures moved[i..] == [moved[i]] + moved[i + 1..]
    ensures Names(moved[i..]) == Names(moved[i + 1..]) + {moved[i].ifaceName}
    ensures moved[..i + 1] == moved[..i] + [moved[i]]
    ensures Names(moved[..i + 1]) == Names(moved[..i]) + {moved[i].ifaceName}
    ensures moved[i].ifaceName !in Names(moved[..i]) && moved[i].ifaceName !in Names(moved[i + 1..])
  {
    assert moved[i..] == [moved[i]] + moved[i + 1..];
    assert moved[..i + 1] == moved[..i] + [moved[i]];
  }

  lemma NothingMoved(links: Links, from: string, to: string, up: bool)
    ensures Carried(links, links, Names([]), from, to) && AllUp(links, Names([]), to, up)
  {
  }

  lemma JoinedNothing(list: seq<Endpoint>)
    ensures Joined(list, list, [])
  {
  }

  ghost predicate Joined(list: seq<Endpoint>, a: seq<Endpoint>, b: seq<Endpoint>) {
    && (forall e :: e in list ==> e in a || e in b)
    && (forall e :: e in a ==> e in list) && (forall e :: e in b ==> e in list)
  }

  lemma RoomFor(list: seq<Endpoint>, start: seq<Endpoint>, back: seq<Endpoint>, e: Endpoint)
    requires Distinct(list) && Joined(list, start, back)
    requires e.ifaceName !in Names(start) && e.ifaceName !in Names(back)
    ensures NameFree(list, e.ifaceName) && Distinct(list + [e])
    ensures Joined(list + [e], start, [e] + back)
  {
    DistinctAppend(list, e);
  }

  lemma StillHeld(a: Links, b: Links, names: set<string>, all: set<string>, n: string, from: string,
                  to: string)
    requires Carried(a, b, names, from, to) && Holds(a, all, from, to) && n in all && n !in names
    ensures Loc(from, n) in b && Loc(to, n) !in b
  {
    assert !Touched(Loc(from, n), names, from, to) && !Touched(Loc(to, n), names, from, to);
  }

  lemma SuffixDistinct(base: seq<Endpoint>, moved: seq<Endpoint>)
    requires Distinct(base + moved)
    ensures Distinct(moved)
  {
    assert forall j :: 0 <= j < |moved| ==> moved[j] == (base + moved)[|base| + j];
  }

  /** One move of a batch, after the interfaces named by names have been moved: the endpoint is moved and,
      with activate, brought up. */
  method MoveNext(k: Kernel, e: Endpoint, dst: LinkNode, activate: bool, faulty: bool, ghost links: Links,
                  ghost names: set<string>)
    returns (ok: bool, moved: bool, ghost before: Links)
    requires e.node != null && e.node != dst && e.node.ns != dst.ns && e.ifaceName !in names
    requires Carried(links, k.links, names, e.node.ns, dst.ns)
    requires AllUp(k.links, names, dst.ns, activate)
    modifies k`links, e`node, e.node`endpoints, dst`endpoints
    ensures ok ==> moved
    ensures moved ==> e.node == dst && dst.endpoints == old(dst.endpoints) + [e]
    ensures moved ==> NameFree(old(dst.endpoints), e.ifaceName)
    ensures moved ==> old(e.node).endpoints == Without(old(e.node.endpoints), e)
    ensures !moved ==> e.node == old(e.node) && dst.endpoints == old(dst.endpoints)
    ensures !moved ==> old(e.node).endpoints == old(e.node.endpoints)
    ensures ok ==> Carried(links, k.links, names + {e.ifaceName}, old(e.node.ns), dst.ns)
    ensures ok ==> AllUp(k.links, names + {e.ifaceName}, dst.ns, activate)
    ensures !ok ==> (var done := if moved then names + {e.ifaceName} else names;
              Halfway(links, before, k.links, done, e.ifaceName, old(e.node.ns), dst.ns))
    ensures !faulty && old(Movable(k, e, dst)) ==> ok
  {
    ghost var from := e.node.ns;
    before := k.links;
    ok := MoveEndpoint(k, e, dst, faulty);
    moved := ok;
    if !ok {
      return;
    }
    CarryOne(links, before, k.links, names, e.ifaceName, from, dst.ns);
    if activate {
      before := k.links;
      ok := ActivateEndpoint(k, e, faulty);
      if ok {
        assert names + {e.ifaceName} - {e.ifaceName} == names;
        RaiseOne(links, before, k.links, names + {e.ifaceName}, e.ifaceName, from, dst.ns);
      }
    }
  }

  /** The rollback: moves the batch back, last first; with activate, each is brought up again. None of
      these moves can be refused. */
  method MoveBack(k: Kernel, moved: seq<Endpoint>, holder: LinkNode, home: LinkNode, activate: bool,
                  ghost base: seq<Endpoint>)
    requires holder.endpoints == base + moved && Distinct(holder.endpoints) && Distinct(home.endpoints)
    requires Returnable(k, moved, holder, home)
    modifies k`links, holder`endpoints, home`endpoints, moved`node
    ensures holder.endpoints == base && Distinct(home.endpoints)
    ensures Joined(home.endpoints, old(home.endpoints), moved)
    ensures forall e :: e in moved ==> e.node == home
    ensures Carried(old(k.links), k.links, Names(moved), holder.ns, home.ns)
    ensures AllUp(k.links, Names(moved), home.ns, activate)
  {
    hide Joined, Distinct, NameFree, Holds, Carried, AllUp, Names, Without, Halfway;
    ghost var links := k.links;
    var i := |moved|;
    assert moved[..i] == moved && moved[i..] == [];
    SuffixDistinct(base, moved);
    NothingMoved(links, holder.ns, home.ns, activate);
    JoinedNothing(home.endpoints);
    while i > 0
      invariant 0 <= i <= |moved|
      invariant holder.endpoints == base + moved[..i] && Distinct(holder.endpoints)
      invariant Distinct(home.endpoints)
      invariant Joined(home.endpoints, old(home.endpoints), moved[i..])
      invariant forall j :: 0 <= j < i ==> moved[j].node == holder
      invariant forall j :: i <= j < |moved| ==> moved[j].node == home
      invariant Carried(links, k.links, Names(moved[i..]), holder.ns, home.ns)
      invariant AllUp(k.links, Names(moved[i..]), home.ns, activate)
    {
      i := i - 1;
      var e := moved[i];
      SplitAt(moved, i);
      TakeLast(base, moved, i);
      RoomFor(home.endpoints, old(home.endpoints), moved[i + 1..], e);
      StillHeld(links, k.links, Names(moved[i + 1..]), Names(moved), e.ifaceName, holder.ns, home.ns);
      var ok, back, _ := MoveNext(k, e, home, activate, false, links, Names(moved[i + 1..]));
    }
  }

  // Parking.

  /** What a stop accepts: every endpoint of the topology is on a veth link. */
  predicate Supported(list: seq<Endpoint>) {
    forall i :: 0 <= i < |list| ==> list[i].runtime || list[i].vethLink
  }

  /** now is before, followed by endpoints just discovered at runtime, one for each owned interface that
      was not tracked. */
  twostate predicate Completed(new before: seq<Endpoint>, new now: seq<Endpoint>, owned: set<string>)
    reads now
  {
    && before <= now && Names(now) == Names(before) + owned
    && (forall e :: e in now[|before|..] ==> fresh(e) && e.runtime && e.ifaceName !in Names(before))
  }

  /** Adopting an endpoint for a name that the node does not track cannot be refused. */
  method AdoptRuntimeEndpoint(node: LinkNode, name: string) returns (e: Endpoint)
    requires node.Owns() && name !in Names(node.endpoints)
    modifies node`endpoints
    ensures fresh(e) && e.runtime && !e.vethLink && e.ifaceName == name && e.node == node
    ensures node.endpoints == old(node.endpoints) + [e] && node.Owns()
    ensures Names(node.endpoints) == Names(old(node.endpoints)) + {name}
  {
    e := new Endpoint(name, true, false, node);
    AdoptableMeaning(node.endpoints, e);
    DistinctAppend(node.endpoints, e);
    var adopted := node.AdoptEndpoint(e);
  }

  method CaptureCandidates(k: Kernel, src: LinkNode, faulty: bool)
    returns (ok: bool, candidates: seq<Endpoint>)
    requires src.Owns()
    modifies src`endpoints
    ensures src.Owns()
    ensures ok ==> Supported(old(src.endpoints)) && src.ns in k.namespaces && candidates == src.endpoints
    ensures ok ==> forall e :: e in old(src.endpoints) ==> e.runtime || e.vethLink
    ensures ok ==> Completed(old(src.endpoints), src.endpoints, OwnedNames(k.links, src.ns, {}))
    ensures !ok ==> src.endpoints == old(src.endpoints)
    ensures !faulty && src.ns in k.namespaces && (forall e :: e in old(src.endpoints) ==> e.runtime || e.vethLink) ==>
              ok
  {
    var tracked := src.endpoints;
    candidates := [];
    for i := 0 to |tracked|
      invariant candidates == tracked[..i] && Supported(candidates)
    {
      if !tracked[i].runtime && !tracked[i].vethLink {
        return false, [];
      }
      candidates := candidates + [tracked[i]];
    }
    var listed, names := ListOwnedInterfaceNames(k, src.ns, {}, faulty);
    if !listed {
      return false, [];
    }
    candidates := AdoptRuntimeEndpoints(src, candidates, names);
    ok := true;
  }

  /** Adopts an endpoint for every listed name that is not tracked. */
  method AdoptRuntimeEndpoints(src: LinkNode, tracked: seq<Endpoint>, names: seq<string>)
    returns (candidates: seq<Endpoint>)
    requires src.Owns() && tracked == src.endpoints
    modifies src`endpoints
    ensures src.Owns() && candidates == src.endpoints
    ensures Completed(tracked, candidates, set n | n in names)
  {
    candidates := tracked;
    var known := Names(tracked);
    for i := 0 to |names|
      invariant candidates == src.endpoints && src.Owns() && known == Names(candidates)
      invariant Completed(tracked, candidates, set n | n in names[..i])
    {
      assert names[..i + 1] == names[..i] + [names[i]];
      if names[i] in known {
        continue;
      }
      var found := AdoptRuntimeEndpoint(src, names[i]);
      assert (candidates + [found])[|tracked|..] == candidates[|tracked|..] + [found];
      candidates := candidates + [found];
      known := known + {names[i]};
    }
    assert names[..|names|] == names;
  }

  /** What a capture needs in order to go through. */
  ghost predicate Capturable(k: Kernel, src: LinkNode, p: LinkNode)
    reads k, src, p
  {
    && Supported(src.endpoints) && src.ns in k.namespaces
    && RoomAt(k, p, src, Names(src.endpoints) + OwnedNames(k.links, src.ns, {}))
  }

  /** The list holds the endpoints it held before, perhaps in another order, and endpoints discovered
      since. */
  twostate predicate Regained(new before: seq<Endpoint>, new now: seq<Endpoint>)
    reads now
  {
    && (forall e :: e in before ==> e in now)
    && (forall e :: e in now ==> e in before || (fresh(e) && e.runtime))
  }

  lemma MoveFirst(list: seq<Endpoint>, base: seq<Endpoint>, all: seq<Endpoint>, i: nat)
    requires i < |all| && Distinct(all) && list == base + all[..i] && Distinct(list)
    ensures Without(all[i..], all[i]) == all[i + 1..] && all[i] in all[i..]
    ensures list + [all[i]] == base + all[..i + 1]
    ensures NameFree(list, all[i].ifaceName) ==> Distinct(list + [all[i]])
    ensures all[i].ifaceName !in Names(base) ==> NameFree(list, all[i].ifaceName)
    ensures Names(all[..i]) !! Names(all[i..]) && Distinct(all[i..])
    ensures forall j :: 0 <= j < |all| && j != i ==> all[j] != all[i]
    ensures Joined(all, all[i..], all[..i])
  {
  }

  lemma Rejoined(list: seq<Endpoint>, all: seq<Endpoint>, a: seq<Endpoint>, b: seq<Endpoint>)
    requires Joined(list, a, b) && Joined(all, a, b)
    ensures Joined(list, all, [])
  {
  }

  /** Undoes a batch that was refused halfway. */
  method Undo(k: Kernel, moved: seq<Endpoint>, holder: LinkNode, home: LinkNode, activate: bool,
              culprit: string, ghost links: Links, ghost before: Links, ghost base: seq<Endpoint>)
    requires Halfway(links, before, k.links, Names(moved), culprit, home.ns, holder.ns)
    requires holder.endpoints == base + moved && Distinct(holder.endpoints) && Distinct(home.endpoints)
    requires holder != home && holder.ns != home.ns && Names(moved) !! Names(home.endpoints)
    requires home.ns in k.namespaces && forall e :: e in moved ==> e.node == holder
    modifies k`links, holder`endpoints, home`endpoints, moved`node
    ensures holder.endpoints == base && Distinct(home.endpoints)
    ensures Joined(home.endpoints, old(home.endpoints), moved)
    ensures forall e :: e in moved ==> e.node == home
    ensures Resettled(links, k.links, Names(moved) + {culprit}, home.ns)
    ensures activate ==> StillUp(links, k.links, Loc(home.ns, culprit))
  {
    ghost var shaken := k.links;
    MoveBack(k, moved, holder, home, activate, base);
    CarriedBack(links, before, shaken, k.links, Names(moved), culprit, home.ns, holder.ns);
    if activate {
      BroughtBackUp(links, before, shaken, k.links, Names(moved), culprit, home.ns, holder.ns);
    }
  }

  /** Nothing stands against moving the named interfaces from src to dst. */
  ghost predicate RoomAt(k: Kernel, dst: LinkNode, src: LinkNode, names: set<string>)
    reads k, dst
  {
    dst.ns in k.namespaces && names !! Names(dst.endpoints) && Holds(k.links, names, src.ns, dst.ns)
  }

  ghost predicate AllAt(list: seq<Endpoint>, node: LinkNode)
    reads list
  {
    forall i :: 0 <= i < |list| ==> list[i].node == node
  }

  /** Moves the batch one by one, activating each when asked, up to the first refusal. */
  method MoveEach(k: Kernel, endpoints: seq<Endpoint>, src: LinkNode, dst: LinkNode, activate: bool,
                  faulty: bool)
    returns (ok: bool, moved: seq<Endpoint>, culprit: string, ghost before: Links)
    requires src != dst && src.ns != dst.ns && src.endpoints == endpoints
    requires Distinct(endpoints) && Distinct(dst.endpoints) && AllAt(endpoints, src)
    modifies k`links, src`endpoints, dst`endpoints, endpoints`node
    ensures moved <= endpoints && src.endpoints == endpoints[|moved|..]
    ensures dst.endpoints == old(dst.endpoints) + moved && Distinct(dst.endpoints)
    ensures AllAt(moved, dst) && AllAt(endpoints[|moved|..], src)
    ensures ok ==> moved == endpoints && AllUp(k.links, Names(moved), dst.ns, activate)
    ensures ok ==> Carried(old(k.links), k.links, Names(moved), src.ns, dst.ns)
    ensures !ok ==> Halfway(old(k.links), before, k.links, Names(moved), culprit, src.ns, dst.ns)
    ensures !ok ==> culprit in Names(endpoints)
    ensures !faulty && old(RoomAt(k, dst, src, Names(endpoints))) ==> ok
  {
    hide Distinct, Carried, AllUp, NameFree, Joined, Halfway, Without, Names, Holds;
    ghost var links, base := k.links, dst.endpoints;
    moved, culprit, before := [], "", links;
    assert endpoints[0..] == endpoints && base + [] == base;
    NothingMoved(links, src.ns, dst.ns, activate);
    for i := 0 to |endpoints|
      invariant moved == endpoints[..i] && dst.endpoints == base + moved && src.endpoints == endpoints[i..]
      invariant Distinct(dst.endpoints)
      invariant forall j :: 0 <= j < i ==> endpoints[j].node == dst
      invariant forall j :: i <= j < |endpoints| ==> endpoints[j].node == src
      invariant Carried(links, k.links, Names(moved), src.ns, dst.ns)
      invariant AllUp(k.links, Names(moved), dst.ns, activate)
    {
      var e := endpoints[i];
      MoveFirst(dst.endpoints, base, endpoints, i);
      SplitAt(endpoints, i);
      assert old(RoomAt(k, dst, src, Names(endpoints))) ==> Movable(k, e, dst) by {
        if old(RoomAt(k, dst, src, Names(endpoints))) {
          StillHeld(links, k.links, Names(moved), Names(endpoints), e.ifaceName, src.ns, dst.ns);
        }
      }
      var there;
      ok, there, before := MoveNext(k, e, dst, activate, faulty, links, Names(moved));
      if there {
        moved := moved + [e];
      }
      if !ok {
        culprit := e.ifaceName;
        return;
      }
    }
    ok := true;
  }

  /** All or nothing: the whole list of src goes to dst, or, after a refusal, is back with src. */
  method MoveAll(k: Kernel, endpoints: seq<Endpoint>, src: LinkNode, dst: LinkNode, activate: bool,
                 reactivate: bool, faulty: bool)
    returns (ok: bool, culprit: string)
    requires src.Owns() && dst.Owns() && src != dst && src.ns != dst.ns && src.endpoints == endpoints
    requires src.ns in k.namespaces
    modifies k`links, src`endpoints, dst`endpoints, endpoints`node
    ensures src.Owns() && dst.Owns()
    ensures ok ==> src.endpoints == [] && dst.endpoints == old(dst.endpoints) + endpoints
    ensures ok ==> Carried(old(k.links), k.links, Names(endpoints), src.ns, dst.ns)
    ensures ok ==> AllUp(k.links, Names(endpoints), dst.ns, activate)
    ensures !ok ==> dst.endpoints == old(dst.endpoints) && Joined(src.endpoints, endpoints, [])
    ensures !ok ==> Resettled(old(k.links), k.links, Names(endpoints), src.ns)
    ensures !ok && reactivate ==> StillUp(old(k.links), k.links, Loc(src.ns, culprit))
    ensures !faulty && old(RoomAt(k, dst, src, Names(endpoints))) ==> ok
  {
    hide Distinct, Carried, AllUp, Names, Resettled, StillUp, Holds, Halfway;
    var moved;
    ghost var links, base, before := k.links, dst.endpoints, k.links;
    ok, moved, culprit, before := MoveEach(k, endpoints, src, dst, activate, faulty);
    if !ok {
      SplitList(endpoints, moved);
      Undo(k, moved, dst, src, reactivate, culprit, links, before, base);
      Rejoined(src.endpoints, endpoints, endpoints[|moved|..], moved);
      ResettledWider(links, k.links, Names(moved) + {culprit}, Names(endpoints), src.ns);
    } else {
      DistinctNone();
    }
  }

  lemma DistinctNone()
    ensures Distinct([])
  {
  }

  lemma SplitList(all: seq<Endpoint>, part: seq<Endpoint>)
    requires part <= all && Distinct(all)
    ensures Names(part) <= Names(all) && Names(part) !! Names(all[|part|..]) && Distinct(all[|part|..])
    ensures Joined(all, all[|part|..], part)
  {
  }

  /** Parks every interface of src in p's namespace, down; after a refusal, everything is back with src
      and up, except that the interface named by culprit may be down. */
  method CaptureFrom(k: Kernel, p: LinkNode, src: LinkNode, faulty: bool) returns (ok: bool, culprit: string)
    requires src.Owns() && p.Owns() && src != p && src.ns != p.ns
    modifies k`links, src`endpoints, p`endpoints, src.endpoints`node
    ensures src.Owns() && p.Owns()
    ensures ok ==> Supported(old(src.endpoints)) && src.ns in k.namespaces
    ensures ok ==> src.endpoints == [] && old(p.endpoints) <= p.endpoints
    ensures ok ==> Captured(old(src.endpoints), p.endpoints[|old(p.endpoints)|..], old(k.links), k.links,
                            src.ns, p.ns)
    ensures !ok ==> p.endpoints == old(p.endpoints) && Regained(old(src.endpoints), src.endpoints)
    ensures !ok ==> Resettled(old(k.links), k.links, Names(src.endpoints), src.ns)
    ensures !ok ==> StillUp(old(k.links), k.links, Loc(src.ns, culprit))
    ensures !faulty && old(Capturable(k, src, p)) ==> ok
  {
    culprit := "";
    var endpoints;
    ok, endpoints := CaptureCandidates(k, src, faulty);
    if !ok {
      return;
    }
    assert endpoints == old(src.endpoints) + endpoints[|old(src.endpoints)|..];
    assert forall i :: 0 <= i < |endpoints| ==> endpoints[i] in old(src.endpoints) || fresh(endpoints[i]);
    ok, culprit := MoveAll(k, endpoints, src, p, false, true, faulty);
  }

  /** The endpoints the node tracked and those just discovered, with their interfaces now in p, down. */
  twostate predicate Captured(new tracked: seq<Endpoint>, new captured: seq<Endpoint>, a: Links, b: Links,
                              from: string, to: string)
    reads captured
  {
    && Completed(tracked, captured, OwnedNames(a, from, {}))
    && Carried(a, b, Names(captured), from, to) && AllUp(b, Names(captured), to, false)
  }
}