/** Rebuilding a parking node's bookkeeping from the interfaces its namespace really holds. */
module Discovery {
  import opened EndpointOwnership
  import opened EndpointSelection
  import opened CarriedLinks
  import opened Parking

  /** The two nodes own their endpoints and no name is tracked by both. */
  ghost predicate Apart(p: LinkNode, original: LinkNode)
    reads p, original, p.endpoints, original.endpoints
  {
    p != original && p.Owns() && original.Owns() && Names(p.endpoints) !! Names(original.endpoints)
  }

  lemma ReleaseNext(snapshot: seq<Endpoint>, names: set<string>, i: nat)
    requires i < |snapshot| && Distinct(snapshot) && snapshot[i].ifaceName !in names
    ensures var kept := Select(snapshot[..i], Listed(names));
            Without(kept + snapshot[i..], snapshot[i]) == kept + snapshot[i + 1..]
    ensures Select(snapshot[..i + 1], Listed(names)) == Select(snapshot[..i], Listed(names))
    ensures forall f :: f in Select(snapshot[..i], Listed(names)) ==> f in snapshot && f != snapshot[i]
    ensures forall j :: i < j < |snapshot| ==> snapshot[j] != snapshot[i]
  {
    SelectNext(snapshot, Listed(names), i);
    SelectMembers(snapshot[..i], Listed(names));
    WithoutFrom(Select(snapshot[..i], Listed(names)), snapshot[i..], snapshot[i]);
  }

  lemma KeepNext(snapshot: seq<Endpoint>, names: set<string>, i: nat)
    requires i < |snapshot| && snapshot[i].ifaceName in names
    ensures Select(snapshot[..i + 1], Listed(names)) + snapshot[i + 1..]
         == Select(snapshot[..i], Listed(names)) + snapshot[i..]
    ensures Select(snapshot[..i + 1], Listed(names)) == Select(snapshot[..i], Listed(names)) + [snapshot[i]]
    ensures Select(snapshot[..i + 1], Stale(names)) == Select(snapshot[..i], Stale(names))
  {
    SelectNext(snapshot, Listed(names), i);
    SelectNext(snapshot, Stale(names), i);
    assert snapshot[i..] == [snapshot[i]] + snapshot[i + 1..];
  }

  lemma SelectNone(keep: Endpoint -> bool)
    ensures Select([], keep) == []
  {
  }

  /** There is room for the i-th endpoint after those selected before it. */
  lemma RoomForStale(base: seq<Endpoint>, snapshot: seq<Endpoint>, keep: Endpoint -> bool, i: nat)
    requires i < |snapshot| && Distinct(snapshot) && Names(snapshot) !! Names(base)
    ensures NameFree(base + Select(snapshot[..i], keep), snapshot[i].ifaceName)
    ensures snapshot[i] !in base + Select(snapshot[..i], keep)
  {
    SelectMembers(snapshot[..i], keep);
    assert snapshot[i].ifaceName in Names(snapshot);
    forall e | e in base + Select(snapshot[..i], keep) ensures e.ifaceName != snapshot[i].ifaceName {
      if e in base {
        assert e.ifaceName in Names(base);
      }
    }
  }

  /** Endpoints that p tracks without holding them: runtime ones are dropped, those of the topology go
      back to the original node. None of it can be refused. */
  method ReleaseStale(p: LinkNode, original: LinkNode, names: set<string>)
    requires Apart(p, original)
    modifies p`endpoints, original`endpoints, p.endpoints`node
    ensures p.endpoints == Select(old(p.endpoints), Listed(names))
    ensures original.endpoints == old(original.endpoints) + Select(old(p.endpoints), Stale(names))
    ensures Apart(p, original)
  {
    hide NameFree, Names, Distinct, Adoptable, Without, Select;
    var snapshot := p.endpoints;
    ghost var base := original.endpoints;
    SelectNone(Listed(names));
    SelectNone(Stale(names));
    for i := 0 to |snapshot|
      invariant p.endpoints == Select(snapshot[..i], Listed(names)) + snapshot[i..]
      invariant original.endpoints == base + Select(snapshot[..i], Stale(names))
      invariant forall j :: i <= j < |snapshot| ==> snapshot[j].node == p
      invariant forall f :: f in Select(snapshot[..i], Listed(names)) ==> f.node == p
      invariant forall f :: f in original.endpoints ==> f.node == original
    {
      var e := snapshot[i];
      if e.ifaceName in names {
        KeepNext(snapshot, names, i);
        continue;
      }
      ReleaseNext(snapshot, names, i);
      SelectNext(snapshot, Stale(names), i);
      var ok := p.ReleaseEndpoint(e);
      if e.runtime {
        continue;
      }
      RoomForStale(base, snapshot, Stale(names), i);
      GiveBack(original, e);
    }
    assert snapshot[..|snapshot|] == snapshot;
    StaleApart(snapshot, base, names);
  }

  method GiveBack(original: LinkNode, e: Endpoint)
    requires NameFree(original.endpoints, e.ifaceName) && forall f :: f in original.endpoints ==> f.node == original
    modifies original`endpoints, e`node
    ensures original.endpoints == old(original.endpoints) + [e]
    ensures forall f :: f in original.endpoints ==> f.node == original
  {
    assert e !in original.endpoints;
    e.node := original;
    AdoptableMeaning(original.endpoints, e);
    var ok := original.AdoptEndpoint(e);
  }

  lemma StaleApart(list: seq<Endpoint>, base: seq<Endpoint>, names: set<string>)
    requires Distinct(list) && Distinct(base) && Names(list) !! Names(base)
    ensures Distinct(Select(list, Listed(names))) && Distinct(base + Select(list, Stale(names)))
    ensures Names(Select(list, Listed(names))) !! Names(base + Select(list, Stale(names)))
  {
    SelectDistinct(list, Listed(names));
    SelectDistinct(list, Stale(names));
    SelectMembers(list, Listed(names));
    SelectMembers(list, Stale(names));
    forall e, f | e in Select(list, Listed(names)) && f in base + Select(list, Stale(names))
      ensures e.ifaceName != f.ifaceName
    {
      assert e.ifaceName in Names(list);
      if f in base {
        assert f.ifaceName in Names(base);
      }
    }
    DistinctJoin(base, Select(list, Stale(names)));
  }

  lemma DistinctJoin(a: seq<Endpoint>, b: seq<Endpoint>)
    requires Distinct(a) && Distinct(b) && Names(a) !! Names(b)
    ensures Distinct(a + b)
  {
    forall i, j | 0 <= i < |a| && 0 <= j < |b| ensures a[i].ifaceName != b[j].ifaceName {
      assert a[i].ifaceName in Names(a) && b[j].ifaceName in Names(b);
    }
  }

  method IndexByName(list: seq<Endpoint>, index: map<string, Endpoint>) returns (known: map<string, Endpoint>)
    ensures known.Keys == index.Keys + Names(list)
    ensures forall n :: n in known ==> (known[n] in list && known[n].ifaceName == n)
                                       || (n !in Names(list) && known[n] == index[n])
  {
    known := index;
    for i := 0 to |list|
      invariant known.Keys == index.Keys + Names(list[..i])
      invariant forall n :: n in known ==> (known[n] in list[..i] && known[n].ifaceName == n)
                                           || (n !in Names(list[..i]) && known[n] == index[n])
    {
      assert list[..i + 1] == list[..i] + [list[i]];
      known := known[list[i].ifaceName := list[i]];
    }
    assert list[..|list|] == list;
  }

  /** now tracks what before tracked, the original's endpoints with a listed name, and a new runtime
      endpoint for every other listed name. */
  twostate predicate Gathered(new before: seq<Endpoint>, new others: seq<Endpoint>, new now: seq<Endpoint>,
                              names: set<string>)
    reads now
  {
    && before <= now && Names(now) == Names(before) + names
    && (forall e :: e in others && e.ifaceName in names ==> e in now)
    && (forall e :: e in now[|before|..] ==>
          (e in others && e.ifaceName in names) || (fresh(e) && e.runtime && e.ifaceName !in Names(others)))
  }

  /** Takes over an endpoint that the original node tracks; this cannot be refused. */
  method TakeOver(p: LinkNode, original: LinkNode, e: Endpoint)
    requires Apart(p, original) && e in original.endpoints
    modifies p`endpoints, original`endpoints, e`node
    ensures Apart(p, original)
    ensures p.endpoints == old(p.endpoints) + [e]
    ensures Names(p.endpoints) == Names(old(p.endpoints)) + {e.ifaceName}
    ensures original.endpoints == Without(old(original.endpoints), e)
  {
    assert e.ifaceName in Names(original.endpoints);
    WithoutMembers(original.endpoints, e);
    NamesWithout(original.endpoints, e);
    AdoptableMeaning(p.endpoints, e);
    DistinctAppend(p.endpoints, e);
    var ok := original.ReleaseEndpoint(e);
    e.node := p;
    ok := p.AdoptEndpoint(e);
  }

  lemma GatherNothing(list: seq<Endpoint>)
    ensures Select(list, Unlisted({})) == list
  {
    if list != [] {
      GatherNothing(list[..|list| - 1]);
    }
  }

  lemma Tracking(list: seq<Endpoint>)
    ensures forall e :: e in list ==> e.ifaceName in Names(list)
  {
  }

  lemma SelectNames(list: seq<Endpoint>, keep: Endpoint -> bool)
    ensures Names(Select(list, keep)) <= Names(list)
  {
    SelectMembers(list, keep);
  }

  /** Which endpoint a listed name that is in the index leads to. */
  lemma Indexed(mine: seq<Endpoint>, others: seq<Endpoint>, known: map<string, Endpoint>, n: string)
    requires Distinct(mine) && Distinct(others) && Names(mine) !! Names(others)
    requires n in known && known[n].ifaceName == n && (known[n] in mine || known[n] in others)
    ensures known[n] in mine ==> NameFree(others, n)
    ensures known[n] in others ==> n !in Names(mine)
    ensures forall e :: e in others && e.ifaceName == n ==> e == known[n]
  {
    Tracking(mine);
    Tracking(others);
    forall i | 0 <= i < |others| ensures others[i].ifaceName in Names(others) {
    }
  }

  predicate IsIndex(known: map<string, Endpoint>, mine: seq<Endpoint>, others: seq<Endpoint>) {
    && known.Keys == Names(mine) + Names(others)
    && forall n :: n in known ==> known[n].ifaceName == n && (known[n] in mine || known[n] in others)
  }

  method Index(mine: seq<Endpoint>, others: seq<Endpoint>) returns (known: map<string, Endpoint>)
    ensures IsIndex(known, mine, others)
  {
    known := IndexByName(others, map[]);
    known := IndexByName(mine, known);
  }

  /** One listed name: its endpoint is found with p, taken over from the original node, or created. */
  method GatherOne(p: LinkNode, original: LinkNode, n: string, known: map<string, Endpoint>,
                   ghost mine: seq<Endpoint>, ghost others: seq<Endpoint>, ghost done: set<string>,
                   ghost pool: seq<Endpoint>)
    requires Apart(p, original) && IsIndex(known, mine, others) && n !in done
    requires forall e :: e in others ==> e in pool
    requires Distinct(mine) && Distinct(others) && Names(mine) !! Names(others)
    requires mine <= p.endpoints && Names(p.endpoints) == Names(mine) + done
    requires original.endpoints == Select(others, Unlisted(done))
    modifies p`endpoints, original`endpoints, pool`node
    ensures Apart(p, original)
    ensures original.endpoints == Select(others, Unlisted(done + {n}))
    ensures old(p.endpoints) <= p.endpoints && Names(p.endpoints) == Names(mine) + done + {n}
    ensures |p.endpoints| <= |old(p.endpoints)| + 1
    ensures forall e :: e in others && e.ifaceName == n ==> e in p.endpoints
    ensures |p.endpoints| > |old(p.endpoints)| ==> (
              var e := p.endpoints[|old(p.endpoints)|];
              && e.ifaceName == n
              && (e in others || (fresh(e) && e.runtime && n !in Names(others))))
  {
    hide Distinct, NameFree, Without, Select, Adoptable, Names;
    SelectMembers(others, Unlisted(done));
    SelectNames(others, Unlisted(done));
    Tracking(p.endpoints);
    Tracking(others);
    Tracking(mine);
    if n in known {
      var e := known[n];
      Indexed(mine, others, known, n);
      if e.node == p {
        SelectSame(others, done, n);
        return;
      }
      UnlistedWithout(others, done, e);
      TakeOver(p, original, e);
      return;
    }
    SelectSame(others, done, n);
    var e := AdoptRuntimeEndpoint(p, n);
  }

  function Until(names: seq<string>, i: nat): set<string>
    requires i <= |names|
  {
    set n | n in names[..i]
  }

  /** Every listed name gets exactly one endpoint with p: the known one or a new one. */
  method GatherListed(p: LinkNode, original: LinkNode, names: seq<string>, ghost pool: seq<Endpoint>)
    requires Apart(p, original) && NoRepeats(names) && forall e :: e in original.endpoints ==> e in pool
    modifies p`endpoints, original`endpoints, pool`node
    ensures Apart(p, original)
    ensures original.endpoints == Select(old(original.endpoints), Unlisted(set n | n in names))
    ensures Gathered(old(p.endpoints), old(original.endpoints), p.endpoints, set n | n in names)
  {
    hide Distinct, NameFree, Select, Names, IsIndex;
    var known := Index(p.endpoints, original.endpoints);
    ghost var mine, others := p.endpoints, original.endpoints;
    GatherNothing(others);
    assert Until(names, 0) == {};
    for i := 0 to |names|
      invariant Apart(p, original)
      invariant original.endpoints == Select(others, Unlisted(Until(names, i)))
      invariant Gathered(mine, others, p.endpoints, Until(names, i))
    {
      SelectMembers(others, Unlisted(Until(names, i)));
      assert names[..i + 1] == names[..i] + [names[i]];
      assert Until(names, i + 1) == Until(names, i) + {names[i]};
      GatherOne(p, original, names[i], known, mine, others, Until(names, i), pool);
    }
    assert names[..|names|] == names;
  }

  /** The parking node tracks exactly the listed names. Known endpoints are reused, stale ones of the
      topology are back with the original node, stale runtime ones are gone. */
  twostate predicate Reconciled(new p0: seq<Endpoint>, new o0: seq<Endpoint>, new p1: seq<Endpoint>,
                                new o1: seq<Endpoint>, names: set<string>)
    reads p1
  {
    && Names(p1) == names
    && Gathered(Select(p0, Listed(names)), o0 + Select(p0, Stale(names)), p1, names)
    && o1 == Select(o0 + Select(p0, Stale(names)), Unlisted(names))
  }

  lemma StaleNames(p0: seq<Endpoint>, o0: seq<Endpoint>, names: set<string>)
    ensures Names(o0 + Select(p0, Stale(names))) >= Names(o0)
    ensures forall e :: e in o0 + Select(p0, Stale(names)) ==> e in p0 + o0
  {
    SelectMembers(p0, Stale(names));
    assert forall e :: e in o0 ==> e in o0 + Select(p0, Stale(names));
  }

  lemma ListedNames(list: seq<Endpoint>, names: set<string>)
    ensures Names(Select(list, Listed(names))) <= names
  {
    SelectMembers(list, Listed(names));
  }

  /** Fails only before it has changed anything. */
  method DiscoverOwnedEndpoints(k: Kernel, p: LinkNode, original: LinkNode, faulty: bool) returns (ok: bool)
    requires Apart(p, original)
    modifies p`endpoints, original`endpoints, p.endpoints`node, original.endpoints`node
    ensures Apart(p, original)
    ensures ok ==> p.ns in k.namespaces
    ensures ok ==> Reconciled(old(p.endpoints), old(original.endpoints), p.endpoints, original.endpoints,
                     OwnedNames(k.links, p.ns, Names(old(p.endpoints)) + Names(old(original.endpoints))))
    ensures !ok ==> unchanged(p, original)
    ensures !faulty && p.ns in k.namespaces ==> ok
  {
    hide Distinct, NameFree, IsIndex, Names;
    ghost var p0, o0 := p.endpoints, original.endpoints;
    var known := Names(original.endpoints) + Names(p.endpoints);
    var names;
    ok, names := ListOwnedInterfaceNames(k, p.ns, known, faulty);
    if !ok {
      return;
    }
    var discovered := set n | n in names;
    assert discovered == OwnedNames(k.links, p.ns, Names(p0) + Names(o0));
    ReleaseStale(p, original, discovered);
    StaleNames(p0, o0, discovered);
    ListedNames(p0, discovered);
    ghost var mine, others := p.endpoints, original.endpoints;
    GatherListed(p, original, names, p0 + o0);
    assert Gathered(mine, others, p.endpoints, discovered);
    assert Names(p.endpoints) == discovered;
  }

  /** The names that a restore brings back: what discovery lists for the parking namespace. */
  ghost function ParkedNames(links: Links, ns: string, p0: seq<Endpoint>, o0: seq<Endpoint>): set<string> {
    OwnedNames(links, ns, Names(p0) + Names(o0))
  }

  twostate lemma ReconciledMembers(new p0: seq<Endpoint>, new o0: seq<Endpoint>, new p1: seq<Endpoint>,
                                   new o1: seq<Endpoint>, names: set<string>)
    requires Reconciled(p0, o0, p1, o1, names)
    ensures forall e :: e in p1 ==> e in o0 || e in p0 || fresh(e)
    ensures forall e :: e in o1 ==> e in o0 || e in p0
    ensures Names(o0) <= Names(o1) + Names(p1)
    ensures Names(o1) <= Names(o0) + Names(p0)
  {
    SelectMembers(p0, Listed(names));
    SelectMembers(p0, Stale(names));
    var others := o0 + Select(p0, Stale(names));
    SelectMembers(others, Unlisted(names));
    assert p1 == Select(p0, Listed(names)) + p1[|Select(p0, Listed(names))|..];
    forall n | n in Names(o0) ensures n in Names(o1) + Names(p1) {
      var e :| e in o0 && e.ifaceName == n;
      assert e in others;
      assert n in names || e in o1;
    }
  }

  /** An endpoint discovered at runtime is dropped when its interface is not there. */
  twostate lemma RuntimeDropped(new p0: seq<Endpoint>, new o0: seq<Endpoint>, new p1: seq<Endpoint>,
                                new o1: seq<Endpoint>, names: set<string>, new e: Endpoint)
    requires Reconciled(p0, o0, p1, o1, names) && e.runtime && e in p0 && e !in o0 && e.ifaceName !in names
    ensures e !in p1 && e !in o1
  {
    SelectMembers(p0, Stale(names));
    SelectMembers(o0 + Select(p0, Stale(names)), Unlisted(names));
  }

  /** Reconciling neither loses nor invents an endpoint of the topology. */
  twostate lemma TopologyPreserved(new p0: seq<Endpoint>, new o0: seq<Endpoint>, new p1: seq<Endpoint>,
                                   new o1: seq<Endpoint>, names: set<string>, new e: Endpoint)
    requires Reconciled(p0, o0, p1, o1, names) && !e.runtime
    ensures e in p1 || e in o1 <==> e in p0 || e in o0
  {
    SelectMembers(p0, Listed(names));
    SelectMembers(p0, Stale(names));
    SelectMembers(o0 + Select(p0, Stale(names)), Unlisted(names));
    assert p1 == Select(p0, Listed(names)) + p1[|Select(p0, Listed(names))|..];
  }

  /** What is listed does not change when the names just listed become the known ones. */
  lemma RelistingIsStable(links: Links, ns: string, known: set<string>, next: set<string>)
    requires OwnedNames(links, ns, known) <= next <= known + OwnedNames(links, ns, known)
    ensures OwnedNames(links, ns, next) == OwnedNames(links, ns, known)
  {
    assert forall n :: IsOwnedInterface(links, ns, next, n) <==> IsOwnedInterface(links, ns, known, n);
  }

  lemma {:induction false} SelectAll(list: seq<Endpoint>, keep: Endpoint -> bool)
    requires forall e :: e in list ==> keep(e)
    ensures Select(list, keep) == list
  {
    if list != [] {
      SelectAll(list[..|list| - 1], keep);
    }
  }

  lemma {:induction false} SelectNobody(list: seq<Endpoint>, keep: Endpoint -> bool)
    requires forall e :: e in list ==> !keep(e)
    ensures Select(list, keep) == []
  {
    if list != [] {
      SelectNobody(list[..|list| - 1], keep);
    }
  }

  lemma TrackedUnder(list: seq<Endpoint>, n: string) returns (i: nat)
    requires n in Names(list)
    ensures i < |list| && list[i].ifaceName == n
  {
    i :| 0 <= i < |list| && list[i].ifaceName == n;
  }

  lemma NoNewName(a: seq<Endpoint>, b: seq<Endpoint>)
    requires a <= b && Distinct(b) && Names(b) <= Names(a)
    ensures a == b
  {
    if |a| < |b| {
      Tracking(b);
      var i := TrackedUnder(a, b[|a|].ifaceName);
    }
  }

  /** Two reconciled lists stay as they are. */
  twostate lemma SettledStays(new p1: seq<Endpoint>, new o1: seq<Endpoint>, new p2: seq<Endpoint>,
                              new o2: seq<Endpoint>)
    requires Reconciled(p1, o1, p2, o2, Names(p1)) && Names(p1) !! Names(o1) && Distinct(p2)
    ensures p2 == p1 && o2 == o1
  {
    Tracking(p1);
    Tracking(o1);
    SelectAll(p1, Listed(Names(p1)));
    SelectNobody(p1, Stale(Names(p1)));
    SelectAll(o1, Unlisted(Names(p1)));
    assert o1 + [] == o1;
    NoNewName(p1, p2);
  }

  /** Discovery is idempotent: a second call leaves both lists exactly as the first one did. */
  method DiscoverTwice(k: Kernel, p: LinkNode, original: LinkNode)
    returns (ghost p1: seq<Endpoint>, ghost o1: seq<Endpoint>)
    requires Apart(p, original) && p.ns in k.namespaces
    modifies p`endpoints, original`endpoints, p.endpoints`node, original.endpoints`node
    ensures Reconciled(old(p.endpoints), old(original.endpoints), p1, o1,
              OwnedNames(k.links, p.ns, Names(old(p.endpoints)) + Names(old(original.endpoints))))
    ensures p.endpoints == p1 && original.endpoints == o1
  {
    hide Distinct, Names, Select;
    ghost var p0, o0 := p.endpoints, original.endpoints;
    var ok := DiscoverOwnedEndpoints(k, p, original, false);
    p1, o1 := p.endpoints, original.endpoints;
    ghost var names := OwnedNames(k.links, p.ns, Names(p0) + Names(o0));
    ReconciledMembers(p0, o0, p1, o1, names);
    RelistingIsStable(k.links, p.ns, Names(p0) + Names(o0), Names(p1) + Names(o1));
    assert forall i :: 0 <= i < |p1| ==> p1[i] in o0 || p1[i] in p0 || fresh(p1[i]);
    assert forall i :: 0 <= i < |o1| ==> o1[i] in o0 || o1[i] in p0;
    label Once:
    ok := DiscoverOwnedEndpoints(k, p, original, false);
    SettledStays@Once(p1, o1, p.endpoints, original.endpoints);
  }

  lemma NamesJoined(list: seq<Endpoint>, all: seq<Endpoint>)
    requires Joined(list, all, [])
    ensures Names(list) == Names(all)
  {
    assert forall e :: e in list ==> e in all;
  }

  lemma NamesPlus(a: seq<Endpoint>, b: seq<Endpoint>)
    ensures Names(a + b) == Names(a) + Names(b)
  {
    assert forall e :: e in a + b ==> e in a || e in b;
  }

  ghost predicate Revived(a: Links, b: Links, from: string, to: string, names: set<string>) {
    Carried(a, b, names, from, to) && AllUp(b, names, to, true)
  }

  /** The reconciled endpoints now stand at the end of the destination's list. */
  twostate predicate AppendedTo(new p0: seq<Endpoint>, new o0: seq<Endpoint>, new found: seq<Endpoint>,
                                new list: seq<Endpoint>, names: set<string>)
    reads found
  {
    && |found| <= |list| && list[|list| - |found|..] == found
    && Reconciled(p0, o0, found, list[..|list| - |found|], names)
  }

  /** The lists are reconciled, or as they were because discovery failed. */
  twostate predicate LeftWith(new p0: seq<Endpoint>, new o0: seq<Endpoint>, new found: seq<Endpoint>,
                              new list: seq<Endpoint>, names: set<string>)
    reads found
  {
    Reconciled(p0, o0, found, list, names) || (found == p0 && list == o0)
  }

  /** Brings back exactly the interfaces that discovery lists, up; after a refusal they are all parked
      again. found: the endpoints that discovery ended with. */
  method RestoreTo(k: Kernel, p: LinkNode, dst: LinkNode, faulty: bool)
    returns (ok: bool, culprit: string, ghost found: seq<Endpoint>)
    requires Apart(p, dst) && p.ns != dst.ns
    modifies k`links, p`endpoints, dst`endpoints, p.endpoints`node, dst.endpoints`node
    ensures p.Owns() && dst.Owns()
    ensures ok ==> p.endpoints == [] && AppendedTo(old(p.endpoints), old(dst.endpoints), found, dst.endpoints,
                     ParkedNames(old(k.links), p.ns, old(p.endpoints), old(dst.endpoints)))
    ensures ok ==> Revived(old(k.links), k.links, p.ns, dst.ns,
                     ParkedNames(old(k.links), p.ns, old(p.endpoints), old(dst.endpoints)))
    ensures !ok ==> Joined(p.endpoints, found, [])
    ensures !ok ==> LeftWith(old(p.endpoints), old(dst.endpoints), found, dst.endpoints,
                      ParkedNames(old(k.links), p.ns, old(p.endpoints), old(dst.endpoints)))
    ensures !ok ==> Resettled(old(k.links), k.links, Names(p.endpoints), p.ns)
    ensures !faulty && old(Restorable(k, p, dst)) ==> ok
  {
    hide Distinct, Select, Names, Carried, AllUp, Holds;
    ghost var p0, o0 := p.endpoints, dst.endpoints;
    culprit, found := "", p0;
    ok := DiscoverOwnedEndpoints(k, p, dst, faulty);
    if !ok {
      JoinedNothing(p0);
      return;
    }
    var endpoints := p.endpoints;
    found := endpoints;
    ghost var names, kept := ParkedNames(k.links, p.ns, p0, o0), dst.endpoints;
    ReconciledMembers(p0, o0, found, kept, names);
    assert forall i :: 0 <= i < |endpoints| ==> endpoints[i] in o0 || endpoints[i] in p0 || fresh(endpoints[i]);
    ok, culprit := MoveAll(k, endpoints, p, dst, true, false, faulty);
    if ok {
      assert dst.endpoints[..|kept|] == kept;
    } else {
      NamesJoined(p.endpoints, endpoints);
    }
  }

  /** Nothing stands against bringing back the parked interfaces. */
  ghost predicate Restorable(k: Kernel, p: LinkNode, dst: LinkNode)
    reads k, p, dst
  {
    && p.ns in k.namespaces && dst.ns in k.namespaces
    && Holds(k.links, ParkedNames(k.links, p.ns, p.endpoints, dst.endpoints), p.ns, dst.ns)
  }
}
