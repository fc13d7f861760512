/** Interfaces in the kernel, the endpoint lists that track them, and the single step that moves an
    endpoint from one node to another. */
module EndpointOwnership {

  // The kernel: which interface is in which network namespace.

  datatype Loc = Loc(ns: string, name: string)

  /** One side of a veth pair, or something else. */
  datatype Kind = Veth(pair: nat, side: bool) | Other {
    function Peer(): Kind {
      if Veth? then Veth(pair, !side) else Other
    }
  }

  /** altName: the interface carries the ownership altname. */
  datatype Link = Link(kind: Kind, altName: bool, up: bool)

  type Links = map<Loc, Link>

  /** Some interface of the namespace is of this kind. */
  predicate HasKind(links: Links, ns: string, kind: Kind) {
    exists l :: l in links && l.ns == ns && links[l].kind == kind
  }

  /** The other side of the veth pair is in the namespace too. */
  predicate PeerPresent(links: Links, ns: string, kind: Kind) {
    kind.Veth? && HasKind(links, ns, kind.Peer())
  }

  /** b is a after the interface at `from` arrived in namespace `to`, down and with its altname. */
  ghost predicate Transferred(a: Links, b: Links, from: Loc, to: string) {
    var there := Loc(to, from.name);
    && from in a && there !in a
    && b.Keys == a.Keys - {from} + {there}
    && (forall l :: l in a && l != from ==> b[l] == a[l])
    && b[there].kind == a[from].kind && b[there].altName && !b[there].up
  }

  /** The same interface, perhaps taken down or brought up, perhaps given its altname. */
  predicate Worn(before: Link, after: Link) {
    after.kind == before.kind && (before.altName ==> after.altName)
  }

  /** b is a, except that the interface at loc may have gone down or gained its altname. */
  ghost predicate Shaken(a: Links, b: Links, loc: Loc) {
    && b.Keys == a.Keys
    && (forall l :: l in a && l != loc ==> b[l] == a[l])
    && (loc in a ==> Worn(a[loc], b[loc]))
  }

  /** b is a with the interface at loc up. */
  ghost predicate Raised(a: Links, b: Links, loc: Loc) {
    loc in a && b == a[loc := a[loc].(up := true)]
  }

  /** The interfaces that are not in namespace ns. */
  function Outside(links: Links, ns: string): Links {
    map l | l in links && l.ns != ns :: links[l]
  }

  /** Every operation may fail at any point when it is called faulty; otherwise it fails only for a
      reason that the kernel's state gives. */
  class Kernel {
    var links: Links
    var namespaces: set<string>

    constructor ()
      ensures links == map[] && namespaces == {}
    {
      this.links, this.namespaces := map[], {};
    }

    /** Creates the namespace, or finds it. */
    method CreateOrGetNamespace(ns: string, faulty: bool) returns (ok: bool)
      modifies this`namespaces
      ensures namespaces == if ok then old(namespaces) + {ns} else old(namespaces)
      ensures ns in old(namespaces) || !faulty ==> ok
    {
      var fails: bool := *;
      ok := ns in namespaces || !(faulty && fails);
      if ok {
        namespaces := namespaces + {ns};
      }
    }

    /** Deletes a namespace together with the interfaces in it. */
    method DeleteNamespace(ns: string)
      modifies this
      ensures namespaces == old(namespaces) - {ns}
      ensures links == Outside(old(links), ns)
    {
      namespaces := namespaces - {ns};
      links := Outside(links, ns);
    }

    method AddOwnershipAltName(loc: Loc, faulty: bool) returns (ok: bool)
      modifies this`links
      ensures ok ==> loc in old(links) && links == old(links)[loc := old(links)[loc].(altName := true)]
      ensures !ok ==> links == old(links)
      ensures !faulty && loc in old(links) ==> ok
    {
      var fails: bool := *;
      if loc !in links {
        return false;
      }
      if links[loc].altName {
        assert links[loc].(altName := true) == links[loc];
        return true;
      }
      if faulty && fails {
        return false;
      }
      links := links[loc := links[loc].(altName := true)];
      ok := true;
    }

    /** Sets the interface down and hands it to the other namespace. */
    method MoveLink(from: Loc, to: string, faulty: bool) returns (ok: bool)
      modifies this`links
      ensures ok ==> from in old(links)
      ensures ok ==> (old(links)[from].altName ==> Transferred(old(links), links, from, to))
      ensures !ok ==> Shaken(old(links), links, from)
      ensures !faulty && from in old(links) && to in namespaces && Loc(to, from.name) !in old(links) ==> ok
      ensures ok ==> to in namespaces
    {
      var failsDown: bool, failsMove: bool := *, *;
      if from !in links || (faulty && failsDown) {
        return false;
      }
      var down := links[from].(up := false);
      links := links[from := down];
      if to !in namespaces || Loc(to, from.name) in links || (faulty && failsMove) {
        return false;
      }
      links := map l | l in links.Keys - {from} + {Loc(to, from.name)} ::
        if l == Loc(to, from.name) then down else links[l];
      ok := true;
    }

    method SetUp(loc: Loc, faulty: bool) returns (ok: bool)
      modifies this`links
      ensures ok ==> Raised(old(links), links, loc)
      ensures !ok ==> links == old(links)
      ensures !faulty && loc in old(links) ==> ok
    {
      var fails: bool := *;
      if loc !in links || (faulty && fails) {
        return false;
      }
      links := links[loc := links[loc].(up := true)];
      ok := true;
    }
  }

  // Endpoint lists.

  /** runtime: discovered at runtime rather than defined by the topology. vethLink: it belongs to a
      veth link of the topology. */
  class Endpoint {
    const ifaceName: string
    const runtime: bool
    const vethLink: bool
    var node: LinkNode?

    constructor (ifaceName: string, runtime: bool, vethLink: bool, node: LinkNode?)
      ensures this.ifaceName == ifaceName && this.runtime == runtime && this.vethLink == vethLink
      ensures this.node == node
    {
      this.ifaceName, this.runtime, this.vethLink, this.node := ifaceName, runtime, vethLink, node;
    }
  }

  function Names(list: seq<Endpoint>): set<string> {
    set e | e in list :: e.ifaceName
  }

  predicate NameFree(list: seq<Endpoint>, name: string) {
    forall i :: 0 <= i < |list| ==> list[i].ifaceName != name
  }

  ghost predicate Distinct(list: seq<Endpoint>) {
    forall i, j :: 0 <= i < j < |list| ==> list[i].ifaceName != list[j].ifaceName
  }

  /** What an adopting node finds when it walks its list: e itself, or no other owner of the name. */
  predicate Adoptable(list: seq<Endpoint>, e: Endpoint) {
    list == [] || list[0] == e || (list[0].ifaceName != e.ifaceName && Adoptable(list[1..], e))
  }

  lemma {:induction false} AdoptableMeaning(list: seq<Endpoint>, e: Endpoint)
    ensures NameFree(list, e.ifaceName) ==> Adoptable(list, e)
    ensures Distinct(list) ==> (Adoptable(list, e) <==> e in list || NameFree(list, e.ifaceName))
  {
    if list != [] {
      AdoptableMeaning(list[1..], e);
      if Distinct(list) {
        assert Distinct(list[1..]);
        if NameFree(list[1..], e.ifaceName) && list[0].ifaceName != e.ifaceName {
          assert forall i :: 0 <= i < |list| ==> i == 0 || list[i] == list[1..][i - 1];
        }
      }
    }
  }

  lemma {:induction false} AdoptablePrefix(list: seq<Endpoint>, e: Endpoint, i: nat)
    requires i < |list| && forall j :: 0 <= j < i ==> list[j] != e && list[j].ifaceName != e.ifaceName
    ensures list[i] == e ==> Adoptable(list, e)
    ensures list[i] != e && list[i].ifaceName == e.ifaceName ==> !Adoptable(list, e)
  {
    if i > 0 {
      AdoptablePrefix(list[1..], e, i - 1);
    }
  }

  /** The list without its first occurrence of e. */
  function Without(list: seq<Endpoint>, e: Endpoint): seq<Endpoint> {
    if list == [] then [] else if list[0] == e then list[1..] else [list[0]] + Without(list[1..], e)
  }

  lemma {:induction false} WithoutAt(list: seq<Endpoint>, e: Endpoint, i: nat)
    requires i < |list| && list[i] == e && e !in list[..i]
    ensures Without(list, e) == list[..i] + list[i + 1..]
  {
    if i > 0 {
      assert list[..i] == [list[0]] + list[1..][..i - 1];
      WithoutAt(list[1..], e, i - 1);
    }
  }

  lemma DistinctOnce(list: seq<Endpoint>, i: nat)
    requires Distinct(list) && i < |list|
    ensures list[i] !in list[..i] && list[i] !in list[i + 1..]
    ensures Without(list, list[i]) == list[..i] + list[i + 1..]
  {
    WithoutAt(list, list[i], i);
  }

  lemma WithoutMembers(list: seq<Endpoint>, e: Endpoint)
    requires Distinct(list)
    ensures Distinct(Without(list, e))
    ensures forall f :: f in Without(list, e) ==> f in list && f != e
    ensures forall f :: f in list && f != e ==> f in Without(list, e)
  {
    if e in list {
      var i :| 0 <= i < |list| && list[i] == e;
      DistinctOnce(list, i);
      hide Without;
      assert list == list[..i] + [e] + list[i + 1..];
    } else {
      WithoutAbsent(list, e);
    }
  }

  lemma NamesWithout(list: seq<Endpoint>, e: Endpoint)
    requires Distinct(list) && e in list
    ensures Names(Without(list, e)) == Names(list) - {e.ifaceName}
  {
    WithoutMembers(list, e);
    forall n | n in Names(list) && n != e.ifaceName ensures n in Names(Without(list, e)) {
      var f :| f in list && f.ifaceName == n;
      assert f in Without(list, e);
    }
    forall f | f in Without(list, e) ensures f.ifaceName != e.ifaceName {
      assert f in list && f != e;
    }
  }

  lemma {:induction false} WithoutAbsent(list: seq<Endpoint>, e: Endpoint)
    requires e !in list
    ensures Without(list, e) == list
  {
    if list != [] {
      WithoutAbsent(list[1..], e);
    }
  }

  lemma DistinctAppend(list: seq<Endpoint>, e: Endpoint)
    requires Distinct(list) && NameFree(list, e.ifaceName)
    ensures Distinct(list + [e])
  {
  }

  /** A node as far as it owns endpoints; a container node and its parking node do so alike. */
  class LinkNode {
    const shortname: string
    const ns: string
    var endpoints: seq<Endpoint>

    constructor (shortname: string, ns: string)
      ensures this.shortname == shortname && this.ns == ns && endpoints == []
    {
      this.shortname, this.ns, this.endpoints := shortname, ns, [];
    }

    /** Every tracked endpoint names this node as its owner, and no interface is tracked twice. */
    ghost predicate Owns()
      reads this, endpoints
    {
      Distinct(endpoints) && forall e :: e in endpoints ==> e.node == this
    }

    method AdoptEndpoint(e: Endpoint) returns (ok: bool)
      modifies this`endpoints
      ensures ok <==> e.node != null && e.node.shortname == shortname && Adoptable(old(endpoints), e)
      ensures endpoints == if ok && e !in old(endpoints) then old(endpoints) + [e] else old(endpoints)
    {
      if e.node == null || e.node.shortname != shortname {
        return false;
      }
      for i := 0 to |endpoints|
        invariant endpoints == old(endpoints)
        invariant forall j :: 0 <= j < i ==> endpoints[j] != e && endpoints[j].ifaceName != e.ifaceName
      {
        AdoptablePrefix(endpoints, e, i);
        if endpoints[i] == e {
          return true;
        }
        if endpoints[i].ifaceName == e.ifaceName {
          return false;
        }
      }
      AdoptableMeaning(endpoints, e);
      endpoints := endpoints + [e];
      ok := true;
    }

    /** Deletes the endpoint from the list in place. */
    method ReleaseEndpoint(e: Endpoint) returns (ok: bool)
      modifies this`endpoints
      ensures ok <==> e in old(endpoints)
      ensures endpoints == Without(old(endpoints), e)
    {
      for i := 0 to |endpoints|
        invariant endpoints == old(endpoints) && e !in endpoints[..i]
      {
        if endpoints[i] == e {
          WithoutAt(endpoints, e, i);
          endpoints := endpoints[..i] + endpoints[i + 1..];
          return true;
        }
        assert endpoints[..i + 1] == endpoints[..i] + [endpoints[i]];
      }
      WithoutAbsent(endpoints, e);
      ok := false;
    }
  }

  function OwnerOf(e: Endpoint): set<LinkNode>
    reads e
  {
    if e.node == null then {} else {e.node}
  }

  /** Nothing in the bookkeeping or the kernel stands against moving e from its owner to dst. */
  ghost predicate Movable(k: Kernel, e: Endpoint, dst: LinkNode)
    reads k, e, dst, OwnerOf(e)
  {
    && e.node != null && e in e.node.endpoints && NameFree(dst.endpoints, e.ifaceName)
    && Loc(e.node.ns, e.ifaceName) in k.links && Loc(dst.ns, e.ifaceName) !in k.links
    && dst.ns in k.namespaces
  }

  /** Moves the endpoint's interface into dst's namespace, down, and then hands over its ownership.
      Once the kernel has moved the interface, neither the release nor the adoption can be refused, in
      whatever state the two lists are. */
  method MoveEndpoint(k: Kernel, e: Endpoint, dst: LinkNode, faulty: bool) returns (ok: bool)
    modifies k`links, e`node, dst`endpoints, OwnerOf(e)`endpoints
    ensures old(e.node) == null ==> !ok
    ensures old(e.node) == dst ==> ok && unchanged(k, e, dst)
    ensures ok && old(e.node) != dst ==> (
              && e in old(e.node.endpoints) && NameFree(old(dst.endpoints), e.ifaceName)
              && old(e.node).endpoints == Without(old(e.node.endpoints), e)
              && dst.endpoints == old(dst.endpoints) + [e] && e.node == dst
              && Transferred(old(k.links), k.links, Loc(old(e.node).ns, e.ifaceName), dst.ns))
    ensures !ok ==> e.node == old(e.node) && dst.endpoints == old(dst.endpoints)
    ensures !ok && e.node != null ==> (
              && e.node.endpoints == old(e.node.endpoints)
              && Shaken(old(k.links), k.links, Loc(e.node.ns, e.ifaceName)))
    ensures !ok && e.node == null ==> k.links == old(k.links)
    ensures old(Movable(k, e, dst)) && !faulty ==> ok
  {
    var src := e.node;
    if src == null {
      return false;
    }
    if src == dst {
      return true;
    }
    if e !in src.endpoints {
      return false;
    }
    for i := 0 to |dst.endpoints|
      invariant forall j :: 0 <= j < i ==> dst.endpoints[j].ifaceName != e.ifaceName
      invariant unchanged(k, e, dst, src)
    {
      if dst.endpoints[i].ifaceName == e.ifaceName {
        return false;
      }
    }
    var from := Loc(src.ns, e.ifaceName);
    ok := k.AddOwnershipAltName(from, faulty);
    if !ok {
      return;
    }
    ok := k.MoveLink(from, dst.ns, faulty);
    if !ok {
      return;
    }
    var released := src.ReleaseEndpoint(e);
    e.node := dst;
    AdoptableMeaning(dst.endpoints, e);
    var adopted := dst.AdoptEndpoint(e);
    if !released || !adopted {
      assert false;
    }
  }

  /** Whatever the outcome, both lists stay sound and the endpoint is in exactly one of them, the one of its
      owner. */
  method MoveKeepsOwnership(k: Kernel, e: Endpoint, src: LinkNode, dst: LinkNode, faulty: bool) returns (ok: bool)
    requires src.Owns() && dst.Owns() && src != dst && e in src.endpoints
    modifies k`links, e`node, src`endpoints, dst`endpoints
    ensures src.Owns() && dst.Owns()
    ensures e.node == (if ok then dst else src) && (e in src.endpoints <==> !ok) && (e in dst.endpoints <==> ok)
    ensures Names(src.endpoints) + Names(dst.endpoints) == old(Names(src.endpoints) + Names(dst.endpoints))
  {
    WithoutMembers(src.endpoints, e);
    NamesWithout(src.endpoints, e);
    assert e.ifaceName in Names(src.endpoints);
    ghost var before := dst.endpoints;
    ok := MoveEndpoint(k, e, dst, faulty);
    if ok {
      DistinctAppend(before, e);
    }
  }

  /** Brings the endpoint's interface up in its current namespace. */
  method ActivateEndpoint(k: Kernel, e: Endpoint, faulty: bool) returns (ok: bool)
    requires e.node != null
    modifies k`links
    ensures ok ==> Raised(old(k.links), k.links, Loc(e.node.ns, e.ifaceName))
    ensures !ok ==> k.links == old(k.links)
    ensures !faulty && Loc(e.node.ns, e.ifaceName) in old(k.links) ==> ok
  {
    ok := k.SetUp(Loc(e.node.ns, e.ifaceName), faulty);
  }
}
