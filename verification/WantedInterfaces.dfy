/** Where a set of wanted interfaces is while a node is stopped and started: with the node or parked, in
    either case where the next operation finds them. */
module WantedInterfaces {
  import opened EndpointOwnership
  import opened CarriedLinks
  import opened Parking

  /** The other end of the pair is in neither of the two namespaces. */
  ghost predicate FarPeer(links: Links, home: string, parking: string, kind: Kind) {
    forall l :: l in links && (l.ns == home || l.ns == parking) ==> links[l].kind != kind.Peer()
  }

  /** A dataplane interface in namespace ns whose peer is elsewhere. */
  ghost predicate Dataplane(links: Links, ns: string, home: string, parking: string, n: string) {
    && n != "lo" && n != "eth0" && Loc(ns, n) in links && links[Loc(ns, n)].kind.Veth?
    && FarPeer(links, home, parking, links[Loc(ns, n)].kind)
  }

  /** With the node, where a stop captures it: the node tracks it, or discovers it by its altname. */
  ghost predicate Kept(links: Links, home: string, parking: string, tracked: set<string>, n: string) {
    Dataplane(links, home, home, parking, n) && (n in tracked || links[Loc(home, n)].altName)
  }

  /** Parked, where a start discovers it. */
  ghost predicate Stored(links: Links, home: string, parking: string, n: string) {
    Dataplane(links, parking, home, parking, n) && links[Loc(parking, n)].altName
  }

  ghost predicate AtHome(links: Links, home: string, parking: string, tracked: set<string>, wanted: set<string>) {
    forall n :: n in wanted ==> Kept(links, home, parking, tracked, n)
  }

  ghost predicate Parked(links: Links, home: string, parking: string, wanted: set<string>) {
    forall n :: n in wanted ==> Stored(links, home, parking, n)
  }

  /** No name is present in both namespaces, the management and loopback interfaces apart. */
  ghost predicate Clear(links: Links, parking: string, home: string) {
    forall n :: n != "lo" && n != "eth0" && Loc(parking, n) in links ==> Loc(home, n) !in links
  }

  /** The namespace holds nothing but named interfaces. */
  ghost predicate Within(links: Links, ns: string, names: set<string>) {
    forall n :: Loc(ns, n) in links ==> n in names
  }

  ghost predicate Vacant(links: Links, ns: string) {
    forall l :: l in links ==> l.ns != ns
  }

  /** Everything named has left home, which is empty, for the parking namespace, which holds nothing else. */
  ghost predicate Packed(a: Links, b: Links, names: set<string>, home: string, parking: string) {
    && Vacant(b, home) && Within(b, parking, names)
    && forall n :: n in names ==>
         Loc(home, n) in a && Loc(parking, n) in b && Landed(a[Loc(home, n)], b[Loc(parking, n)])
  }

  /** Loopback and management interface apart, home holds exactly what was listed in the parking namespace,
      up; the parking namespace is gone. */
  ghost predicate Unpacked(a: Links, b: Links, parking: string, home: string, known: set<string>) {
    && Vacant(b, parking)
    && (forall n :: n != "lo" && n != "eth0" ==> (Loc(home, n) in b <==> IsOwnedInterface(a, parking, known, n)))
    && forall n :: IsOwnedInterface(a, parking, known, n) ==>
         Loc(home, n) in b && b[Loc(home, n)].up && Landed(a[Loc(parking, n)], b[Loc(home, n)])
  }

  /** b is a, but for the loopback and management interfaces of a container that just started, which are no
      end of a pair in a namespace of a node. */
  ghost predicate Booted(a: Links, b: Links, ns: string) {
    forall l: Loc :: if l.ns == ns && (l.name == "lo" || l.name == "eth0") then l in b && b[l].kind.Other?
                     else (l in b <==> l in a) && (l in a ==> b[l] == a[l])
  }

  // The kinds of the interfaces in the two namespaces do not change with what is moved between them.

  ghost predicate NoNewKinds(a: Links, b: Links, home: string, parking: string) {
    forall l :: l in b && (l.ns == home || l.ns == parking) ==>
      b[l].kind.Other? || exists m :: m in a && (m.ns == home || m.ns == parking) && a[m].kind == b[l].kind
  }

  lemma FarStays(a: Links, b: Links, home: string, parking: string, kind: Kind)
    requires NoNewKinds(a, b, home, parking) && kind.Veth? && FarPeer(a, home, parking, kind)
    ensures FarPeer(b, home, parking, kind)
  {
  }

  lemma CarriedKinds(a: Links, b: Links, names: set<string>, from: string, to: string)
    requires Carried(a, b, names, from, to)
    ensures NoNewKinds(a, b, from, to) && NoNewKinds(a, b, to, from)
  {
    forall l | l in b && (l.ns == from || l.ns == to)
      ensures exists m :: m in a && (m.ns == from || m.ns == to) && a[m].kind == b[l].kind
    {
      var m := if Touched(l, names, from, to) then Loc(from, l.name) else l;
      assert m in a && a[m].kind == b[l].kind;
    }
  }

  lemma ResettledKinds(a: Links, b: Links, names: set<string>, ns: string, home: string, parking: string)
    requires Resettled(a, b, names, ns)
    ensures NoNewKinds(a, b, home, parking)
  {
    forall l | l in b && (l.ns == home || l.ns == parking)
      ensures exists m :: m in a && (m.ns == home || m.ns == parking) && a[m].kind == b[l].kind
    {
      assert l in a && a[l].kind == b[l].kind by {
        assert Touched(l, names, ns, ns) ==> l == Loc(ns, l.name);
      }
    }
  }

  lemma ParkedByCapture(a: Links, b: Links, names: set<string>, home: string, parking: string,
                        tracked: set<string>, wanted: set<string>)
    requires Carried(a, b, names, home, parking) && AtHome(a, home, parking, tracked, wanted)
    requires tracked + OwnedNames(a, home, {}) <= names
    ensures Parked(b, home, parking, wanted)
  {
    CarriedKinds(a, b, names, home, parking);
    forall n | n in wanted ensures Stored(b, home, parking, n) {
      assert Kept(a, home, parking, tracked, n);
      assert IsOwnedInterface(a, home, {n}, n);
      FarStays(a, b, home, parking, a[Loc(home, n)].kind);
    }
  }

  /** Capturing something else leaves parked what was parked. */
  lemma ParkedByNextCapture(a: Links, b: Links, names: set<string>, home: string, parking: string,
                            wanted: set<string>)
    requires Carried(a, b, names, home, parking) && Parked(a, home, parking, wanted) && home != parking
    ensures Parked(b, home, parking, wanted)
    ensures Clear(a, parking, home) ==> Clear(b, parking, home)
  {
    CarriedKinds(a, b, names, home, parking);
    forall n | n in wanted ensures Stored(b, home, parking, n) {
      assert Stored(a, home, parking, n);
      assert !Touched(Loc(parking, n), names, home, parking);
      FarStays(a, b, home, parking, a[Loc(parking, n)].kind);
    }
    forall n | Clear(a, parking, home) && n != "lo" && n != "eth0" && Loc(parking, n) in b ensures Loc(home, n) !in b {
      if n !in names {
        assert !Touched(Loc(parking, n), names, home, parking) && !Touched(Loc(home, n), names, home, parking);
      }
    }
  }

  lemma HomeAfterRefusal(a: Links, b: Links, names: set<string>, home: string, parking: string,
                         tracked: set<string>, wanted: set<string>)
    requires Resettled(a, b, names, home) && AtHome(a, home, parking, tracked, wanted)
    ensures AtHome(b, home, parking, tracked, wanted)
  {
    ResettledKinds(a, b, names, home, home, parking);
    forall n | n in wanted ensures Kept(b, home, parking, tracked, n) {
      assert Kept(a, home, parking, tracked, n);
      assert n !in names ==> !Touched(Loc(home, n), names, home, home);
      FarStays(a, b, home, parking, a[Loc(home, n)].kind);
    }
  }

  lemma HomeAfterRestore(a: Links, b: Links, names: set<string>, home: string, parking: string,
                         wanted: set<string>)
    requires Carried(a, b, names, parking, home) && Parked(a, home, parking, wanted) && wanted <= names
    ensures AtHome(b, home, parking, {}, wanted)
  {
    CarriedKinds(a, b, names, parking, home);
    forall n | n in wanted ensures Kept(b, home, parking, {}, n) {
      assert Stored(a, home, parking, n);
      FarStays(a, b, home, parking, a[Loc(parking, n)].kind);
    }
  }

  lemma ParkedAfterRefusal(a: Links, b: Links, names: set<string>, home: string, parking: string,
                           wanted: set<string>)
    requires Resettled(a, b, names, parking) && Parked(a, home, parking, wanted)
    ensures Parked(b, home, parking, wanted)
  {
    ResettledKinds(a, b, names, parking, home, parking);
    forall n | n in wanted ensures Stored(b, home, parking, n) {
      assert Stored(a, home, parking, n);
      assert n !in names ==> !Touched(Loc(parking, n), names, parking, parking);
      FarStays(a, b, home, parking, a[Loc(parking, n)].kind);
    }
  }

  lemma OutsideKeepsHome(links: Links, home: string, parking: string, tracked: set<string>, wanted: set<string>)
    requires home != parking && AtHome(links, home, parking, tracked, wanted)
    ensures AtHome(Outside(links, parking), home, parking, tracked, wanted)
  {
    forall n | n in wanted ensures Kept(Outside(links, parking), home, parking, tracked, n) {
      assert Kept(links, home, parking, tracked, n);
    }
  }

  lemma OutsideKeepsParked(links: Links, home: string, parking: string, wanted: set<string>)
    requires home != parking && Parked(links, home, parking, wanted)
    ensures Parked(Outside(links, home), home, parking, wanted)
  {
    forall n | n in wanted ensures Stored(Outside(links, home), home, parking, n) {
      assert Stored(links, home, parking, n);
    }
  }

  lemma StillTracked(links: Links, home: string, parking: string, tracked: set<string>, now: set<string>,
                     wanted: set<string>)
    requires tracked <= now && AtHome(links, home, parking, tracked, wanted)
    ensures AtHome(links, home, parking, now, wanted)
  {
    forall n | n in wanted ensures Kept(links, home, parking, now, n) {
      assert Kept(links, home, parking, tracked, n);
    }
  }

  /** Capturing into an empty parking namespace fills it with the captured interfaces only, and leaves
      nothing that could stand in the way back. */
  lemma CaptureClears(a: Links, b: Links, names: set<string>, home: string, parking: string)
    requires Carried(a, b, names, home, parking) && Vacant(a, parking)
    ensures Clear(b, parking, home) && Within(b, parking, names)
  {
    forall n | Loc(parking, n) in b ensures n in names {
      assert n !in names ==> !Touched(Loc(parking, n), names, home, parking);
    }
  }

  lemma VacantAfterRefusal(a: Links, b: Links, names: set<string>, home: string, parking: string)
    requires Resettled(a, b, names, home) && home != parking
    ensures Vacant(a, parking) ==> Vacant(b, parking)
    ensures Clear(a, home, parking) ==> Clear(b, home, parking)
    ensures Clear(a, parking, home) ==> Clear(b, parking, home)
    ensures forall n :: Loc(home, n) in b <==> Loc(home, n) in a
  {
    assert forall l :: l in b ==> l in a || Touched(l, names, home, home);
    assert forall n :: n !in names ==> !Touched(Loc(home, n), names, home, home);
  }

  /** Starting the container changes nothing about what is parked and puts nothing in the way. */
  lemma StartedHalfway(a: Links, b: Links, home: string, parking: string, wanted: set<string>)
    requires home != parking && Booted(a, b, home) && Parked(a, home, parking, wanted) && Vacant(a, home)
    ensures Parked(b, home, parking, wanted) && Clear(b, parking, home)
  {
    forall n | n in wanted ensures Stored(b, home, parking, n) {
      assert Stored(a, home, parking, n);
    }
  }

  lemma PackedBy(a: Links, b: Links, names: set<string>, home: string, parking: string)
    requires Carried(a, b, names, home, parking) && Within(b, parking, names) && home != parking
    ensures Packed(a, Outside(b, home), names, home, parking)
  {
  }

  /** A container that has just started changes nothing about what is listed. */
  lemma BootedListing(a: Links, b: Links, home: string, parking: string, known: set<string>)
    requires Booted(a, b, home) && home != parking
    ensures forall n :: IsOwnedInterface(b, parking, known, n) <==> IsOwnedInterface(a, parking, known, n)
    ensures OwnedNames(b, parking, known) == OwnedNames(a, parking, known)
    ensures forall n :: Loc(parking, n) in b <==> Loc(parking, n) in a
    ensures forall n :: Loc(parking, n) in a ==> b[Loc(parking, n)] == a[Loc(parking, n)]
  {
    forall kind: Kind ensures HasKind(b, parking, kind) <==> HasKind(a, parking, kind) {
      assert forall l: Loc :: l.ns == parking ==> (l in b <==> l in a) && (l in a ==> b[l] == a[l]);
    }
  }

  lemma NothingLeft(links: Links, ns: string)
    ensures Vacant(Outside(links, ns), ns)
  {
  }

  lemma ParkedAreListed(links: Links, home: string, parking: string, known: set<string>, wanted: set<string>)
    requires Parked(links, home, parking, wanted)
    ensures wanted <= OwnedNames(links, parking, known)
  {
    forall n | n in wanted ensures IsOwnedInterface(links, parking, known, n) {
      assert Stored(links, home, parking, n);
    }
  }
}
