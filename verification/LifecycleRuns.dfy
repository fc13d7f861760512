/** Whole runs of stops and starts: no wanted interface is ever lost, and exactly which ones would be. */
module LifecycleRuns {
  import opened EndpointOwnership
  import opened CarriedLinks
  import opened Parking
  import opened Discovery
  import opened WantedInterfaces
  import opened Lifecycle

  datatype Call = StopCall | StartCall | NewProcess

  /** The wanted interfaces are all with the running node, or all parked, with the node stopped or running. */
  ghost predicate Safe(d: DefaultNode, wanted: set<string>)
    reads d, d.k, d.node
  {
    d.UpWith(wanted) || d.DownWith(wanted) || d.HalfWith(wanted)
  }

  ghost predicate DistinctTopology(d: DefaultNode) {
    forall i, j :: 0 <= i < j < |d.topology| ==> d.topology[i].ifaceName != d.topology[j].ifaceName
  }

  /** Every start to come goes well or fails without effect. */
  ghost predicate NoneLate(d: DefaultNode)
    reads d
  {
    forall o :: o in d.starts ==> !o.FailsAfter?
  }

  ghost predicate UpOrDown(d: DefaultNode, wanted: set<string>)
    reads d, d.k, d.node
  {
    d.UpWith(wanted) || d.DownWith(wanted)
  }

  /** Calls of which each may fail at any point. A guarded run does not stop a node that is running while
      its parking namespace exists. No run loses a wanted interface if it is guarded, or stops nothing, or
      no start errs late; in the last case the node is always up with all of them or stopped with all
      parked, and the guard never holds a call back. */
  method Run(d: DefaultNode, calls: seq<Call>, guarded: bool, ghost wanted: set<string>) returns (skipped: nat)
    requires d.Valid() && Safe(d, wanted) && DistinctTopology(d)
    modifies d`status, d`starts, d.k, d.node`endpoints, d.node.endpoints`node
    ensures d.Valid() && Known(d.node.endpoints, old(d.node.endpoints))
    ensures guarded || StopCall !in calls ==> Safe(d, wanted)
    ensures old(NoneLate(d) && UpOrDown(d, wanted)) ==> UpOrDown(d, wanted)
    ensures !guarded || StopCall !in calls || old(NoneLate(d) && UpOrDown(d, wanted)) ==> skipped == 0
  {
    hide Vacant, AtHome, Parked, Names, Distinct, Clear;
    skipped := 0;
    for i := 0 to |calls|
      invariant d.Valid() && Known(d.node.endpoints, old(d.node.endpoints))
      invariant guarded || StopCall !in calls ==> Safe(d, wanted)
      invariant forall o :: o in d.starts ==> o in old(d.starts)
      invariant old(NoneLate(d) && UpOrDown(d, wanted)) ==> UpOrDown(d, wanted)
      invariant !guarded || StopCall !in calls || old(NoneLate(d) && UpOrDown(d, wanted)) ==> skipped == 0
    {
      match calls[i] {
        case StopCall =>
          if guarded && HasJoinableNetns(d.status) && d.parkingNs in d.k.namespaces {
            skipped := skipped + 1;
          } else {
            var hook: bool := *;
            var ok := d.Stop(hook, true, wanted);
          }
        case StartCall => var ok := d.Start(true, wanted);
        case NewProcess => d.Reload(wanted);
      }
    }
  }

  /** After any such run, one start without faults has the node up with everything. */
  method RunThenStart(d: DefaultNode, calls: seq<Call>, guarded: bool, ghost wanted: set<string>) returns (ok: bool)
    requires d.Valid() && Safe(d, wanted) && DistinctTopology(d) && !d.skipsLifecycle
    requires guarded || StopCall !in calls || (NoneLate(d) && UpOrDown(d, wanted))
    modifies d`status, d`starts, d.k, d.node`endpoints, d.node.endpoints`node
    ensures ok && d.UpWith(wanted)
  {
    hide Vacant, AtHome, Parked, Names, Distinct, Clear;
    var skipped := Run(d, calls, guarded, wanted);
    ok := d.Start(false, wanted);
  }

  /** What an unguarded run can lose: a container start that reports an error after the container has
      started, a new process, and a stop. The process tracks an interface that is parked, so nothing can be
      parked and everything that was is destroyed. */
  method HalfStartThenStop(d: DefaultNode, ghost wanted: set<string>) returns (ok: bool)
    requires d.Valid() && DistinctTopology(d) && !d.skipsLifecycle
    requires d.UpWith(wanted) && Parkable(d.k, d.node, d.parkingNs) && wanted * d.TopologyNames() != {}
    requires d.starts == [FailsAfter]
    modifies d`status, d`starts, d.k, d.node`endpoints, d.node.endpoints`node
    ensures !ok && d.Destroyed(wanted)
  {
    hide Vacant, AtHome, Parked, Names, Distinct, Clear, Holds;
    ok := d.Stop(true, false, wanted);
    ok := d.Start(true, wanted);
    d.Reload(wanted);
    StillParked(d, wanted);
    ok := d.Stop(true, false, wanted);
  }

  lemma StillParked(d: DefaultNode, wanted: set<string>)
    requires d.HalfWith(wanted) && wanted * Names(d.node.endpoints) != {}
    ensures !Parkable(d.k, d.node, d.parkingNs)
  {
    var n :| n in wanted && n in Names(d.node.endpoints);
    assert Stored(d.k.links, d.node.ns, d.parkingNs, n);
  }

  // Which parked interfaces a restore loses.

  /** A restore keeps a parked interface if and only if discovery lists it, that is, it is neither lo nor
      eth0, it is a veth, it is tracked or carries the altname, and its peer is not parked with it. */
  method RestoreKeepsIff(d: DefaultNode) returns (ok: bool)
    requires d.Valid() && d.HalfWith({})
    modifies d.k, d.node`endpoints, d.node.endpoints`node
    ensures ok
    ensures forall n :: old(Loc(d.parkingNs, n) in d.k.links && Loc(d.node.ns, n) !in d.k.links) ==>
              (Loc(d.node.ns, n) in d.k.links
               <==> IsOwnedInterface(old(d.k.links), d.parkingNs, Names(old(d.node.endpoints)), n))
    ensures Vacant(d.k.links, d.parkingNs)
  {
    ok := d.RestoreEndpoints(false, {});
  }

  /** The peer of the named interface is captured with it. */
  ghost predicate PeerCaptured(links: Links, ns: string, names: set<string>, n: string) {
    exists m :: IsPeerOf(links, ns, names, n, m)
  }

  ghost predicate IsPeerOf(links: Links, ns: string, names: set<string>, n: string, m: string) {
    && m in names && Loc(ns, m) in links && Loc(ns, n) in links
    && links[Loc(ns, m)].kind == links[Loc(ns, n)].kind.Peer()
  }

  /** What comes back from parking: every veth but lo and eth0, unless its peer is parked with it. */
  ghost predicate ComesBack(links: Links, ns: string, names: set<string>, n: string) {
    && n != "lo" && n != "eth0" && Loc(ns, n) in links && links[Loc(ns, n)].kind.Veth?
    && !PeerCaptured(links, ns, names, n)
  }

  lemma ListedIffComesBack(a: Links, b: Links, names: set<string>, home: string, parking: string,
                           known: set<string>, n: string)
    requires Packed(a, b, names, home, parking) && n in names
    ensures IsOwnedInterface(b, parking, known, n) <==> ComesBack(a, home, names, n)
  {
    var kind := a[Loc(home, n)].kind;
    if HasKind(b, parking, kind.Peer()) {
      var l :| l in b && l.ns == parking && b[l].kind == kind.Peer();
      assert Loc(parking, l.name) == l;
      assert IsPeerOf(a, home, names, n, l.name);
    }
    if PeerCaptured(a, home, names, n) {
      var m :| IsPeerOf(a, home, names, n, m);
      assert Loc(parking, m) in b && b[Loc(parking, m)].kind == kind.Peer();
    }
  }

  /** A stop and a start without faults, by one process or by two. The stop goes through if and only if
      everything tracked can be parked; then a captured interface is there again if and only if it comes back,
      and the new container's own lo and eth0 aside nothing else is. */
  method StopThenStart(d: DefaultNode, newProcess: bool, ghost wanted: set<string>) returns (ok: bool)
    requires d.Valid() && d.UpWith(wanted) && (newProcess ==> DistinctTopology(d)) && !d.skipsLifecycle
    modifies d`status, d`starts, d.k, d.node`endpoints, d.node.endpoints`node
    ensures d.Valid() && d.UpWith(wanted)
    ensures ok <==> old(Parkable(d.k, d.node, d.parkingNs))
    ensures ok ==> forall n :: n != "lo" && n != "eth0" ==>
              (Loc(d.node.ns, n) in d.k.links
               <==> n in old(ToCapture(d.k, d.node))
                    && old(ComesBack(d.k.links, d.node.ns, ToCapture(d.k, d.node), n)))
    ensures ok ==> forall n :: n in old(ToCapture(d.k, d.node)) && n != "lo" && n != "eth0"
                               && Loc(d.node.ns, n) in d.k.links ==>
              d.k.links[Loc(d.node.ns, n)].up
              && Landed(old(d.k.links[Loc(d.node.ns, n)]), d.k.links[Loc(d.node.ns, n)])
  {
    hide Packed, Unpacked, ComesBack, Landed, Parkable, Clear, AtHome, Parked, Vacant;
    ghost var before, names := d.k.links, ToCapture(d.k, d.node);
    ok := d.Stop(true, false, wanted);
    if !ok {
      return;
    }
    if newProcess {
      d.Reload(wanted);
    }
    ghost var packed, known := d.k.links, Names(d.node.endpoints);
    ok := d.Start(false, wanted);
    forall n | n != "lo" && n != "eth0"
      ensures Loc(d.node.ns, n) in d.k.links <==> n in names && ComesBack(before, d.node.ns, names, n)
      ensures Loc(d.node.ns, n) in d.k.links ==>
                d.k.links[Loc(d.node.ns, n)].up && Loc(d.node.ns, n) in before
                && Landed(before[Loc(d.node.ns, n)], d.k.links[Loc(d.node.ns, n)])
    {
      RoundTrip(before, packed, d.k.links, names, d.node.ns, d.parkingNs, known, n);
    }
  }

  lemma RoundTrip(a: Links, b: Links, c: Links, names: set<string>, home: string, parking: string,
                  known: set<string>, n: string)
    requires Packed(a, b, names, home, parking) && Unpacked(b, c, parking, home, known) && n != "lo" && n != "eth0"
    ensures Loc(home, n) in c <==> n in names && ComesBack(a, home, names, n)
    ensures Loc(home, n) in c ==>
              c[Loc(home, n)].up && Loc(home, n) in a && Landed(a[Loc(home, n)], c[Loc(home, n)])
  {
    if n in names {
      ListedIffComesBack(a, b, names, home, parking, known, n);
    }
  }

  /** A link from the node to itself is destroyed by a stop and a start, although nothing fails: its two ends
      are parked together, so discovery lists neither. */
  method SelfLinkIsLost(d: DefaultNode, x: string, y: string, newProcess: bool) returns (ok: bool)
    requires d.Valid() && d.UpWith({}) && (newProcess ==> DistinctTopology(d)) && !d.skipsLifecycle
    requires Parkable(d.k, d.node, d.parkingNs) && {x, y} <= Names(d.node.endpoints)
    requires IsPeerOf(d.k.links, d.node.ns, {x, y}, x, y) && IsPeerOf(d.k.links, d.node.ns, {x, y}, y, x)
    modifies d`status, d`starts, d.k, d.node`endpoints, d.node.endpoints`node
    ensures ok && d.Destroyed({x, y} - {"lo", "eth0"})
  {
    ghost var names := ToCapture(d.k, d.node);
    assert IsPeerOf(d.k.links, d.node.ns, names, x, y) && IsPeerOf(d.k.links, d.node.ns, names, y, x);
    ok := StopThenStart(d, newProcess, {});
  }

  /** Parking and restoring is a round trip by name: the node tracks and holds the same interfaces, up. */
  method ParkThenRestore(d: DefaultNode, ghost wanted: set<string>) returns (ok: bool)
    requires d.Valid() && d.UpWith(wanted) && Parkable(d.k, d.node, d.parkingNs)
    modifies d.k, d.node`endpoints, d.node.endpoints`node
    ensures ok && d.UpWith(wanted)
    ensures wanted <= Names(d.node.endpoints) <= old(ToCapture(d.k, d.node))
    ensures AllUp(d.k.links, wanted, d.node.ns, true)
  {
    hide Carried, Parkable, Clear, AtHome;
    ok := d.ParkEndpoints(false, wanted);
    ghost var parked := d.k.links;
    NoNames();
    ParkedAreListed(parked, d.node.ns, d.parkingNs, {}, wanted);
    ok := d.RestoreEndpoints(false, wanted);
  }
}
