/** Stopping and starting a node: its dataplane interfaces are parked while the container is stopped, and
    no run of stops and starts loses one. */
module Lifecycle {
  import opened EndpointOwnership
  import opened CarriedLinks
  import opened EndpointSelection
  import opened Parking
  import opened Discovery
  import opened WantedInterfaces
  import opened Wrappers

  datatype ContainerStatus = NotFound | Running | Stopped | Paused | Created | Restarting | Removing

  predicate HasJoinableNetns(status: ContainerStatus) {
    status.Running? || status.Paused?
  }

  /** A container start may report an error before or after the container has started. */
  datatype StartOutcome = Starts | FailsBefore | FailsAfter

  function NextStart(faulty: bool, starts: seq<StartOutcome>): StartOutcome {
    if faulty && starts != [] then starts[0] else Starts
  }

  datatype TopologyEndpoint = TopologyEndpoint(ifaceName: string, vethLink: bool)

  twostate predicate Known(new list: seq<Endpoint>, new before: seq<Endpoint>) {
    forall i :: 0 <= i < |list| ==> list[i] in before || fresh(list[i])
  }

  /** What a capture does to the wanted interfaces, of which some may be safe only because the node
      tracks them. It goes through without faults if and only if it is possible. */
  method CaptureWanted(k: Kernel, p: LinkNode, src: LinkNode, faulty: bool, ghost tracked: set<string>,
                       ghost wanted: set<string>)
    returns (ok: bool)
    requires src.Owns() && p.endpoints == [] && src != p && src.ns != p.ns && tracked <= Names(src.endpoints)
    modifies k`links, src`endpoints, p`endpoints, src.endpoints`node
    ensures src.Owns() && p.Owns() && Names(src.endpoints) !! Names(p.endpoints)
    ensures Known(src.endpoints, old(src.endpoints)) && Known(p.endpoints, old(src.endpoints))
    ensures ok ==> src.endpoints == [] && Carried(old(k.links), k.links, old(ToCapture(k, src)), src.ns, p.ns)
    ensures old(Clear(k.links, p.ns, src.ns)) && ok ==> Clear(k.links, p.ns, src.ns)
    ensures old(Vacant(k.links, p.ns)) ==>
              if ok then Within(k.links, p.ns, old(ToCapture(k, src))) else Vacant(k.links, p.ns)
    ensures !ok ==> Names(old(src.endpoints)) <= Names(src.endpoints)
    ensures !ok ==> forall n :: Loc(src.ns, n) in k.links <==> Loc(src.ns, n) in old(k.links)
    ensures old(AtHome(k.links, src.ns, p.ns, tracked, wanted)) ==>
              if ok then Parked(k.links, src.ns, p.ns, wanted) else AtHome(k.links, src.ns, p.ns, tracked, wanted)
    ensures old(Parked(k.links, src.ns, p.ns, wanted)) && ok ==> Parked(k.links, src.ns, p.ns, wanted)
    ensures ok ==> old(Parkable(k, src, p.ns))
    ensures !faulty && old(Clear(k.links, p.ns, src.ns)) && p.ns in k.namespaces && old(Parkable(k, src, p.ns)) ==> ok
  {
    hide Distinct, Names, AllUp, Resettled, Parked, AtHome, Clear, Vacant, Within, Carried, Holds;
    ghost var before, list, all := k.links, src.endpoints, ToCapture(k, src);
    var culprit;
    ParkableIsCapturable(k, src, p);
    ok, culprit := CaptureFrom(k, p, src, faulty);
    if ok {
      assert p.endpoints[0..] == p.endpoints;
      CapturedMeans(list, p.endpoints, before, k.links, src.ns, p.ns);
      CaptureEffects(before, k.links, all, src.ns, p.ns, tracked, wanted);
      HoldsSome(before, all, Names(list), src.ns, p.ns);
      NoNames();
    } else {
      RegainedNames(list, src.endpoints);
      VacantAfterRefusal(before, k.links, Names(src.endpoints), src.ns, p.ns);
      NoNames();
      if AtHome(before, src.ns, p.ns, tracked, wanted) {
        HomeAfterRefusal(before, k.links, Names(src.endpoints), src.ns, p.ns, tracked, wanted);
      }
    }
  }

  /** What a capture sets out to park: what the node tracks and what it discovers. */
  ghost function ToCapture(k: Kernel, src: LinkNode): set<string>
    reads k, src
  {
    Names(src.endpoints) + OwnedNames(k.links, src.ns, {})
  }

  /** Besides what is tracked, exactly the veths with the altname whose other end is elsewhere are captured. */
  lemma CapturedExactly(k: Kernel, src: LinkNode, n: string)
    ensures n in ToCapture(k, src) <==>
            || (exists e :: e in src.endpoints && e.ifaceName == n)
            || (n !in {"lo", "eth0"} && Loc(src.ns, n) in k.links && k.links[Loc(src.ns, n)].kind.Veth?
                && k.links[Loc(src.ns, n)].altName
                && forall m :: Loc(src.ns, m) in k.links ==>
                     k.links[Loc(src.ns, m)].kind
                     != Veth(k.links[Loc(src.ns, n)].kind.pair, !k.links[Loc(src.ns, n)].kind.side))
  {
    OwnedExactly(k.links, src.ns, {}, n);
  }

  /** What a stop without faults needs: every endpoint of the topology on a veth link, every tracked
      interface in the namespace of the node and none of its names in the parking namespace. */
  ghost predicate Parkable(k: Kernel, src: LinkNode, parking: string)
    reads k, src
  {
    && Supported(src.endpoints) && src.ns in k.namespaces
    && Holds(k.links, Names(src.endpoints), src.ns, parking)
  }

  lemma ParkableExactly(k: Kernel, src: LinkNode, parking: string)
    ensures Parkable(k, src, parking) <==>
            && src.ns in k.namespaces
            && forall e :: e in src.endpoints ==>
                 && (e.runtime || e.vethLink)
                 && Loc(src.ns, e.ifaceName) in k.links && Loc(parking, e.ifaceName) !in k.links
  {
    assert forall i :: 0 <= i < |src.endpoints| ==> src.endpoints[i] in src.endpoints;
    assert forall e :: e in src.endpoints ==> e.ifaceName in Names(src.endpoints);
  }

  lemma ParkableIsCapturable(k: Kernel, src: LinkNode, p: LinkNode)
    requires p.endpoints == []
    ensures Parkable(k, src, p.ns) && Clear(k.links, p.ns, src.ns) && p.ns in k.namespaces ==> Capturable(k, src, p)
  {
  }

  lemma HoldsSome(links: Links, all: set<string>, some: set<string>, from: string, to: string)
    requires Holds(links, all, from, to) && some <= all
    ensures Holds(links, some, from, to)
  {
  }

  lemma CaptureEffects(a: Links, b: Links, names: set<string>, home: string, parking: string,
                       tracked: set<string>, wanted: set<string>)
    requires Carried(a, b, names, home, parking) && home != parking
    requires tracked + OwnedNames(a, home, {}) <= names
    ensures Clear(a, parking, home) ==> Clear(b, parking, home)
    ensures Vacant(a, parking) ==> Within(b, parking, names)
    ensures AtHome(a, home, parking, tracked, wanted) ==> Parked(b, home, parking, wanted)
    ensures Parked(a, home, parking, wanted) ==> Parked(b, home, parking, wanted)
    ensures Holds(a, names, home, parking)
  {
    if Vacant(a, parking) {
      CaptureClears(a, b, names, home, parking);
    }
    if AtHome(a, home, parking, tracked, wanted) {
      ParkedByCapture(a, b, names, home, parking, tracked, wanted);
    }
    if Parked(a, home, parking, wanted) {
      ParkedByNextCapture(a, b, names, home, parking, wanted);
    }
    ParkedByNextCapture(a, b, names, home, parking, {});
  }

  twostate lemma RegainedNames(new before: seq<Endpoint>, new now: seq<Endpoint>)
    requires Regained(before, now)
    ensures Names(before) <= Names(now)
  {
  }

  twostate lemma CapturedMeans(new list: seq<Endpoint>, new captured: seq<Endpoint>, new a: Links,
                               new b: Links, new home: string, new parking: string)
    requires Captured(list, captured, a, b, home, parking)
    ensures Known(captured, list)
    ensures Carried(a, b, Names(list) + OwnedNames(a, home, {}), home, parking)
  {
    assert captured == list + captured[|list|..];
    forall i | |list| <= i < |captured| ensures fresh(captured[i]) {
      assert captured[i] in captured[|list|..];
    }
  }

  /** What a restore does to the wanted interfaces; exactly the listed ones come back. */
  method RestoreWanted(k: Kernel, p: LinkNode, dst: LinkNode, faulty: bool, ghost wanted: set<string>)
    returns (ok: bool)
    requires Apart(p, dst) && p.ns != dst.ns
    modifies k`links, p`endpoints, dst`endpoints, p.endpoints`node, dst.endpoints`node
    ensures dst.Owns() && Known(dst.endpoints, old(dst.endpoints) + old(p.endpoints))
    ensures ok ==> Revived(old(k.links), k.links, p.ns, dst.ns,
                     ParkedNames(old(k.links), p.ns, old(p.endpoints), old(dst.endpoints)))
    ensures ok && old(p.endpoints) == [] ==>
              Names(dst.endpoints)
              == Names(old(dst.endpoints)) + ParkedNames(old(k.links), p.ns, [], old(dst.endpoints))
    ensures old(Parked(k.links, dst.ns, p.ns, wanted)) ==>
              if ok then AtHome(k.links, dst.ns, p.ns, {}, wanted) else Parked(k.links, dst.ns, p.ns, wanted)
    ensures !ok && old(Clear(k.links, p.ns, dst.ns)) ==> Clear(k.links, p.ns, dst.ns)
    ensures !faulty && p.ns in k.namespaces && dst.ns in k.namespaces && old(Clear(k.links, p.ns, dst.ns)) ==> ok
  {
    hide Distinct, Names, AllUp, Reconciled, Resettled, Carried, Parked, AtHome;
    ghost var before, p0, o0 := k.links, p.endpoints, dst.endpoints;
    ghost var names := ParkedNames(before, p.ns, p0, o0);
    var culprit;
    ghost var found;
    ok, culprit, found := RestoreTo(k, p, dst, faulty);
    RestoredMembers(p0, o0, found, dst.endpoints, names, ok);
    if ok {
      if Parked(before, dst.ns, p.ns, wanted) {
        ParkedAreListed(before, dst.ns, p.ns, Names(p0) + Names(o0), wanted);
        HomeAfterRestore(before, k.links, names, dst.ns, p.ns, wanted);
      }
    } else {
      VacantAfterRefusal(before, k.links, Names(p.endpoints), p.ns, dst.ns);
      if Parked(before, dst.ns, p.ns, wanted) {
        ParkedAfterRefusal(before, k.links, Names(p.endpoints), dst.ns, p.ns, wanted);
      }
    }
  }

  twostate lemma RestoredNames(new p0: seq<Endpoint>, new o0: seq<Endpoint>, new found: seq<Endpoint>,
                               new list: seq<Endpoint>, new names: set<string>)
    requires AppendedTo(p0, o0, found, list, names)
    ensures p0 == [] ==> Names(list) == Names(o0) + names
  {
    var rest := list[..|list| - |found|];
    assert list == rest + found;
    ReconciledMembers(p0, o0, found, rest, names);
    NamesPlus(rest, found);
    if p0 == [] {
      assert forall i :: 0 <= i < |rest| ==> rest[i] in o0;
    }
  }

  twostate lemma RestoredMembers(new p0: seq<Endpoint>, new o0: seq<Endpoint>, new found: seq<Endpoint>,
                                 new list: seq<Endpoint>, new names: set<string>, new ok: bool)
    requires if ok then AppendedTo(p0, o0, found, list, names) else LeftWith(p0, o0, found, list, names)
    ensures Known(list, o0 + p0)
    ensures ok && p0 == [] ==> Names(list) == Names(o0) + names
  {
    if ok {
      RestoredNames(p0, o0, found, list, names);
      var rest := list[..|list| - |found|];
      assert list == rest + found;
      ReconciledMembers(p0, o0, found, rest, names);
      forall i | 0 <= i < |list| ensures list[i] in o0 + p0 || fresh(list[i]) {
        assert list[i] in rest || list[i] in found;
      }
    } else if Reconciled(p0, o0, found, list, names) {
      ReconciledMembers(p0, o0, found, list, names);
    }
  }

  /** The node holds exactly what it held and what was listed in the parking namespace, which is gone. */
  ghost predicate Recovered(a: Links, b: Links, parking: string, home: string, known: set<string>)
  {
    && Vacant(b, parking)
    && (forall n :: Loc(home, n) in b <==> Loc(home, n) in a || IsOwnedInterface(a, parking, known, n))
    && (forall n :: Loc(home, n) in a && !IsOwnedInterface(a, parking, known, n) ==>
          b[Loc(home, n)] == a[Loc(home, n)])
    && (forall n :: IsOwnedInterface(a, parking, known, n) ==>
          b[Loc(home, n)].up && Landed(a[Loc(parking, n)], b[Loc(home, n)]))
  }

  lemma RecoveredBy(a: Links, b: Links, parking: string, home: string, list: seq<Endpoint>)
    requires Revived(a, b, parking, home, ParkedNames(a, parking, [], list)) && parking != home
    ensures Recovered(a, Outside(b, parking), parking, home, Names(list))
  {
    var names := ParkedNames(a, parking, [], list);
    assert Names([]) + Names(list) == Names(list);
    assert forall n :: n !in names ==> !Touched(Loc(home, n), names, parking, home);
  }

  lemma UnpackedBy(a: Links, m: Links, b: Links, parking: string, home: string, known: set<string>)
    requires Vacant(a, home) && Booted(a, m, home) && home != parking && Recovered(m, b, parking, home, known)
    ensures Unpacked(a, b, parking, home, known)
  {
    BootedListing(a, m, home, parking, known);
  }

  lemma NoNames()
    ensures Names([]) == {} && Distinct([])
  {
  }

  class DefaultNode {
    const k: Kernel
    const node: LinkNode
    const parkingName: string
    const parkingNs: string
    const skipsLifecycle: bool
    const topology: seq<TopologyEndpoint>

    /** How the next container starts come out; those after them go well. */
    var starts: seq<StartOutcome>

    var status: ContainerStatus

    constructor (k: Kernel, node: LinkNode, parkingName: string, parkingNs: string, skipsLifecycle: bool,
                 topology: seq<TopologyEndpoint>, starts: seq<StartOutcome>, status: ContainerStatus)
      ensures this.k == k && this.node == node && this.status == status
      ensures this.parkingName == parkingName && this.parkingNs == parkingNs
      ensures this.skipsLifecycle == skipsLifecycle && this.topology == topology
      ensures this.starts == starts
    {
      this.k, this.node, this.parkingName, this.parkingNs := k, node, parkingName, parkingNs;
      this.skipsLifecycle, this.topology := skipsLifecycle, topology;
      this.starts, this.status := starts, status;
    }

    ghost predicate Valid()
      reads this, node, node.endpoints
    {
      node.Owns() && node.ns != parkingNs
    }

    /** The names that the node tracks now and every new process tracks as well. */
    ghost function Tracked(): set<string>
      reads this, node
    {
      Names(node.endpoints) * TopologyNames()
    }

    ghost function TopologyNames(): set<string> {
      set i | 0 <= i < |topology| :: topology[i].ifaceName
    }

    /** Running, nothing parked, every wanted interface with the node. */
    ghost predicate UpWith(wanted: set<string>)
      reads this, k, node
    {
      && HasJoinableNetns(status) && node.ns in k.namespaces
      && parkingNs !in k.namespaces && Vacant(k.links, parkingNs)
      && AtHome(k.links, node.ns, parkingNs, Tracked(), wanted)
    }

    /** Stopped, every wanted interface parked. */
    ghost predicate DownWith(wanted: set<string>)
      reads this, k, node
    {
      && status.Stopped? && node.ns !in k.namespaces && Vacant(k.links, node.ns)
      && parkingNs in k.namespaces && Parked(k.links, node.ns, parkingNs, wanted)
    }

    /** Running although every wanted interface is parked. */
    ghost predicate HalfWith(wanted: set<string>)
      reads this, k, node
    {
      && HasJoinableNetns(status) && node.ns in k.namespaces
      && parkingNs in k.namespaces && Parked(k.links, node.ns, parkingNs, wanted)
      && Clear(k.links, parkingNs, node.ns)
    }

    // The container runtime.

    twostate predicate Untouched()
      reads this, k
    {
      status == old(status) && k.links == old(k.links) && k.namespaces == old(k.namespaces)
    }

    twostate predicate HasStarted()
      reads this, k
    {
      && status.Running? && k.namespaces == old(k.namespaces) + {node.ns}
      && Booted(old(k.links), k.links, node.ns)
    }

    twostate predicate Consumed()
      reads this
    {
      starts == old(starts) || (old(starts) != [] && starts == old(starts)[1..])
    }

    /** Stopping takes the node's namespace away, with whatever is left in it. */
    twostate predicate HasStopped()
      reads this, k
    {
      && status.Stopped? && k.namespaces == old(k.namespaces) - {node.ns}
      && k.links == Outside(old(k.links), node.ns)
    }

    method StartContainer(faulty: bool) returns (ok: bool)
      modifies this`status, this`starts, k
      ensures ok <==> NextStart(faulty, old(starts)).Starts?
      ensures if NextStart(faulty, old(starts)).FailsBefore? then Untouched() else HasStarted()
      ensures Consumed()
    {
      var outcome := NextStart(faulty, starts);
      if faulty && starts != [] {
        starts := starts[1..];
      }
      if !outcome.FailsBefore? {
        var up: bool, altName: bool := *, *;
        status := Running;
        k.namespaces := k.namespaces + {node.ns};
        k.links := k.links[Loc(node.ns, "lo") := Link(Other, altName, up)]
          [Loc(node.ns, "eth0") := Link(Other, false, up)];
      }
      ok := outcome.Starts?;
    }

    /** May report an error although the container has stopped. */
    method StopContainer(faulty: bool) returns (ok: bool)
      modifies this`status, k
      ensures ok ==> HasStopped()
      ensures !ok ==> Untouched() || HasStopped()
      ensures !faulty ==> ok
    {
      var fails: bool, stopped: bool := *, *;
      ok := !(faulty && fails);
      if ok || stopped {
        status := Stopped;
        k.DeleteNamespace(node.ns);
      }
    }

    method LifecycleStartContainers(faulty: bool) returns (started: bool, ok: bool)
      modifies this`status, this`starts, k
      ensures old(HasJoinableNetns(status)) ==> ok && !started && Untouched()
      ensures !old(HasJoinableNetns(status)) ==> (
                && (ok <==> NextStart(faulty, old(starts)).Starts?) && started == ok
                && if NextStart(faulty, old(starts)).FailsBefore? then Untouched() else HasStarted())
      ensures Consumed()
    {
      if HasJoinableNetns(status) {
        return false, true;
      }
      ok := StartContainer(faulty);
      started := ok;
    }

    /** An error of a container that did stop is not an error. */
    method LifecycleStopContainers(faulty: bool) returns (ok: bool)
      modifies this`status, k
      ensures ok ==> if old(HasJoinableNetns(status)) then HasStopped() else Untouched()
      ensures !ok ==> Untouched()
      ensures !faulty ==> ok
    {
      if !HasJoinableNetns(status) {
        return true;
      }
      ok := StopContainer(faulty);
      if ok {
        return;
      }
      ok := !HasJoinableNetns(status);
    }

    method CleanupParkingNetNS(ghost tracked: set<string>, ghost wanted: set<string>)
      requires node.ns != parkingNs
      modifies k
      ensures old(parkingNs in k.namespaces) ==> Vacant(k.links, parkingNs)
      ensures forall n :: Loc(node.ns, n) in k.links <==> Loc(node.ns, n) in old(k.links)
      ensures old(AtHome(k.links, node.ns, parkingNs, tracked, wanted)) && tracked <= Tracked() ==>
                AtHome(k.links, node.ns, parkingNs, Tracked(), wanted)
      ensures k.namespaces == old(k.namespaces) - {parkingNs}
      ensures k.links == if parkingNs in old(k.namespaces) then Outside(old(k.links), parkingNs) else old(k.links)
    {
      hide AtHome, Vacant;
      GoneIsHarmless(k.links, node.ns, parkingNs, tracked, wanted);
      if parkingNs in k.namespaces {
        k.DeleteNamespace(parkingNs);
      }
      if AtHome(k.links, node.ns, parkingNs, tracked, wanted) && tracked <= Tracked() {
        StillTracked(k.links, node.ns, parkingNs, tracked, Tracked(), wanted);
      }
    }

    /** The symlink that names the container's namespace; links and namespaces have no part in it. */
    method RepointSymlink(faulty: bool) returns (ok: bool)
      ensures !faulty ==> ok
    {
      var fails: bool := *;
      ok := !(faulty && fails);
    }

    /** Parks everything, or has everything at home again. A failure deletes the parking namespace with
        whatever was in it before. */
    method ParkEndpoints(faulty: bool, ghost wanted: set<string>) returns (ok: bool)
      requires Valid()
      modifies k, node`endpoints, node.endpoints`node
      ensures Valid() && Known(node.endpoints, old(node.endpoints))
      ensures k.namespaces == if ok then old(k.namespaces) + {parkingNs} else old(k.namespaces) - {parkingNs}
      ensures !ok && old(parkingNs in k.namespaces) ==> Vacant(k.links, parkingNs)
      ensures ok ==> node.endpoints == [] && old(Parkable(k, node, parkingNs))
      ensures ok ==> Carried(old(k.links), k.links, old(ToCapture(k, node)), node.ns, parkingNs)
      ensures ok && old(Vacant(k.links, parkingNs)) ==> Within(k.links, parkingNs, old(ToCapture(k, node)))
      ensures old(UpWith(wanted)) ==> if ok then HalfWith(wanted) else UpWith(wanted)
      ensures old(HalfWith(wanted)) ==> if ok then HalfWith(wanted) else UpWith(wanted) || Destroyed(wanted)
      ensures !faulty && !ok && old(HalfWith(wanted)) ==> Destroyed(wanted)
      ensures !faulty && old((UpWith(wanted) || HalfWith(wanted)) && Parkable(k, node, parkingNs)) ==> ok
    {
      hide Distinct, Names, AtHome, Parked, Clear, Holds, Carried, Within, Supported;
      ghost var tracked := Tracked();
      VacantIsClear(k.links, parkingNs, node.ns);
      ok := k.CreateOrGetNamespace(parkingNs, faulty);
      if !ok {
        return;
      }
      var p := new LinkNode(parkingName, parkingNs);
      ok := CaptureWanted(k, p, node, faulty, tracked, wanted);
      if !ok {
        CleanupParkingNetNS(tracked, wanted);
        NeverHome(old(k.links), k.links, node.ns, parkingNs, wanted);
        return;
      }
      ok := RepointSymlink(faulty);
      if !ok {
        var restored := RestoreWanted(k, p, node, false, wanted);
        CleanupParkingNetNS({}, wanted);
      }
    }

    /** Brings back exactly the interfaces that discovery lists in the parking namespace and deletes the
        namespace with all the others. */
    method RestoreEndpoints(faulty: bool, ghost wanted: set<string>) returns (ok: bool)
      requires Valid()
      modifies k, node`endpoints, node.endpoints`node
      ensures Valid() && Known(node.endpoints, old(node.endpoints))
      ensures parkingNs !in old(k.namespaces) ==> !ok && Untouched()
      ensures !ok ==> k.namespaces == old(k.namespaces)
      ensures ok ==> k.namespaces == old(k.namespaces) - {parkingNs}
      ensures ok ==> Recovered(old(k.links), k.links, parkingNs, node.ns, Names(old(node.endpoints)))
      ensures ok ==> Names(node.endpoints) == old(
                Names(node.endpoints) + OwnedNames(k.links, parkingNs, Names(node.endpoints)))
      ensures old(HalfWith(wanted)) ==> if ok then UpWith(wanted) else HalfWith(wanted)
      ensures !faulty && old(HalfWith(wanted)) ==> ok
    {
      hide Distinct, Names, AtHome, Parked, Clear, Revived, Recovered;
      ok := parkingNs in k.namespaces;
      if !ok {
        return;
      }
      var p := new LinkNode(parkingName, parkingNs);
      NoNames();
      ok := RestoreWanted(k, p, node, faulty, wanted);
      if !ok {
        return;
      }
      RecoveredBy(old(k.links), k.links, parkingNs, node.ns, old(node.endpoints));
      CleanupParkingNetNS({}, wanted);
    }

    /** Stops the container after parking the interfaces, if the pre-stop hook of the node kind goes well; after
        a failure the node is up with all of them. A node that runs although its interfaces are parked keeps
        them parked if and only if what it tracks can be parked too; otherwise they are destroyed. */
    method Stop(hook: bool, faulty: bool, ghost wanted: set<string>) returns (ok: bool)
      requires Valid()
      modifies this`status, k, node`endpoints, node.endpoints`node
      ensures Valid() && Known(node.endpoints, old(node.endpoints))
      ensures skipsLifecycle ==> ok && Untouched() && node.endpoints == old(node.endpoints)
      ensures !skipsLifecycle && old(status) in {Stopped, Created, NotFound} ==> (
                && (ok <==> !old(status).NotFound?) && Untouched() && node.endpoints == old(node.endpoints))
      ensures !skipsLifecycle && ok && old(status) !in {Stopped, Created} ==> (
                && status == (if old(status) in {Running, Paused} then Stopped else old(status))
                && (old(status) in {Running, Paused} ==> node.ns !in k.namespaces)
                && parkingNs in k.namespaces && node.endpoints == [] && old(Parkable(k, node, parkingNs)))
      ensures !skipsLifecycle && !hook && old(status) !in {Stopped, Created} ==>
                !ok && Untouched() && node.endpoints == old(node.endpoints)
      ensures !ok ==> status == old(status)
      ensures !skipsLifecycle && old(UpWith(wanted)) ==> if ok then DownWith(wanted) else UpWith(wanted)
      ensures old(DownWith(wanted)) ==> ok && Untouched() && DownWith(wanted)
      ensures !skipsLifecycle && ok && old(UpWith(wanted)) ==> (
                && node.endpoints == []
                && Packed(old(k.links), k.links, old(ToCapture(k, node)), node.ns, parkingNs))
      ensures !skipsLifecycle && hook && !faulty && old(UpWith(wanted)) ==> (ok <==> old(Parkable(k, node, parkingNs)))
      ensures !skipsLifecycle && old(HalfWith(wanted)) ==>
                if ok then DownWith(wanted) else UpWith(wanted) || HalfWith(wanted) || Destroyed(wanted)
      ensures !skipsLifecycle && hook && !faulty && old(HalfWith(wanted)) ==> (
                && (ok <==> old(Parkable(k, node, parkingNs)))
                && (!ok ==> Destroyed(wanted)))
    {
      hide Distinct, Names, AtHome, Parked, Clear, Parkable, Vacant, Within, Carried, Packed;
      if skipsLifecycle {
        return true;
      }
      match status {
        case Stopped => return true;
        case Created => return true;
        case NotFound => return false;
        case _ =>
      }
      if !hook {
        return false;
      }
      ok := ParkEndpoints(faulty, wanted);
      if !ok {
        return;
      }
      ghost var parked := k.links;
      ok := LifecycleStopContainers(faulty);
      if !ok {
        var restored := RestoreEndpoints(false, wanted);
        var repointed := RepointSymlink(false);
        return;
      }
      NothingLeft(parked, node.ns);
      if Carried(old(k.links), parked, old(ToCapture(k, node)), node.ns, parkingNs)
        && Within(parked, parkingNs, old(ToCapture(k, node)))
      {
        PackedBy(old(k.links), parked, old(ToCapture(k, node)), node.ns, parkingNs);
      }
      if Parked(parked, node.ns, parkingNs, wanted) {
        OutsideKeepsParked(parked, node.ns, parkingNs, wanted);
      }
    }

    /** The wanted interfaces are in neither of the two namespaces any more. */
    ghost predicate Destroyed(wanted: set<string>)
      reads k
    {
      forall n :: n in wanted ==> Loc(node.ns, n) !in k.links && Loc(parkingNs, n) !in k.links
    }

    /** Starts the container and brings the parked interfaces back; after a failure a container that was
        started is stopped again, with everything parked. Only a container start that fails after the
        container has started leaves the node running with its interfaces parked. */
    method Start(faulty: bool, ghost wanted: set<string>) returns (ok: bool)
      requires Valid()
      modifies this`status, this`starts, k, node`endpoints, node.endpoints`node
      ensures Valid() && Known(node.endpoints, old(node.endpoints)) && Consumed()
      ensures skipsLifecycle ==> ok && Untouched() && node.endpoints == old(node.endpoints)
      ensures !skipsLifecycle && old(status.NotFound?) ==>
                !ok && Untouched() && node.endpoints == old(node.endpoints)
      ensures !skipsLifecycle && !old(status.NotFound?) && parkingNs !in old(k.namespaces) ==> (
                && (ok <==> old(status) in {Running, Paused} || NextStart(faulty, old(starts)).Starts?)
                && node.endpoints == old(node.endpoints)
                && if old(status) in {Running, Paused} || NextStart(faulty, old(starts)).FailsBefore?
                   then Untouched() else HasStarted())
      ensures !skipsLifecycle && ok ==> status in {Running, Paused} && parkingNs !in k.namespaces
      ensures !skipsLifecycle && old(DownWith(wanted)) ==>
                if NextStart(faulty, old(starts)).FailsAfter? then !ok && HalfWith(wanted)
                else UpWith(wanted) || (!ok && DownWith(wanted))
      ensures !skipsLifecycle && old(HalfWith(wanted)) ==> UpWith(wanted) || (!ok && HalfWith(wanted))
      ensures old(UpWith(wanted)) ==> ok && UpWith(wanted)
      ensures !skipsLifecycle && ok && old(DownWith(wanted)) ==> (
                && Unpacked(old(k.links), k.links, parkingNs, node.ns, old(Names(node.endpoints)))
                && Names(node.endpoints)
                   == old(Names(node.endpoints) + OwnedNames(k.links, parkingNs, Names(node.endpoints))))
      ensures !faulty && old(UpWith(wanted) || DownWith(wanted) || HalfWith(wanted)) ==> ok
    {
      hide Distinct, Names, AtHome, Parked, Clear, Vacant, Recovered, Unpacked;
      if skipsLifecycle {
        return true;
      }
      var hasParkingState := parkingNs in k.namespaces;
      if status.NotFound? {
        return false;
      }
      ghost var before := k.links;
      var started;
      started, ok := LifecycleStartContainers(faulty);
      if old(DownWith(wanted)) && Booted(before, k.links, node.ns) {
        StartedHalfway(before, k.links, node.ns, parkingNs, wanted);
        BootedListing(before, k.links, node.ns, parkingNs, Names(node.endpoints));
      }
      ghost var booted := k.links;
      if !ok {
        return;
      }
      if !started && !hasParkingState {
        return;
      }
      if hasParkingState {
        ok := RestoreEndpoints(faulty, wanted);
        if !ok {
          if started {
            NothingLeft(k.links, node.ns);
            if Parked(k.links, node.ns, parkingNs, wanted) {
              OutsideKeepsParked(k.links, node.ns, parkingNs, wanted);
            }
            var stopped := LifecycleStopContainers(false);
          }
          var repointed := RepointSymlink(false);
          return;
        }
        if old(DownWith(wanted)) {
          UnpackedBy(before, booted, k.links, parkingNs, node.ns, old(Names(node.endpoints)));
        }
        ok := RepointSymlink(faulty);
      }
    }

    /** A new process tracks the endpoints that the topology defines, wherever their interfaces are. */
    method Reload(ghost wanted: set<string>)
      requires Valid() && forall i, j :: 0 <= i < j < |topology| ==> topology[i].ifaceName != topology[j].ifaceName
      modifies node`endpoints
      ensures Valid() && fresh(node.endpoints)
      ensures Names(node.endpoints) == TopologyNames()
      ensures old(UpWith(wanted)) ==> UpWith(wanted)
      ensures old(DownWith(wanted)) ==> DownWith(wanted)
      ensures old(HalfWith(wanted)) ==> HalfWith(wanted)
    {
      ghost var tracked := Tracked();
      node.endpoints := [];
      for i := 0 to |topology|
        invariant |node.endpoints| == i && fresh(node.endpoints)
        invariant forall j :: 0 <= j < i ==> node.endpoints[j].ifaceName == topology[j].ifaceName
        invariant forall j :: 0 <= j < i ==> node.endpoints[j].node == node
      {
        var e := new Endpoint(topology[i].ifaceName, false, topology[i].vethLink, node);
        node.endpoints := node.endpoints + [e];
      }
      if AtHome(k.links, node.ns, parkingNs, tracked, wanted) {
        StillTracked(k.links, node.ns, parkingNs, tracked, Tracked(), wanted);
      }
    }
  }

  lemma VacantIsClear(links: Links, parking: string, home: string)
    ensures Vacant(links, parking) ==> Clear(links, parking, home)
  {
  }

  /** Without the parking namespace, the wanted interfaces that are at home stay there. */
  lemma GoneIsHarmless(links: Links, home: string, parking: string, tracked: set<string>, wanted: set<string>)
    requires home != parking
    ensures AtHome(links, home, parking, tracked, wanted) ==>
              AtHome(Outside(links, parking), home, parking, tracked, wanted)
    ensures Vacant(Outside(links, parking), parking)
    ensures forall n :: Loc(home, n) in Outside(links, parking) <==> Loc(home, n) in links
  {
    if AtHome(links, home, parking, tracked, wanted) {
      OutsideKeepsHome(links, home, parking, tracked, wanted);
    }
  }

  /** What was parked was not at home, and is not after the parking namespace has gone. */
  lemma NeverHome(a: Links, b: Links, home: string, parking: string, wanted: set<string>)
    ensures Parked(a, home, parking, wanted) && Clear(a, parking, home) && Vacant(b, parking)
              && (forall n :: Loc(home, n) in b <==> Loc(home, n) in a) ==>
              forall n :: n in wanted ==> Loc(home, n) !in b && Loc(parking, n) !in b
  {
    forall n | n in wanted && Parked(a, home, parking, wanted) && Clear(a, parking, home)
      ensures Loc(home, n) !in a
    {
      assert Stored(a, home, parking, n);
    }
  }
}
