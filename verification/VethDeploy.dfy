/** Deploying a veth link end by end, each by the node that owns it, with a bounded retry. */
module VethDeploy {

  datatype DeploymentState = NotDeployed | HalfDeployed | FullDeployed | Removed

  /** Where an end of a veth pair is: in the root namespace under its temporary name, moved to its node
      but not set up there, or set up at its node under its own name. */
  datatype Place = Root | Moved | Placed

  datatype Pair = Pair(first: Place, second: Place) {
    function At(idx: nat): Place {
      if idx == 0 then first else second
    }

    function With(idx: nat, place: Place): Pair {
      if idx == 0 then Pair(place, second) else Pair(first, place)
    }

    /** One of the two temporary names is taken. */
    predicate Blocking() {
      first.Root? || second.Root?
    }
  }

  datatype Error = Transient | Permanent

  datatype Outcome = Success | Failure(error: Error)

  class Endpoint {
    const nodeless: bool

    constructor (nodeless: bool)
      ensures this.nodeless == nodeless
    {
      this.nodeless := nodeless;
    }
  }

  /** The next outcome of a script; after its end everything goes well. */
  function Next(script: seq<Outcome>): Outcome {
    if script == [] then Success else script[0]
  }

  function Rest(script: seq<Outcome>): seq<Outcome> {
    if script == [] then [] else script[1..]
  }

  /** The three operations for one end: creating or finding it, preparing it, placing it. */
  predicate GoesWell(script: seq<Outcome>) {
    Next(script).Success? && Next(Rest(script)).Success? && Next(Rest(Rest(script))).Success?
  }

  function OtherEnd(script: seq<Outcome>): seq<Outcome> {
    Rest(Rest(Rest(script)))
  }

  /** The first end goes well and the other does not. */
  predicate FailsLate(script: seq<Outcome>) {
    GoesWell(script) && !GoesWell(OtherEnd(script))
  }

  lemma NoFaults()
    ensures GoesWell([]) && OtherEnd([]) == []
  {
  }

  /** One of the three operations for the first end is the first not to go well, and it fails transiently. */
  predicate FailsTransiently(script: seq<Outcome>) {
    || Next(script) == Failure(Transient)
    || (Next(script).Success? && Next(Rest(script)) == Failure(Transient))
    || (Next(script).Success? && Next(Rest(script)).Success? && Next(Rest(Rest(script))) == Failure(Transient))
  }

  /** What is left of the script after the operation that failed. */
  function AfterFailure(script: seq<Outcome>): seq<Outcome> {
    if !Next(script).Success? then Rest(script)
    else if !Next(Rest(script)).Success? then Rest(Rest(script)) else OtherEnd(script)
  }

  /** How many attempts fail transiently before one does not. */
  function Failures(script: seq<Outcome>): nat
    decreases |script|
  {
    if FailsTransiently(script) then 1 + Failures(AfterFailure(script)) else 0
  }

  /** What that one finds of the script. */
  function AfterFailures(script: seq<Outcome>): seq<Outcome>
    decreases |script|
  {
    if FailsTransiently(script) then AfterFailures(AfterFailure(script)) else script
  }

  lemma NotBoth(script: seq<Outcome>)
    ensures FailsTransiently(script) ==> !GoesWell(script)
  {
  }

  lemma OneFailure(script: seq<Outcome>)
    ensures FailsTransiently(script) ==> (
              && Failures(script) == 1 + Failures(AfterFailure(script))
              && AfterFailures(script) == AfterFailures(AfterFailure(script)))
    ensures Failures(script) > 0 ==> FailsTransiently(script)
    ensures Failures(script) == 0 ==> AfterFailures(script) == script
  {
  }

  /** For instance when m operations in a row fail transiently. */
  lemma {:induction false} OnlyFailures(m: nat)
    ensures Failures(seq(m, _ => Failure(Transient))) == m && AfterFailures(seq(m, _ => Failure(Transient))) == []
  {
    if m > 0 {
      OnlyFailures(m - 1);
      assert seq(m, _ => Failure(Transient))[1..] == seq(m - 1, _ => Failure(Transient));
    }
  }

  /** The veth pairs made for one link, and how the next operations come out that can fail without a
      reason. */
  class Kernel {
    var pairs: seq<Pair>
    var script: seq<Outcome>
    const cleanupWorks: bool
    const removalWorks: bool

    constructor (script: seq<Outcome>, cleanupWorks: bool, removalWorks: bool)
      ensures pairs == [] && this.script == script
      ensures this.cleanupWorks == cleanupWorks && this.removalWorks == removalWorks
    {
      this.pairs, this.script, this.cleanupWorks, this.removalWorks := [], script, cleanupWorks, removalWorks;
    }

    method Oracle() returns (outcome: Outcome)
      modifies this`script
      ensures outcome == Next(old(script)) && script == Rest(old(script))
    {
      outcome := Next(script);
      script := Rest(script);
    }

    /** A temporary name that is in use already is a permanent error. */
    method LinkAdd() returns (outcome: Outcome)
      requires |pairs| <= 1
      modifies this
      ensures pairs == if outcome.Success? then old(pairs) + [Pair(Root, Root)] else old(pairs)
      ensures old(pairs) != [] && old(pairs)[0].Blocking() ==> outcome == Failure(Permanent) && script == old(script)
      ensures old(pairs) == [] ==> outcome == Next(old(script))
      ensures script == old(script) || script == Rest(old(script))
      ensures old(pairs) == [] ==> script == Rest(old(script))
      ensures old(script) == [] ==> outcome != Failure(Transient)
    {
      if |pairs| == 1 && pairs[0].Blocking() {
        return Failure(Permanent);
      }
      outcome := Oracle();
      if outcome.Success? {
        pairs := pairs + [Pair(Root, Root)];
      }
    }

    /** Only an end that is still in the root namespace has its temporary name. */
    method LinkByName(idx: nat) returns (outcome: Outcome)
      requires |pairs| <= 1
      modifies this`script
      ensures |pairs| == 0 || !pairs[0].At(idx).Root? ==> outcome == Failure(Permanent) && script == old(script)
      ensures |pairs| == 1 && pairs[0].At(idx).Root? ==>
                outcome == Next(old(script)) && script == Rest(old(script))
    {
      if |pairs| == 0 || !pairs[0].At(idx).Root? {
        return Failure(Permanent);
      }
      outcome := Oracle();
    }

    /** Moves the end to its node and sets it up there; it may fail before or after the move. */
    method AddLinkToContainer(idx: nat) returns (outcome: Outcome)
      requires |pairs| == 1 && pairs[0].At(idx).Root?
      modifies this
      ensures |pairs| == 1
      ensures outcome.Success? ==> pairs[0] == old(pairs[0]).With(idx, Placed)
      ensures outcome.Failure? ==> pairs[0] == old(pairs[0]) || pairs[0] == old(pairs[0]).With(idx, Moved)
      ensures outcome == Next(old(script)) && script == Rest(old(script))
    {
      var moved: bool := *;
      outcome := Oracle();
      if outcome.Success? {
        pairs := [pairs[0].With(idx, Placed)];
      } else if moved {
        pairs := [pairs[0].With(idx, Moved)];
      }
    }

    /** Deletes the pair by the end that its node has under its own name, if it has. */
    method DeleteEnd(idx: nat)
      requires |pairs| <= 1
      modifies this`pairs
      ensures pairs == [] || pairs == old(pairs)
      ensures removalWorks && |old(pairs)| == 1 && old(pairs[0].At(idx).Placed?) ==> pairs == []
    {
      var fails: bool := *;
      if |pairs| == 1 && pairs[0].At(idx).Placed? && (removalWorks || !fails) {
        pairs := [];
      }
    }

    method LinkDel()
      requires |pairs| == 1
      modifies this`pairs
      ensures pairs == if cleanupWorks then [] else old(pairs)
    {
      if cleanupWorks {
        pairs := [];
      }
    }
  }

  const LINK_DEPLOY_RETRIES := 3

  class LinkVEth {
    const k: Kernel
    const endpoints: seq<Endpoint>
    var state: DeploymentState

    constructor (k: Kernel, a: Endpoint, b: Endpoint)
      requires k.pairs == [] && a != b
      ensures this.k == k && endpoints == [a, b] && state == NotDeployed
      ensures Valid()
    {
      this.k, this.endpoints, this.state := k, [a, b], NotDeployed;
    }

    /** At most one pair exists. Not deployed: none, or what a failed cleanup left behind. Half deployed:
        exactly one end is placed. Fully deployed: both are. */
    ghost predicate Valid()
      reads this, k
    {
      && |endpoints| == 2 && endpoints[0] != endpoints[1] && |k.pairs| <= 1
      && match state
         case NotDeployed => k.pairs == [] || (!k.cleanupWorks && Leftover(k.pairs[0]))
         case Removed => k.pairs == [] || (!k.cleanupWorks && Leftover(k.pairs[0]))
         case HalfDeployed => |k.pairs| == 1 && (k.pairs[0].first.Placed? <==> !k.pairs[0].second.Placed?)
         case FullDeployed => k.pairs == [Pair(Placed, Placed)]
    }

    predicate Leftover(p: Pair) {
      p.Blocking() && !p.first.Placed? && !p.second.Placed?
    }

    /** At most two attempts fail transiently and the next goes well, for the other end too when it belongs
        to no node and is deployed by the same call. */
    predicate Recovers(script: seq<Outcome>, idx: nat)
      requires |endpoints| == 2 && idx < 2
    {
      && Failures(script) < 3 && GoesWell(AfterFailures(script))
      && (endpoints[1 - idx].nodeless ==> GoesWell(OtherEnd(AfterFailures(script))))
    }

    /** Half deployed by the end idx, whose peer belongs to no node. */
    ghost predicate HalfWith(idx: nat)
      requires |endpoints| == 2 && idx < 2
      reads this, k
    {
      && state.HalfDeployed? && endpoints[1 - idx].nodeless
      && |k.pairs| == 1 && k.pairs[0].At(idx).Placed?
    }

    /** A failed cleanup left a pair that takes the temporary names. */
    ghost predicate LeftBehind()
      reads this, k
    {
      (state.NotDeployed? || state.Removed?) && k.pairs != []
    }

    method DeployAEnd(idx: nat) returns (outcome: Outcome)
      requires Valid() && idx < 2 && (state.NotDeployed? || state.Removed?)
      modifies this`state, k
      ensures Valid()
      ensures outcome.Success? ==> old(k.pairs) == [] && |k.pairs| == 1 && k.pairs[0].At(idx).Placed?
      ensures outcome.Success? ==> state == if endpoints[1 - idx].nodeless then FullDeployed else HalfDeployed
      ensures outcome.Success? && state.HalfDeployed? ==> k.pairs[0].At(1 - idx).Root?
      ensures outcome.Failure? ==> state == old(state) || HalfWith(idx)
      ensures old(k.pairs) == [] ==> (
                && (HalfWith(idx) && outcome.Failure? <==> endpoints[1 - idx].nodeless && FailsLate(old(k.script)))
                && (outcome.Success? <==> GoesWell(old(k.script))
                                          && (endpoints[1 - idx].nodeless ==> GoesWell(OtherEnd(old(k.script))))))
      ensures old(LeftBehind()) ==> outcome == Failure(Permanent) && state == old(state) && k.pairs == old(k.pairs)
      ensures old(k.pairs) == [] && k.cleanupWorks && FailsTransiently(old(k.script)) ==> (
                && outcome == Failure(Transient) && state == old(state) && k.pairs == []
                && k.script == AfterFailure(old(k.script)))
      ensures old(k.script) == [] ==> k.script == [] && outcome != Failure(Transient)
    {
      var peerIdx := (idx + 1) % 2;
      outcome := k.LinkAdd();
      if outcome.Failure? {
        return;
      }
      outcome := k.Oracle();
      if outcome.Failure? {
        k.LinkDel();
        return;
      }
      outcome := k.AddLinkToContainer(idx);
      if outcome.Failure? {
        k.LinkDel();
        return;
      }
      state := HalfDeployed;
      if endpoints[peerIdx].nodeless {
        outcome := DeployBEnd(peerIdx);
      }
    }

    method DeployBEnd(idx: nat) returns (outcome: Outcome)
      requires Valid() && idx < 2 && state.HalfDeployed?
      modifies this`state, k
      ensures Valid()
      ensures outcome.Success? ==> state.FullDeployed?
      ensures outcome.Failure? ==> state.HalfDeployed? && k.pairs[0].At(1 - idx) == old(k.pairs[0].At(1 - idx))
      ensures !old(k.pairs[0].At(idx).Root?) ==> outcome == Failure(Permanent) && k.pairs == old(k.pairs)
      ensures old(k.pairs[0].At(idx).Root?) ==> (outcome.Success? <==> GoesWell(old(k.script)))
      ensures old(k.script) == [] ==> k.script == [] && outcome != Failure(Transient)
    {
      outcome := k.LinkByName(idx);
      if outcome.Failure? {
        return;
      }
      outcome := k.Oracle();
      if outcome.Failure? {
        return;
      }
      outcome := k.AddLinkToContainer(idx);
      if outcome.Failure? {
        return;
      }
      state := FullDeployed;
    }

    method GetEndpointIndex(ep: Endpoint) returns (idx: int)
      requires |endpoints| == 2
      ensures idx == -1 <==> ep !in endpoints
      ensures idx != -1 ==> 0 <= idx < 2 && endpoints[idx] == ep
    {
      for i := 0 to |endpoints|
        invariant ep !in endpoints[..i]
      {
        if endpoints[i] == ep {
          return i;
        }
      }
      idx := -1;
    }

    /** Half deployed, with the end idx no longer under its temporary name. */
    ghost predicate HalfAway(idx: nat)
      reads this, k
    {
      state.HalfDeployed? && |k.pairs| == 1 && !k.pairs[0].At(idx).Root?
    }

    /** Half deployed, with the end idx still to be placed. */
    ghost predicate HalfWaiting(idx: nat)
      reads this, k
    {
      state.HalfDeployed? && |k.pairs| == 1 && k.pairs[0].At(idx).Root?
    }

    /** What a call by the end idx leaves behind. */
    twostate predicate LeavesBehind(idx: nat, outcome: Outcome, attempts: nat)
      requires |endpoints| == 2 && idx < 2 && old(Valid()) && Valid()
      reads this, k
    {
      && (old(state.FullDeployed?) ==>
            outcome.Success? && attempts == 0 && state.FullDeployed? && k.pairs == old(k.pairs))
      && (outcome.Success? ==> (state.HalfDeployed? || state.FullDeployed?) && k.pairs[0].At(idx).Placed?)
      && (outcome.Success? && old(state.HalfDeployed?) ==> state.FullDeployed?)
      && (old(HalfAway(idx) || LeftBehind()) ==>
            && outcome == Failure(Permanent) && attempts == 1
            && state == old(state) && k.pairs == old(k.pairs))
      && (old(state.NotDeployed? || state.Removed?) ==>
            if outcome.Failure? then state == old(state) || HalfWith(idx)
            else if endpoints[1 - idx].nodeless then state.FullDeployed? else HalfWaiting(1 - idx))
      && (old(k.script) == [] ==>
            k.script == [] && (old(k.pairs == [] || HalfWaiting(idx)) ==> outcome.Success? && attempts == 1))
    }

    /** How often it tries, and what comes of it, on a link without a pair and with a cleanup that works. */
    twostate predicate Tries(idx: nat, cancelledAt: nat, outcome: Outcome, attempts: nat)
      requires |endpoints| == 2 && idx < 2
      reads this, k
    {
      && attempts <= 3 && (outcome == Failure(Transient) ==> attempts == 3 && attempts < cancelledAt)
      && (old(k.pairs) == [] && FailsLate(old(k.script)) && endpoints[1 - idx].nodeless ==>
            outcome.Failure? && HalfWith(idx))
      && (old(k.pairs) == [] && k.cleanupWorks ==>
            && (Recovers(old(k.script), idx) && Failures(old(k.script)) < cancelledAt ==>
                  outcome.Success? && attempts == Failures(old(k.script)) + 1)
            && (Failures(old(k.script)) >= 3 ==>
                  if cancelledAt > 3 then outcome == Failure(Transient)
                  else outcome == Failure(Permanent) && attempts == if cancelledAt == 0 then 1 else cancelledAt))
    }

    /** One call by one endpoint: the first deploys its end as the A end, the second the other end. */
    method Deploy(ep: Endpoint, cancelledAt: nat) returns (outcome: Outcome, attempts: nat)
      requires Valid()
      modifies this`state, k
      ensures Valid()
      ensures ep !in endpoints ==>
                outcome.Failure? && attempts == 0 && state == old(state) && k.pairs == old(k.pairs)
      ensures forall i :: 0 <= i < 2 && endpoints[i] == ep ==>
                LeavesBehind(i, outcome, attempts) && Tries(i, cancelledAt, outcome, attempts)
    {
      var idx := GetEndpointIndex(ep);
      if idx == -1 {
        return Failure(Permanent), 0;
      }
      outcome, attempts := DeployEnd(idx, cancelledAt);
    }

    /** Transient failures are retried twice, unless the wait after attempt number cancelledAt, or one after
        it, is interrupted. */
    method DeployEnd(idx: nat, cancelledAt: nat) returns (outcome: Outcome, attempts: nat)
      requires Valid() && idx < 2
      modifies this`state, k
      ensures Valid() && LeavesBehind(idx, outcome, attempts) && Tries(idx, cancelledAt, outcome, attempts)
    {
      hide GoesWell, OtherEnd, FailsLate, FailsTransiently, AfterFailure, Failures, AfterFailures;
      NoFaults();
      attempts := 0;
      outcome := Failure(Transient);
      while attempts < LINK_DEPLOY_RETRIES
        invariant Valid() && attempts <= LINK_DEPLOY_RETRIES && outcome == Failure(Transient)
        invariant attempts == 0 ==> state == old(state) && k.pairs == old(k.pairs) && k.script == old(k.script)
        invariant old(k.script == [] || LeftBehind() || state.FullDeployed?) ==> attempts == 0
        invariant attempts > 0 && old(k.pairs) == [] && endpoints[1 - idx].nodeless && FailsLate(old(k.script)) ==>
                    HalfWith(idx)
        invariant attempts > 0 ==> attempts < cancelledAt
        invariant old(k.pairs) == [] && k.cleanupWorks && attempts <= Failures(old(k.script)) ==> (
                    && Failures(k.script) == Failures(old(k.script)) - attempts
                    && AfterFailures(k.script) == AfterFailures(old(k.script))
                    && state == old(state) && k.pairs == [])
        invariant old(k.pairs) == [] && k.cleanupWorks && Recovers(old(k.script), idx) ==>
                    attempts <= Failures(old(k.script))
        invariant old(state.NotDeployed? || state.Removed?) ==> state == old(state) || HalfWith(idx)
        invariant old(state.HalfDeployed?) ==> state.HalfDeployed?
        invariant attempts > 0 && old(state.HalfDeployed?) ==> old(k.pairs[0].At(idx).Root?)
      {
        ghost var script := k.script;
        match state {
          case FullDeployed => return Success, attempts;
          case HalfDeployed => outcome := DeployBEnd(idx);
          case _ => outcome := DeployAEnd(idx);
        }
        NotBoth(script);
        OneFailure(script);
        attempts := attempts + 1;
        if outcome.Success? || outcome.error.Permanent? {
          return;
        }
        if attempts >= cancelledAt {
          return Failure(Permanent), attempts;
        }
      }
    }

    /** Errors of the two removals are ignored. */
    method Remove()
      requires Valid()
      modifies this`state, k
      ensures state.Removed? && (k.pairs == [] || k.pairs == old(k.pairs))
      ensures old(state.Removed?) ==> k.pairs == old(k.pairs)
      ensures k.removalWorks && old(state.HalfDeployed? || state.FullDeployed?) ==> k.pairs == []
      ensures k.removalWorks || k.pairs == [] ==> Valid()
    {
      if state.Removed? {
        return;
      }
      for i := 0 to |endpoints|
        invariant k.pairs == [] || k.pairs == old(k.pairs)
        invariant k.removalWorks && |old(k.pairs)| == 1 ==>
                    k.pairs == [] || forall j :: 0 <= j < i ==> !k.pairs[0].At(j).Placed?
      {
        k.DeleteEnd(i);
      }
      assert k.removalWorks && k.pairs != [] ==> !k.pairs[0].At(0).Placed? && !k.pairs[0].At(1).Placed?;
      state := Removed;
    }
  }

  datatype Call = DeployCall(idx: nat, cancelledAt: nat) | RemoveCall

  /** However the two endpoints' calls come, at most one pair exists, half deployed means exactly one end
      placed and fully deployed means both. */
  method Run(l: LinkVEth, calls: seq<Call>)
    requires l.Valid() && l.k.removalWorks
    requires forall i :: 0 <= i < |calls| && calls[i].DeployCall? ==> calls[i].idx < 2
    modifies l`state, l.k
    ensures l.Valid()
  {
    for i := 0 to |calls|
      invariant l.Valid()
    {
      match calls[i] {
        case DeployCall(idx, at) => var outcome, attempts := l.Deploy(l.endpoints[idx], at);
        case RemoveCall => l.Remove();
      }
    }
  }

  /** Without faults, one attempt by each endpoint deploys the link; a single call does when the other end
      belongs to no node. */
  method DeployBoth(l: LinkVEth, first: nat, cancelledAt: nat) returns (attempts: nat)
    requires l.Valid() && l.state.NotDeployed? && l.k.pairs == [] && l.k.script == [] && first < 2
    modifies l`state, l.k
    ensures l.state.FullDeployed? && l.k.pairs == [Pair(Placed, Placed)]
    ensures attempts == if l.endpoints[1 - first].nodeless then 1 else 2
  {
    var outcome;
    outcome, attempts := l.Deploy(l.endpoints[first], cancelledAt);
    if !l.endpoints[1 - first].nodeless {
      var more;
      outcome, more := l.Deploy(l.endpoints[1 - first], cancelledAt);
      attempts := attempts + more;
    }
  }

  /** When the first end of a link goes well and the other, which belongs to no node, does not, no number
      of further calls by the first end helps: each looks for its own end, which is no longer there. */
  method NodelessEndStaysOut(l: LinkVEth, idx: nat, calls: nat, cancelledAt: nat) returns (succeeded: bool)
    requires l.Valid() && idx < 2 && l.state.NotDeployed? && l.k.pairs == []
    requires l.endpoints[1 - idx].nodeless && FailsLate(l.k.script)
    modifies l`state, l.k
    ensures !succeeded && l.HalfWith(idx)
  {
    var outcome, attempts := l.Deploy(l.endpoints[idx], cancelledAt);
    succeeded := false;
    for i := 0 to calls
      invariant l.Valid() && l.HalfWith(idx) && !succeeded
    {
      outcome, attempts := l.Deploy(l.endpoints[idx], cancelledAt);
      succeeded := succeeded || outcome.Success?;
    }
  }

  /** A call without faults succeeds if and only if the link is not half deployed with the caller's end gone
      from its temporary name, and no failed cleanup has left a pair behind. */
  method DeploySucceedsIff(l: LinkVEth, idx: nat, cancelledAt: nat) returns (outcome: Outcome)
    requires l.Valid() && idx < 2 && l.k.script == []
    modifies l`state, l.k
    ensures l.Valid()
    ensures outcome.Success? <==> !old(l.HalfAway(idx) || l.LeftBehind())
    ensures outcome.Failure? ==> outcome == Failure(Permanent) && l.state == old(l.state) && l.k.pairs == old(l.k.pairs)
  {
    var attempts;
    outcome, attempts := l.Deploy(l.endpoints[idx], cancelledAt);
  }
}
