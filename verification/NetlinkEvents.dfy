/** The watcher of a container's interfaces: the map of states it keeps and the events it emits. */
module NetlinkEvents {

  /** The number of an interface. */
  datatype Index = Index(value: int)

  datatype Netem = NoNetem | Netem(delay: string, jitter: string, packetLoss: real, rate: int, corruption: real)

  datatype Stats = NoStats | Stats(rxBytes: nat, txBytes: nat, rxPackets: nat, txPackets: nat)

  /** What is known of an interface; the counters are not compared. */
  datatype Snapshot = Snapshot(index: Index, name: string, alias: string, mtu: int, mac: string, operState: string,
                               kind: string, stats: Stats, netem: Netem)
  {
    predicate Equal(other: Snapshot) {
      && index == other.index && name == other.name && alias == other.alias && mtu == other.mtu
      && mac == other.mac && operState == other.operState && kind == other.kind && netem == other.netem
    }
  }

  datatype Link = Link(index: Index, name: string, alias: string, mtu: int, mac: string, operState: string,
                       kind: string, stats: Stats)

  function SnapshotFromLink(link: Link): Snapshot {
    Snapshot(link.index, link.name, link.alias, link.mtu, link.mac, link.operState, link.kind, link.stats, NoNetem)
  }

  /** Two snapshots count as the same exactly when they differ in nothing but the counters. */
  lemma EqualIsAllButStats(a: Snapshot, b: Snapshot)
    ensures a.Equal(b) <==> a == b.(stats := a.stats)
  {
  }

  datatype Update = NewLink(link: Link) | DelLink(link: Link) | Other(link: Link) | NilLink

  type States = map<Index, Snapshot>

  datatype Event =
    | Initial(snapshot: Snapshot)
    | Create(snapshot: Snapshot)
    | Updated(snapshot: Snapshot)
    | Delete(snapshot: Snapshot)

  /** How a reader of the events keeps track: put what is reported, remove what is deleted. */
  function Told(states: States, e: Event): States {
    match e
    case Delete(snapshot) => states - {snapshot.index}
    case _ => states[e.snapshot.index := e.snapshot]
  }

  function Replay(states: States, events: seq<Event>): States {
    if events == [] then states else Told(Replay(states, events[..|events| - 1]), events[|events| - 1])
  }

  /** A creation is of an interface that was absent; an update changes one that was present. */
  predicate Truthful(states: States, e: Event) {
    match e
    case Initial(_) => true
    case Create(snapshot) => snapshot.index !in states
    case Updated(snapshot) => snapshot.index in states && !snapshot.Equal(states[snapshot.index])
    case Delete(_) => true
  }

  predicate AllTruthful(states: States, events: seq<Event>) {
    events == [] || (
      && AllTruthful(states, events[..|events| - 1])
      && Truthful(Replay(states, events[..|events| - 1]), events[|events| - 1]))
  }

  lemma ReplayMore(states: States, events: seq<Event>, e: Event)
    ensures Replay(states, events + [e]) == Told(Replay(states, events), e)
    ensures AllTruthful(states, events + [e]) <==> AllTruthful(states, events) && Truthful(Replay(states, events), e)
  {
    assert (events + [e])[..|events|] == events;
  }

  ghost predicate Keyed(states: States) {
    forall i :: i in states ==> states[i].index == i
  }

  /** The events tell the states, truthfully, to a reader who starts from nothing. */
  ghost predicate Faithful(states: States, events: seq<Event>) {
    Keyed(states) && Replay(map[], events) == states && AllTruthful(map[], events)
  }

  function WithNetem(snapshot: Snapshot, infos: map<Index, Netem>): Snapshot {
    if snapshot.index in infos then snapshot.(netem := infos[snapshot.index]) else snapshot
  }

  /** The poll: what is impaired now, and no longer what was. */
  function Polled(snapshot: Snapshot, infos: map<Index, Netem>): Snapshot {
    snapshot.(netem := if snapshot.index in infos then infos[snapshot.index] else NoNetem)
  }

  /** The states but for those still left to visit. */
  ghost function Visited(states: States, left: set<Index>): States {
    map i | i in states && i !in left :: states[i]
  }

  lemma VisitOne(states: States, left: set<Index>, i: Index)
    requires i in left && i in states && Keyed(states)
    ensures Visited(states, left - {i}) == Told(Visited(states, left), Initial(states[i]))
  {
  }

  lemma ReplayNothing(states: States)
    ensures Replay(map[], []) == Visited(states, states.Keys) && AllTruthful(map[], [])
  {
  }

  lemma VisitedAll(states: States)
    ensures Visited(states, {}) == states
  {
  }

  /** The state map after the update, read off the update. */
  function AfterUpdate(states: States, update: Update, infos: map<Index, Netem>): States {
    match update
    case NewLink(link) =>
      var snapshot := WithNetem(SnapshotFromLink(link), infos);
      if link.index in states && snapshot.Equal(states[link.index]) then states else states[link.index := snapshot]
    case DelLink(link) => states - {link.index}
    case Other(_) => states
    case NilLink => states
  }

  class Watcher {
    var states: States
    var events: seq<Event>

    /** Starts from the interfaces that are there, impairments included, and reports each. */
    constructor (initial: States, infos: map<Index, Netem>)
      requires Keyed(initial)
      ensures Faithful(states, events) && states.Keys == initial.Keys
      ensures forall i :: i in states ==> states[i] == WithNetem(initial[i], infos)
    {
      this.states := map i | i in initial :: WithNetem(initial[i], infos);
      this.events := [];
      new;
      hide Replay, AllTruthful, Visited;
      ReplayNothing(states);
      var left := states.Keys;
      while left != {}
        invariant left <= states.Keys && Keyed(states)
        invariant states == map i | i in initial :: WithNetem(initial[i], infos)
        invariant Replay(map[], events) == Visited(states, left)
        invariant AllTruthful(map[], events)
      {
        var i :| i in left;
        VisitOne(states, left, i);
        left := left - {i};
        ReplayMore(map[], events, Initial(states[i]));
        events := events + [Initial(states[i])];
      }
      VisitedAll(states);
    }

    method Emit(e: Event)
      modifies this`events
      ensures events == old(events) + [e]
      ensures Replay(map[], events) == Told(Replay(map[], old(events)), e)
      ensures AllTruthful(map[], events) <==>
                AllTruthful(map[], old(events)) && Truthful(Replay(map[], old(events)), e)
    {
      ReplayMore(map[], events, e);
      events := events + [e];
    }

    method ProcessUpdate(update: Update, infos: map<Index, Netem>)
      requires Faithful(states, events)
      modifies this
      ensures Faithful(states, events)
      ensures states == AfterUpdate(old(states), update, infos)
      ensures update.NewLink? ==> update.link.index in states
                                  && WithNetem(SnapshotFromLink(update.link), infos).Equal(states[update.link.index])
      ensures update.NewLink? ==> (
                var s := states[update.link.index];
                && s.name == update.link.name && s.alias == update.link.alias && s.mtu == update.link.mtu
                && s.mac == update.link.mac && s.operState == update.link.operState && s.kind == update.link.kind
                && s.netem == if update.link.index in infos then infos[update.link.index] else NoNetem)
      ensures update.DelLink? ==> update.link.index !in states
      ensures forall i :: i in old(states) && (update.NilLink? || update.Other? || i != update.link.index) ==>
                i in states && states[i] == old(states)[i]
      ensures old(events) <= events
      ensures update.DelLink? ==> |events| == |old(events)| + 1 && events[|old(events)|].Delete?
      ensures update.NewLink? && update.link.index !in old(states) ==>
                |events| == |old(events)| + 1 && events[|old(events)|].Create?
    {
      if update.NilLink? {
        return;
      }
      var snapshot := SnapshotFromLink(update.link);
      var known := snapshot.index in states;
      match update {
        case DelLink(_) =>
          if known {
            snapshot := states[snapshot.index];
          }
          states := states - {snapshot.index};
          Emit(Delete(snapshot));
        case NewLink(_) =>
          snapshot := WithNetem(snapshot, infos);
          if known && snapshot.Equal(states[snapshot.index]) {
            return;
          }
          states := states[snapshot.index := snapshot];
          Emit(if known then Updated(snapshot) else Create(snapshot));
        case _ =>
      }
    }

    /** Visits the interfaces in any order and reports those whose impairments changed. */
    method PollNetemChanges(infos: map<Index, Netem>)
      requires Faithful(states, events)
      modifies this
      ensures Faithful(states, events) && states.Keys == old(states).Keys
      ensures forall i :: i in states ==>
                states[i] == old(states)[i].(netem := if i in infos then infos[i] else NoNetem)
      ensures old(events) <= events
    {
      hide Replay, AllTruthful;
      var left := states.Keys;
      while left != {}
        invariant Faithful(states, events) && states.Keys == old(states).Keys && left <= states.Keys
        invariant forall i :: i in states ==>
                    states[i] == if i in left then old(states)[i] else Polled(old(states)[i], infos)
        invariant old(events) <= events
      {
        var i :| i in left;
        left := left - {i};
        var snapshot := Polled(states[i], infos);
        if !snapshot.Equal(states[i]) {
          states := states[i := snapshot];
          Emit(Updated(snapshot));
        }
      }
    }
  }

  datatype Tick = Receive(update: Update, infos: map<Index, Netem>) | Poll(infos: map<Index, Netem>)

  /** Over every sequence of updates and polls, a reader of the events knows exactly the states; every
      creation reported is of an absent interface and every update is a real change. */
  method Run(initial: States, infos: map<Index, Netem>, ticks: seq<Tick>) returns (w: Watcher)
    requires Keyed(initial)
    ensures Replay(map[], w.events) == w.states && AllTruthful(map[], w.events)
  {
    w := new Watcher(initial, infos);
    for i := 0 to |ticks|
      invariant Faithful(w.states, w.events)
    {
      match ticks[i] {
        case Receive(update, now) => w.ProcessUpdate(update, now);
        case Poll(now) => w.PollNetemChanges(now);
      }
    }
  }

  /** Every single event is truthful at the moment it is emitted. */
  lemma {:induction false} TruthfulSplit(states: States, events: seq<Event>, i: nat)
    requires i < |events| && AllTruthful(states, events)
    ensures Truthful(Replay(states, events[..i]), events[i])
  {
    if i < |events| - 1 {
      assert events[..|events| - 1][..i] == events[..i];
      TruthfulSplit(states, events[..|events| - 1], i);
    }
  }
}
