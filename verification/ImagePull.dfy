/** Pulling the images of all nodes concurrently, each image once: the goroutines, the map of ongoing
    pulls, the result channel and the collector as a transition system. */
module ImagePull {
  import opened Wrappers

  /** An image of a node: its name and pull policy joined to a key, or no name at all. */
  datatype Image = Missing | Named(key: string)

  datatype Pull = Ongoing(owner: nat) | Finished(err: Option<string>)

  datatype PC =
    | Starting
    | Visiting(j: nat)
    | Pulling(j: nat)
    | Waiting(j: nat)
    | Sending(result: Option<string>)
    | Sent
    | Left

  datatype Report = Report(who: nat, result: Option<string>)

  /** started: the key of every pull begun, in order. sent: everything sent on the channel, of which
      `received` have been taken out again. */
  datatype State = State(
    pcs: seq<PC>, cancelled: set<nat>, pulls: map<string, Pull>, started: seq<string>,
    sent: seq<Report>, received: nat, closed: bool, errors: seq<string>, returned: Option<Option<string>>)

  datatype Step =
    | Begin(i: nat, cancelled: bool)
    | Look(i: nat)
    | Finish(i: nat, err: Option<string>)
    | Wake(i: nat)
    | Send(i: nat)
    | Leave(i: nat)
    | Close
    | Receive
    | Return

  type Plan = seq<seq<Image>>

  const CANCELLED := "context cancelled"
  const MISSING := "missing image"

  function Init(plan: Plan): State {
    State(seq(|plan|, _ => Starting), {}, map[], [], [], 0, false, [], None)
  }

  predicate KeyAt(plan: Plan, i: nat, j: nat, key: string) {
    i < |plan| && j < |plan[i]| && plan[i][j] == Named(key)
  }

  predicate Running(s: State, i: nat) {
    i < |s.pcs| && s.returned.None?
  }

  predicate CanLook(plan: Plan, s: State, i: nat) {
    Running(s, i) && s.pcs[i].Visiting? && |s.pcs| == |plan| && s.pcs[i].j <= |plan[i]|
  }

  predicate CanFinish(plan: Plan, s: State, i: nat) {
    && Running(s, i) && s.pcs[i].Pulling? && |s.pcs| == |plan| && s.pcs[i].j < |plan[i]|
    && plan[i][s.pcs[i].j].Named?
  }

  predicate CanWake(plan: Plan, s: State, i: nat) {
    && Running(s, i) && s.pcs[i].Waiting? && |s.pcs| == |plan| && s.pcs[i].j < |plan[i]|
    && plan[i][s.pcs[i].j].Named?
    && plan[i][s.pcs[i].j].key in s.pulls && s.pulls[plan[i][s.pcs[i].j].key].Finished?
  }

  /** A send needs room in the channel, which holds as many results as there are nodes. */
  predicate CanSend(s: State, i: nat) {
    Running(s, i) && s.pcs[i].Sending? && |s.sent| < |s.pcs| + s.received
  }

  predicate Enabled(plan: Plan, s: State, step: Step) {
    match step
    case Begin(i, _) => Running(s, i) && s.pcs[i].Starting?
    case Look(i) => CanLook(plan, s, i)
    case Finish(i, _) => CanFinish(plan, s, i)
    case Wake(i) => CanWake(plan, s, i)
    case Send(i) => CanSend(s, i)
    case Leave(i) => Running(s, i) && s.pcs[i].Sent?
    case Close => s.returned.None? && !s.closed && forall i :: 0 <= i < |s.pcs| ==> s.pcs[i].Left?
    case Receive => s.returned.None? && s.received < |s.sent|
    case Return => s.returned.None? && s.closed && s.received == |s.sent|
  }

  function DoBegin(s: State, i: nat, cancelled: bool): State
    requires i < |s.pcs|
  {
    s.(pcs := s.pcs[i := if cancelled then Sending(Some(CANCELLED)) else Visiting(0)],
       cancelled := if cancelled then s.cancelled + {i} else s.cancelled)
  }

  /** The next image, under the lock: nothing left, no name, being pulled already, or to be pulled now. */
  function DoLook(plan: Plan, s: State, i: nat): State
    requires CanLook(plan, s, i)
  {
    var j := s.pcs[i].j;
    if j == |plan[i]| then s.(pcs := s.pcs[i := Sending(None)])
    else if plan[i][j].Missing? then s.(pcs := s.pcs[i := Sending(Some(MISSING))])
    else if plan[i][j].key in s.pulls then s.(pcs := s.pcs[i := Waiting(j)])
    else s.(pcs := s.pcs[i := Pulling(j)], pulls := s.pulls[plan[i][j].key := Ongoing(i)],
            started := s.started + [plan[i][j].key])
  }

  function After(j: nat, err: Option<string>): PC {
    if err.Some? then Sending(err) else Visiting(j + 1)
  }

  function DoFinish(plan: Plan, s: State, i: nat, err: Option<string>): State
    requires CanFinish(plan, s, i)
  {
    var j := s.pcs[i].j;
    s.(pulls := s.pulls[plan[i][j].key := Finished(err)], pcs := s.pcs[i := After(j, err)])
  }

  function DoWake(plan: Plan, s: State, i: nat): State
    requires CanWake(plan, s, i)
  {
    var j := s.pcs[i].j;
    s.(pcs := s.pcs[i := After(j, s.pulls[plan[i][j].key].err)])
  }

  function DoSend(s: State, i: nat): State
    requires CanSend(s, i)
  {
    s.(sent := s.sent + [Report(i, s.pcs[i].result)], pcs := s.pcs[i := Sent])
  }

  function DoReceive(s: State): State
    requires s.received < |s.sent|
  {
    var result := s.sent[s.received].result;
    s.(received := s.received + 1, errors := s.errors + if result.Some? then [result.value] else [])
  }

  function Apply(plan: Plan, s: State, step: Step): State
    requires Enabled(plan, s, step)
  {
    match step
    case Begin(i, cancelled) => DoBegin(s, i, cancelled)
    case Look(i) => DoLook(plan, s, i)
    case Finish(i, err) => DoFinish(plan, s, i, err)
    case Wake(i) => DoWake(plan, s, i)
    case Send(i) => DoSend(s, i)
    case Leave(i) => s.(pcs := s.pcs[i := Left])
    case Close => s.(closed := true)
    case Receive => DoReceive(s)
    case Return => s.(returned := Some(if s.errors == [] then None else Some(s.errors[0])))
  }

  predicate IsRun(plan: Plan, s: State, steps: seq<Step>)
    decreases |steps|
  {
    steps == [] || (Enabled(plan, s, steps[0]) && IsRun(plan, Apply(plan, s, steps[0]), steps[1..]))
  }

  function End(plan: Plan, s: State, steps: seq<Step>): State
    requires IsRun(plan, s, steps)
    decreases |steps|
  {
    if steps == [] then s else End(plan, Apply(plan, s, steps[0]), steps[1..])
  }

  // What a node's pulls come to, read off the pulls alone.

  /** The first image that is missing or failed decides; undecided while one before it is not finished. */
  function Outcome(images: seq<Image>, pulls: map<string, Pull>): Option<Option<string>> {
    if images == [] then Some(None)
    else if images[0].Missing? then Some(Some(MISSING))
    else if images[0].key !in pulls || pulls[images[0].key].Ongoing? then None
    else if pulls[images[0].key].err.Some? then Some(pulls[images[0].key].err)
    else Outcome(images[1..], pulls)
  }

  function Verdict(plan: Plan, s: State, i: nat): Option<Option<string>>
    requires i < |plan|
  {
    if i in s.cancelled then Some(Some(CANCELLED)) else Outcome(plan[i], s.pulls)
  }

  predicate Pulled(key: string, pulls: map<string, Pull>) {
    key in pulls && pulls[key] == Finished(None)
  }

  /** The first j images were pulled without an error. */
  predicate Good(images: seq<Image>, j: nat, pulls: map<string, Pull>) {
    && j <= |images|
    && forall x :: 0 <= x < j ==> images[x].Named? && Pulled(images[x].key, pulls)
  }

  /** Finished pulls stay as they are. */
  ghost predicate Extends(a: map<string, Pull>, b: map<string, Pull>) {
    forall k :: k in a && a[k].Finished? ==> k in b && b[k] == a[k]
  }

  lemma {:induction false} OutcomeStays(images: seq<Image>, a: map<string, Pull>, b: map<string, Pull>)
    requires Extends(a, b) && Outcome(images, a).Some?
    ensures Outcome(images, b) == Outcome(images, a)
  {
    if images != [] && images[0].Named? && Pulled(images[0].key, a) {
      OutcomeStays(images[1..], a, b);
    }
  }

  lemma {:induction false} OutcomeAfter(images: seq<Image>, j: nat, pulls: map<string, Pull>)
    requires Good(images, j, pulls)
    ensures Outcome(images, pulls) == Outcome(images[j..], pulls)
  {
    if j > 0 {
      assert forall x :: 0 <= x < j - 1 ==> images[1..][x] == images[x + 1];
      OutcomeAfter(images[1..], j - 1, pulls);
      assert images[1..][j - 1..] == images[j..];
    }
  }

  // The invariant.

  ghost predicate PcOk(plan: Plan, s: State, i: nat)
    requires i < |plan| == |s.pcs|
  {
    match s.pcs[i]
    case Starting => i !in s.cancelled
    case Visiting(j) => i !in s.cancelled && Good(plan[i], j, s.pulls)
    case Pulling(j) => i !in s.cancelled && Good(plan[i], j, s.pulls) && Owns(plan, s, i, j)
    case Waiting(j) => i !in s.cancelled && Good(plan[i], j, s.pulls) && Awaits(plan, s, i, j)
    case Sending(result) => Verdict(plan, s, i) == Some(result)
    case Sent => Reported(s, i)
    case Left => Reported(s, i)
  }

  predicate Owns(plan: Plan, s: State, i: nat, j: nat)
    requires i < |plan|
  {
    && j < |plan[i]| && plan[i][j].Named?
    && plan[i][j].key in s.pulls && s.pulls[plan[i][j].key] == Ongoing(i)
  }

  predicate Awaits(plan: Plan, s: State, i: nat, j: nat)
    requires i < |plan|
  {
    j < |plan[i]| && plan[i][j].Named? && plan[i][j].key in s.pulls
  }

  ghost predicate Reported(s: State, i: nat) {
    exists k :: 0 <= k < |s.sent| && s.sent[k].who == i
  }

  /** An ongoing pull is being done by its owner. */
  ghost predicate OwnerOk(plan: Plan, s: State, key: string)
    requires |plan| == |s.pcs|
  {
    key in s.pulls && s.pulls[key].Ongoing? ==>
      var o := s.pulls[key].owner;
      o < |plan| && s.pcs[o].Pulling? && KeyAt(plan, o, s.pcs[o].j, key)
  }

  ghost predicate StartedOk(s: State) {
    && (forall key :: key in s.pulls <==> key in s.started)
    && (forall x, y :: 0 <= x < y < |s.started| ==> s.started[x] != s.started[y])
  }

  predicate HasSent(pc: PC) {
    pc.Sent? || pc.Left?
  }

  /** The k-th result on the channel is its sender's verdict. */
  ghost predicate ReportOk(plan: Plan, s: State, k: nat)
    requires |plan| == |s.pcs| && k < |s.sent|
  {
    var i := s.sent[k].who;
    i < |plan| && HasSent(s.pcs[i]) && Verdict(plan, s, i) == Some(s.sent[k].result)
  }

  ghost predicate OneReportEach(sent: seq<Report>) {
    forall x, y :: 0 <= x < y < |sent| ==> sent[x].who != sent[y].who
  }

  function ErrorsOf(sent: seq<Report>): seq<string> {
    if sent == [] then []
    else ErrorsOf(sent[..|sent| - 1]) + if sent[|sent| - 1].result.Some? then [sent[|sent| - 1].result.value] else []
  }

  ghost predicate CollectorOk(s: State) {
    && s.received <= |s.sent| && s.errors == ErrorsOf(s.sent[..s.received])
    && (s.closed ==> forall i :: 0 <= i < |s.pcs| ==> s.pcs[i].Left?)
    && (s.returned.Some? ==> s.closed && s.received == |s.sent|
                             && s.returned.value == if s.errors == [] then None else Some(s.errors[0]))
  }

  ghost predicate Inv(plan: Plan, s: State) {
    && |s.pcs| == |plan|
    && (forall i :: 0 <= i < |plan| ==> PcOk(plan, s, i))
    && (forall key :: OwnerOk(plan, s, key))
    && StartedOk(s)
    && (forall k :: 0 <= k < |s.sent| ==> ReportOk(plan, s, k)) && OneReportEach(s.sent)
    && CollectorOk(s)
  }

  lemma InitInv(plan: Plan)
    ensures Inv(plan, Init(plan))
  {
  }

  /** What a step of another goroutine leaves untouched. */
  ghost predicate Beside(s: State, t: State, i: nat)
    requires i < |s.pcs| == |t.pcs|
  {
    && t.pcs[i] == s.pcs[i] && (i in t.cancelled <==> i in s.cancelled)
    && Extends(s.pulls, t.pulls) && s.sent <= t.sent
    && (forall key :: key in s.pulls ==> key in t.pulls)
    && (forall key :: key in s.pulls && s.pulls[key] == Ongoing(i) ==> t.pulls[key] == Ongoing(i))
  }

  lemma PcStays(plan: Plan, s: State, t: State, i: nat)
    requires i < |plan| == |s.pcs| == |t.pcs| && PcOk(plan, s, i) && Beside(s, t, i)
    ensures PcOk(plan, t, i)
  {
    if s.pcs[i].Sending? && i !in s.cancelled {
      OutcomeStays(plan[i], s.pulls, t.pulls);
    }
    if HasSent(s.pcs[i]) {
      var k :| 0 <= k < |s.sent| && s.sent[k].who == i;
      assert t.sent[k].who == i;
    }
  }

  lemma VerdictStays(plan: Plan, s: State, t: State, i: nat)
    requires i < |plan| && Verdict(plan, s, i).Some?
    requires Extends(s.pulls, t.pulls) && (i in t.cancelled <==> i in s.cancelled)
    ensures Verdict(plan, t, i) == Verdict(plan, s, i)
  {
    if i !in s.cancelled {
      OutcomeStays(plan[i], s.pulls, t.pulls);
    }
  }

  /** What every step does to everybody but goroutine i. */
  ghost predicate Local(s: State, t: State, i: nat) {
    && |t.pcs| == |s.pcs| && forall x :: 0 <= x < |s.pcs| && x != i ==> Beside(s, t, x)
  }

  lemma OthersStay(plan: Plan, s: State, t: State, i: nat)
    requires Inv(plan, s) && Local(s, t, i)
    ensures forall x :: 0 <= x < |plan| && x != i ==> PcOk(plan, t, x)
  {
    forall x | 0 <= x < |plan| && x != i ensures PcOk(plan, t, x) {
      PcStays(plan, s, t, x);
    }
  }

  lemma ReportsStay(plan: Plan, s: State, t: State, i: nat)
    requires Inv(plan, s) && Local(s, t, i) && i < |plan| && Extends(s.pulls, t.pulls)
    requires HasSent(s.pcs[i]) ==> HasSent(t.pcs[i]) && (i in t.cancelled <==> i in s.cancelled)
    requires t.sent == s.sent
    ensures forall k :: 0 <= k < |t.sent| ==> ReportOk(plan, t, k)
  {
    forall k | 0 <= k < |t.sent| ensures ReportOk(plan, t, k) {
      assert ReportOk(plan, s, k);
      var who := s.sent[k].who;
      assert who == i || Beside(s, t, who);
      VerdictStays(plan, s, t, who);
    }
  }

  lemma BeginKeepsInv(plan: Plan, s: State, i: nat, cancelled: bool)
    requires Inv(plan, s) && Enabled(plan, s, Begin(i, cancelled))
    ensures Inv(plan, DoBegin(s, i, cancelled))
  {
    var t := DoBegin(s, i, cancelled);
    assert PcOk(plan, s, i);
    OthersStay(plan, s, t, i);
    ReportsStay(plan, s, t, i);
    assert forall key :: OwnerOk(plan, s, key) ==> OwnerOk(plan, t, key);
  }

  predicate StartsPull(plan: Plan, s: State, i: nat) {
    && CanLook(plan, s, i) && s.pcs[i].j < |plan[i]|
    && plan[i][s.pcs[i].j].Named? && plan[i][s.pcs[i].j].key !in s.pulls
  }

  lemma StartKeepsInv(plan: Plan, s: State, i: nat)
    requires Inv(plan, s) && StartsPull(plan, s, i) && !s.closed
    ensures Inv(plan, DoLook(plan, s, i))
  {
    var t := DoLook(plan, s, i);
    assert PcOk(plan, s, i);
    OthersStay(plan, s, t, i);
    ReportsStay(plan, s, t, i);
    assert forall key :: OwnerOk(plan, s, key) ==> OwnerOk(plan, t, key);
  }

  lemma LookKeepsInv(plan: Plan, s: State, i: nat)
    requires Inv(plan, s) && CanLook(plan, s, i) && !StartsPull(plan, s, i) && !s.closed
    ensures Inv(plan, DoLook(plan, s, i))
  {
    var t := DoLook(plan, s, i);
    assert PcOk(plan, s, i);
    OutcomeAfter(plan[i], s.pcs[i].j, s.pulls);
    OthersStay(plan, s, t, i);
    ReportsStay(plan, s, t, i);
    assert forall key :: OwnerOk(plan, s, key) ==> OwnerOk(plan, t, key);
  }

  lemma FinishKeepsInv(plan: Plan, s: State, i: nat, err: Option<string>)
    requires Inv(plan, s) && CanFinish(plan, s, i) && !s.closed
    ensures Inv(plan, DoFinish(plan, s, i, err))
  {
    var t := DoFinish(plan, s, i, err);
    var j := s.pcs[i].j;
    assert PcOk(plan, s, i);
    assert Good(plan[i], j, t.pulls);
    OutcomeAfter(plan[i], j, t.pulls);
    OthersStay(plan, s, t, i);
    ReportsStay(plan, s, t, i);
    assert forall key :: OwnerOk(plan, s, key) ==> OwnerOk(plan, t, key);
  }

  lemma WakeKeepsInv(plan: Plan, s: State, i: nat)
    requires Inv(plan, s) && CanWake(plan, s, i) && !s.closed
    ensures Inv(plan, DoWake(plan, s, i))
  {
    var t := DoWake(plan, s, i);
    assert PcOk(plan, s, i);
    OutcomeAfter(plan[i], s.pcs[i].j, s.pulls);
    OthersStay(plan, s, t, i);
    ReportsStay(plan, s, t, i);
    assert forall key :: OwnerOk(plan, s, key) ==> OwnerOk(plan, t, key);
  }

  lemma SendKeepsInv(plan: Plan, s: State, i: nat)
    requires Inv(plan, s) && CanSend(s, i) && !s.closed
    ensures Inv(plan, DoSend(s, i))
  {
    var t := DoSend(s, i);
    assert PcOk(plan, s, i);
    OthersStay(plan, s, t, i);
    assert t.sent[|s.sent|].who == i;
    assert t.sent[..t.received] == s.sent[..s.received];
    forall k | 0 <= k < |s.sent| ensures ReportOk(plan, t, k) && s.sent[k].who != i {
      assert ReportOk(plan, s, k);
    }
    assert forall key :: OwnerOk(plan, s, key) ==> OwnerOk(plan, t, key);
  }

  lemma LeaveKeepsInv(plan: Plan, s: State, i: nat)
    requires Inv(plan, s) && Enabled(plan, s, Leave(i))
    ensures Inv(plan, Apply(plan, s, Leave(i)))
  {
    var t := Apply(plan, s, Leave(i));
    assert PcOk(plan, s, i);
    OthersStay(plan, s, t, i);
    ReportsStay(plan, s, t, i);
    assert forall key :: OwnerOk(plan, s, key) ==> OwnerOk(plan, t, key);
  }

  lemma CollectorKeepsInv(plan: Plan, s: State, step: Step)
    requires Inv(plan, s) && Enabled(plan, s, step) && (step.Close? || step.Receive? || step.Return?)
    ensures Inv(plan, Apply(plan, s, step))
  {
    var t := Apply(plan, s, step);
    forall i | 0 <= i < |plan| ensures PcOk(plan, t, i) {
      PcStays(plan, s, t, i);
    }
    forall k | 0 <= k < |t.sent| ensures ReportOk(plan, t, k) {
      assert ReportOk(plan, s, k);
    }
    assert forall key :: OwnerOk(plan, s, key) ==> OwnerOk(plan, t, key);
    if step.Receive? {
      assert t.sent[..t.received][..s.received] == s.sent[..s.received];
    }
  }

  lemma StepKeepsInv(plan: Plan, s: State, step: Step)
    requires Inv(plan, s) && Enabled(plan, s, step)
    ensures Inv(plan, Apply(plan, s, step))
  {
    match step
    case Begin(i, cancelled) => BeginKeepsInv(plan, s, i, cancelled);
    case Look(i) =>
      if StartsPull(plan, s, i) {
        StartKeepsInv(plan, s, i);
      } else {
        LookKeepsInv(plan, s, i);
      }
    case Finish(i, err) => FinishKeepsInv(plan, s, i, err);
    case Wake(i) => WakeKeepsInv(plan, s, i);
    case Send(i) => SendKeepsInv(plan, s, i);
    case Leave(i) => LeaveKeepsInv(plan, s, i);
    case Close => CollectorKeepsInv(plan, s, step);
    case Receive => CollectorKeepsInv(plan, s, step);
    case Return => CollectorKeepsInv(plan, s, step);
  }

  lemma {:induction false} RunKeepsInv(plan: Plan, s: State, steps: seq<Step>)
    requires Inv(plan, s) && IsRun(plan, s, steps)
    ensures Inv(plan, End(plan, s, steps))
    decreases |steps|
  {
    hide Inv, Enabled;
    if steps != [] {
      StepKeepsInv(plan, s, steps[0]);
      RunKeepsInv(plan, Apply(plan, s, steps[0]), steps[1..]);
    }
  }

  // Single flight.

  /** In every interleaving each image and policy is pulled at most once, and exactly those in the map. */
  lemma EachPulledOnce(plan: Plan, steps: seq<Step>)
    requires IsRun(plan, Init(plan), steps)
    ensures var s := End(plan, Init(plan), steps);
            && (forall x, y :: 0 <= x < y < |s.started| ==> s.started[x] != s.started[y])
            && (forall key :: key in s.started <==> key in s.pulls)
  {
    InitInv(plan);
    RunKeepsInv(plan, Init(plan), steps);
  }

  /** A waiter goes on with exactly the error that the pull it waited for ended with. */
  lemma WaiterReadsTheError(plan: Plan, s: State, i: nat)
    requires Inv(plan, s) && CanWake(plan, s, i)
    ensures var t := DoWake(plan, s, i);
            var err := s.pulls[plan[i][s.pcs[i].j].key].err;
            if err.Some? then t.pcs[i] == Sending(err) && Outcome(plan[i], s.pulls) == Some(err)
            else Good(plan[i], s.pcs[i].j + 1, t.pulls)
  {
    assert PcOk(plan, s, i);
    OutcomeAfter(plan[i], s.pcs[i].j, s.pulls);
  }

  // The result channel.

  function Senders(sent: seq<Report>): set<nat> {
    set k | 0 <= k < |sent| :: sent[k].who
  }

  lemma {:induction false} SendersCount(sent: seq<Report>)
    requires OneReportEach(sent)
    ensures |Senders(sent)| == |sent|
  {
    if sent != [] {
      var rest := sent[..|sent| - 1];
      var last := sent[|sent| - 1].who;
      SendersCount(rest);
      forall k | 0 <= k < |sent| ensures sent[k].who in Senders(rest) + {last} {
        assert k < |rest| ==> sent[k] == rest[k];
      }
      forall k | 0 <= k < |rest| ensures rest[k].who in Senders(sent) && rest[k].who != last {
        assert sent[k] == rest[k];
      }
      assert Senders(sent) == Senders(rest) + {last};
    }
  }

  function UpTo(n: nat): (r: set<nat>)
    ensures |r| == n && forall i: nat :: i in r <==> i < n
  {
    if n == 0 then {} else UpTo(n - 1) + {n - 1}
  }

  /** A goroutine with a result never blocks on the channel. */
  lemma ChannelNeverBlocks(plan: Plan, s: State, i: nat)
    requires Inv(plan, s) && i < |plan| && s.pcs[i].Sending?
    ensures |s.sent| < |plan|
  {
    SendersCount(s.sent);
    forall k | 0 <= k < |s.sent| ensures s.sent[k].who in UpTo(|plan|) - {i} {
      assert ReportOk(plan, s, k);
    }
    SubsetSize(Senders(s.sent), UpTo(|plan|) - {i});
  }

  // Progress.

  /** Whatever the order in which the nodes visit their images, some step is always possible until the
      result is returned: there is no cycle of waits. */
  lemma NeverStuck(plan: Plan, s: State) returns (step: Step)
    requires Inv(plan, s) && s.returned.None?
    ensures Enabled(plan, s, step)
  {
    if i :| 0 <= i < |plan| && !s.pcs[i].Left? {
      assert PcOk(plan, s, i);
      match s.pcs[i]
      case Starting => step := Begin(i, false);
      case Visiting(_) => step := Look(i);
      case Pulling(_) => step := Finish(i, None);
      case Waiting(j) =>
        var key := plan[i][j].key;
        assert OwnerOk(plan, s, key);
        step := if s.pulls[key].Finished? then Wake(i) else Finish(s.pulls[key].owner, None);
      case Sending(_) =>
        ChannelNeverBlocks(plan, s, i);
        step := Send(i);
      case Sent => step := Leave(i);
    } else {
      step := if !s.closed then Close else if s.received < |s.sent| then Receive else Return;
    }
  }

  /** How many steps a goroutine has left at most. */
  function Rank(images: seq<Image>, pc: PC): nat {
    match pc
    case Starting => 2 * |images| + 4
    case Visiting(j) => if j <= |images| then 2 * (|images| - j) + 3 else 0
    case Pulling(j) => if j <= |images| then 2 * (|images| - j) + 2 else 0
    case Waiting(j) => if j <= |images| then 2 * (|images| - j) + 2 else 0
    case Sending(_) => 2
    case Sent => 1
    case Left => 0
  }

  function Ranks(plan: Plan, pcs: seq<PC>): nat
    requires |plan| == |pcs|
  {
    if plan == [] then 0 else Rank(plan[0], pcs[0]) + Ranks(plan[1..], pcs[1..])
  }

  lemma {:induction false} RanksUpdated(plan: Plan, pcs: seq<PC>, i: nat, pc: PC)
    requires i < |plan| == |pcs|
    ensures Ranks(plan, pcs[i := pc]) == Ranks(plan, pcs) - Rank(plan[i], pcs[i]) + Rank(plan[i], pc)
  {
    if i == 0 {
      assert pcs[i := pc][1..] == pcs[1..];
    } else {
      assert pcs[i := pc][1..] == pcs[1..][i - 1 := pc];
      RanksUpdated(plan[1..], pcs[1..], i - 1, pc);
    }
  }

  function StepsLeft(plan: Plan, s: State): nat
    requires |plan| == |s.pcs| && s.received <= |plan|
  {
    Ranks(plan, s.pcs) + (|plan| - s.received) + (if s.closed then 0 else 1) + if s.returned.Some? then 0 else 1
  }

  lemma SentAtMostOnce(plan: Plan, s: State)
    requires Inv(plan, s)
    ensures s.received <= |s.sent| <= |plan| == |s.pcs|
  {
    SendersCount(s.sent);
    forall k | 0 <= k < |s.sent| ensures s.sent[k].who in UpTo(|plan|) {
      assert ReportOk(plan, s, k);
    }
    SubsetSize(Senders(s.sent), UpTo(|plan|));
  }

  lemma MoveDecreases(plan: Plan, s: State, t: State, i: nat)
    requires i < |plan| == |s.pcs| == |t.pcs| && s.received <= |plan|
    requires t.pcs == s.pcs[i := t.pcs[i]] && Rank(plan[i], t.pcs[i]) < Rank(plan[i], s.pcs[i])
    requires t.received == s.received && t.closed == s.closed && t.returned == s.returned
    ensures StepsLeft(plan, t) < StepsLeft(plan, s)
  {
    RanksUpdated(plan, s.pcs, i, t.pcs[i]);
  }

  lemma StepsLeftDecrease(plan: Plan, s: State, step: Step)
    requires |s.pcs| == |plan| && s.received <= |s.sent| <= |plan| && Enabled(plan, s, step)
    ensures Apply(plan, s, step).received <= |plan|
    ensures StepsLeft(plan, Apply(plan, s, step)) < StepsLeft(plan, s)
  {
    hide Ranks, StepsLeft;
    match step
    case Begin(i, cancelled) => MoveDecreases(plan, s, DoBegin(s, i, cancelled), i);
    case Look(i) => MoveDecreases(plan, s, DoLook(plan, s, i), i);
    case Finish(i, err) => MoveDecreases(plan, s, DoFinish(plan, s, i, err), i);
    case Wake(i) => MoveDecreases(plan, s, DoWake(plan, s, i), i);
    case Send(i) => MoveDecreases(plan, s, DoSend(s, i), i);
    case Leave(i) => MoveDecreases(plan, s, Apply(plan, s, step), i);
    case Close => CollectorDecreases(plan, s, step);
    case Receive => CollectorDecreases(plan, s, step);
    case Return => CollectorDecreases(plan, s, step);
  }

  lemma CollectorDecreases(plan: Plan, s: State, step: Step)
    requires |s.pcs| == |plan| && s.received <= |s.sent| <= |plan| && Enabled(plan, s, step)
    requires step.Close? || step.Receive? || step.Return?
    ensures Apply(plan, s, step).received <= |plan|
    ensures StepsLeft(plan, Apply(plan, s, step)) < StepsLeft(plan, s)
  {
  }

  /** Every run is finite. */
  lemma {:induction false} EveryRunIsBounded(plan: Plan, s: State, steps: seq<Step>)
    requires Inv(plan, s) && IsRun(plan, s, steps)
    ensures s.received <= |plan| && |steps| <= StepsLeft(plan, s)
    decreases |steps|
  {
    hide Inv, Enabled;
    SentAtMostOnce(plan, s);
    if steps != [] {
      StepKeepsInv(plan, s, steps[0]);
      StepsLeftDecrease(plan, s, steps[0]);
      EveryRunIsBounded(plan, Apply(plan, s, steps[0]), steps[1..]);
    }
  }

  // The result.

  lemma {:induction false} ErrorsAre(sent: seq<Report>, e: string)
    ensures e in ErrorsOf(sent) <==> exists k :: 0 <= k < |sent| && sent[k].result == Some(e)
  {
    if sent != [] {
      var rest := sent[..|sent| - 1];
      ErrorsAre(rest, e);
      assert forall k :: 0 <= k < |rest| ==> sent[k] == rest[k];
      assert sent[|sent| - 1].result == Some(e) ==> e in ErrorsOf(sent);
      if k :| 0 <= k < |rest| && rest[k].result == Some(e) {
        assert sent[k].result == Some(e);
      }
    }
  }

  /** A node's pulls come to nothing bad exactly when all of its images were pulled. */
  lemma {:induction false} OutcomeGood(images: seq<Image>, pulls: map<string, Pull>)
    ensures Outcome(images, pulls) == Some(None) <==> Good(images, |images|, pulls)
  {
    if images != [] {
      OutcomeGood(images[1..], pulls);
      if Good(images[1..], |images| - 1, pulls) && images[0].Named? && Pulled(images[0].key, pulls) {
        assert forall x :: 0 < x < |images| ==> images[x] == images[1..][x - 1];
      }
      if Good(images, |images|, pulls) {
        assert forall x :: 0 <= x < |images| - 1 ==> images[1..][x] == images[x + 1];
      }
    }
  }

  /** Node i started before the cancellation and has all of its images. */
  ghost predicate Served(plan: Plan, s: State, i: nat)
    requires i < |plan|
  {
    i !in s.cancelled && Good(plan[i], |plan[i]|, s.pulls)
  }

  /** The k-th result sent is the first one that is an error. */
  ghost predicate FirstError(sent: seq<Report>, k: int, e: string) {
    0 <= k < |sent| && sent[k].result == Some(e) && forall x :: 0 <= x < k ==> sent[x].result.None?
  }

  lemma {:induction false} FirstErrorOf(sent: seq<Report>) returns (k: nat)
    ensures ErrorsOf(sent) != [] ==> FirstError(sent, k, ErrorsOf(sent)[0])
    ensures ErrorsOf(sent) == [] ==> forall x :: 0 <= x < |sent| ==> sent[x].result.None?
  {
    k := 0;
    if sent != [] {
      var rest := sent[..|sent| - 1];
      k := FirstErrorOf(rest);
      assert forall x :: 0 <= x < |rest| ==> sent[x] == rest[x];
      if ErrorsOf(rest) == [] {
        k := |rest|;
      }
    }
  }

  /** What becomes of a node: it was cancelled before it began, or its images decide. */
  ghost predicate Decides(plan: Plan, s: State, i: nat, e: string)
    requires i < |plan|
  {
    if i in s.cancelled then e == "context cancelled"
    else exists j :: FailsAt(plan[i], s.pulls, j, e)
  }

  /** The j-th image is the first that is missing or could not be pulled. */
  ghost predicate FailsAt(images: seq<Image>, pulls: map<string, Pull>, j: int, e: string) {
    && 0 <= j < |images|
    && (forall x :: 0 <= x < j ==>
          images[x].Named? && images[x].key in pulls && pulls[images[x].key] == Finished(None))
    && if images[j].Missing? then e == "missing image"
       else images[j].key in pulls && pulls[images[j].key] == Finished(Some(e))
  }

  lemma {:induction false} OutcomeFails(images: seq<Image>, pulls: map<string, Pull>, e: string) returns (j: int)
    requires Outcome(images, pulls) == Some(Some(e))
    ensures FailsAt(images, pulls, j, e)
  {
    j := 0;
    if images[0].Named? && pulls[images[0].key].err.None? {
      j := OutcomeFails(images[1..], pulls, e);
      j := j + 1;
      assert forall x :: 0 < x < |images| ==> images[x] == images[1..][x - 1];
    }
  }

  /** The call returns no error exactly when every node started before the cancellation and has all of its
      images; an error that it returns is the first one sent, and decides for the node that sent it. */
  lemma ReturnedResult(plan: Plan, s: State)
    requires Inv(plan, s) && s.returned.Some?
    ensures s.returned.value.None? <==> forall i :: 0 <= i < |plan| ==> Served(plan, s, i)
    ensures forall i :: 0 <= i < |plan| ==> (
              Served(plan, s, i) <==>
              && i !in s.cancelled
              && forall j :: 0 <= j < |plan[i]| ==>
                   plan[i][j].Named? && plan[i][j].key in s.pulls && s.pulls[plan[i][j].key] == Finished(None))
    ensures s.returned.value.Some? ==>
              exists k :: && FirstError(s.sent, k, s.returned.value.value)
                          && s.sent[k].who < |plan| && Decides(plan, s, s.sent[k].who, s.returned.value.value)
  {
    assert s.sent[..s.received] == s.sent;
    if s.returned.value.None? {
      forall i | 0 <= i < |plan| ensures Served(plan, s, i) {
        assert PcOk(plan, s, i);
        var k :| 0 <= k < |s.sent| && s.sent[k].who == i;
        assert ReportOk(plan, s, k);
        if s.sent[k].result.Some? {
          ErrorsAre(s.sent, s.sent[k].result.value);
        }
        OutcomeGood(plan[i], s.pulls);
      }
    } else {
      var e := s.returned.value.value;
      var k := FirstErrorOf(s.sent);
      assert ReportOk(plan, s, k);
      if s.sent[k].who !in s.cancelled {
        var j := OutcomeFails(plan[s.sent[k].who], s.pulls, e);
      }
      OutcomeGood(plan[s.sent[k].who], s.pulls);
      assert !Served(plan, s, s.sent[k].who);
    }
  }

  /** A run that can go no further has returned. */
  lemma EveryRunReturns(plan: Plan, steps: seq<Step>)
    requires IsRun(plan, Init(plan), steps)
    requires forall step :: !Enabled(plan, End(plan, Init(plan), steps), step)
    ensures End(plan, Init(plan), steps).returned.Some?
    ensures Inv(plan, End(plan, Init(plan), steps))
  {
    InitInv(plan);
    RunKeepsInv(plan, Init(plan), steps);
    if End(plan, Init(plan), steps).returned.None? {
      var step := NeverStuck(plan, End(plan, Init(plan), steps));
    }
  }
}
