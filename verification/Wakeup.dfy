/**
 * The runtime monitor: a forwarder of kernel notifications, a channel of capacity one, and a driver that
 * refreshes. Timers may fire at any time, so the steps interleave freely.
 */
module Wakeup {
  import opened Wrappers

  datatype Event = Changed | Closed

  datatype Forwarder = Reading | Closing | Gone

  /** Where the driver is; waiting remembers whether a failback deadline is armed. */
  datatype Driver =
    | Waiting(armed: bool)
    | Coalescing
    | Draining
    | BackingOff
    | Starting
    | Refreshing
    | Stopped

  /**
   * read counts the notifications the forwarder has read, covered how many of them had been read when the
   * latest refresh started.
   */
  datatype State = State(channel: Option<Event>, forwarder: Forwarder, driver: Driver, read: nat, covered: nat)

  /** Subscribed before the first refresh. */
  const START: State := State(None, Reading, Starting, 0, 0)

  datatype Label =
    | Notify
    | MonitorEnds
    | SendClosed
    | Receive
    | DeadlinePasses
    | CoalesceElapses
    | TryReceive
    | BackoffElapses
    | StartRefresh
    | FinishRefresh(failback: bool)
    | SendersGone

  predicate OfDriver(l: Label) {
    !l.Notify? && !l.MonitorEnds? && !l.SendClosed?
  }

  /** One atomic step, if it is possible now. */
  function Step(s: State, l: Label): Option<State> {
    match l
    case Notify =>
      // A full channel drops the notification: what is pending already covers it.
      if s.forwarder == Reading then
        Some(s.(read := s.read + 1, channel := if s.channel.None? then Some(Changed) else s.channel))
      else
        None
    case MonitorEnds => if s.forwarder == Reading then Some(s.(forwarder := Closing)) else None
    case SendClosed =>
      if s.forwarder == Closing && s.channel.None? then Some(s.(channel := Some(Closed), forwarder := Gone)) else None
    case Receive =>
      if s.driver.Waiting? && s.channel.Some? then
        Some(s.(channel := None, driver := if s.channel.value.Changed? then Coalescing else BackingOff))
      else
        None
    case DeadlinePasses => if s.driver == Waiting(true) then Some(s.(driver := Starting)) else None
    case CoalesceElapses => if s.driver.Coalescing? then Some(s.(driver := Draining)) else None
    case TryReceive =>
      // The drain loop goes on only after a Changed; a Closed is taken and lost.
      if s.driver.Draining? then
        Some(s.(channel := None, driver := if s.channel == Some(Changed) then Draining else Starting))
      else
        None
    case BackoffElapses => if s.driver.BackingOff? then Some(s.(driver := Starting, forwarder := Reading)) else None
    case StartRefresh => if s.driver.Starting? then Some(s.(driver := Refreshing, covered := s.read)) else None
    case FinishRefresh(failback) => if s.driver.Refreshing? then Some(s.(driver := Waiting(failback))) else None
    case SendersGone =>
      if s.driver.Waiting? && s.channel.None? && s.forwarder.Gone? then Some(s.(driver := Stopped)) else None
  }

  predicate Uncovered(s: State) {
    s.covered < s.read
  }

  /** The driver is committed to a refresh before it waits again. */
  predicate Committed(d: Driver) {
    d.Coalescing? || d.Draining? || d.BackingOff? || d.Starting?
  }

  /** A notification no refresh has covered is still pending in the channel or in the driver. */
  ghost predicate Inv(s: State) {
    && s.covered <= s.read
    && (s.driver.Stopped? ==> s.forwarder.Gone?)
    && (Uncovered(s) ==> s.channel.Some? || Committed(s.driver))
  }

  lemma StepKeepsInv(s: State, l: Label)
    requires Inv(s) && Step(s, l).Some?
    ensures Inv(Step(s, l).value)
  {
  }

  /** The state after a sequence of steps, if each was possible. */
  function Run(s: State, labels: seq<Label>): Option<State>
    decreases |labels|
  {
    if labels == [] then
      Some(s)
    else
      match Run(s, labels[..|labels| - 1])
      case None => None
      case Some(before) => Step(before, labels[|labels| - 1])
  }

  lemma {:induction false} RunKeepsInv(s: State, labels: seq<Label>)
    requires Inv(s) && Run(s, labels).Some?
    ensures Inv(Run(s, labels).value)
    decreases |labels|
  {
    if labels != [] {
      RunKeepsInv(s, labels[..|labels| - 1]);
      StepKeepsInv(Run(s, labels[..|labels| - 1]).value, labels[|labels| - 1]);
    }
  }

  /** A driver waiting on an empty channel has refreshed after every notification ever read. */
  lemma WaitingMeansCovered(labels: seq<Label>)
    requires Run(START, labels).Some?
    ensures var s := Run(START, labels).value;
            s.driver.Waiting? && s.channel.None? ==> s.covered == s.read
  {
    RunKeepsInv(START, labels);
  }

  // Progress.

  function Occupied(s: State): nat {
    if s.channel.Some? then 1 else 0
  }

  /** How many driver steps are left to the next refresh if nothing more is sent. */
  function Distance(s: State): nat {
    Occupied(s)
    + match s.driver
      case Waiting(_) => 4
      case Coalescing => 3
      case Draining => 2
      case BackingOff => 2
      case Starting => 1
      case Refreshing => 5
      case Stopped => 0
  }

  /** While something is uncovered the driver always has a step to take. */
  lemma NeverStuck(s: State) returns (l: Label)
    requires Inv(s) && Uncovered(s) && !s.driver.Stopped?
    ensures OfDriver(l) && !l.SendersGone? && Step(s, l).Some?
  {
    l := match s.driver
      case Waiting(_) => Receive
      case Coalescing => CoalesceElapses
      case Draining => TryReceive
      case BackingOff => BackoffElapses
      case Starting => StartRefresh
      case _ => FinishRefresh(false);
  }

  lemma StepDistance(s: State, l: Label)
    requires Inv(s) && Step(s, l).Some? && Uncovered(s) && !l.StartRefresh?
    ensures var t := Step(s, l).value;
            && Uncovered(t) && t.covered == s.covered && (t.driver.Stopped? ==> s.driver.Stopped?)
            && Distance(t) + (if OfDriver(l) then 1 else 0) <= Distance(s) + (if OfDriver(l) then 0 else 1)
  {
  }

  function DriverSteps(labels: seq<Label>): nat {
    if labels == [] then 0 else DriverSteps(labels[..|labels| - 1]) + (if OfDriver(labels[|labels| - 1]) then 1 else 0)
  }

  ghost predicate NoRefreshStarts(labels: seq<Label>) {
    forall i :: 0 <= i < |labels| ==> !labels[i].StartRefresh?
  }

  /** Without a refresh the driver cannot take more steps than its distance and what the forwarder keeps sending. */
  lemma {:induction false} DriverStepsAreBounded(s: State, labels: seq<Label>)
    requires Inv(s) && Uncovered(s) && !s.driver.Stopped?
    requires Run(s, labels).Some? && NoRefreshStarts(labels)
    ensures var t := Run(s, labels).value;
            && Inv(t) && Uncovered(t) && !t.driver.Stopped?
            && DriverSteps(labels) + Distance(t) <= Distance(s) + (|labels| - DriverSteps(labels))
    decreases |labels|
  {
    if labels != [] {
      var rest := labels[..|labels| - 1];
      DriverStepsAreBounded(s, rest);
      var before := Run(s, rest).value;
      StepDistance(before, labels[|labels| - 1]);
      StepKeepsInv(before, labels[|labels| - 1]);
    }
  }

  lemma {:induction false} RunSplits(s: State, labels: seq<Label>, i: nat)
    requires i <= |labels| && Run(s, labels).Some?
    ensures Run(s, labels[..i]).Some? && Run(Run(s, labels[..i]).value, labels[i..]) == Run(s, labels)
    decreases |labels|
  {
    if i == |labels| {
      assert labels[..i] == labels && labels[i..] == [];
    } else {
      var n := |labels| - 1;
      RunSplits(s, labels[..n], i);
      assert labels[..n][..i] == labels[..i];
      assert labels[i..][..n - i] == labels[..n][i..];
    }
  }

  /** Right after a notification was read it is uncovered and the driver is still running. */
  lemma NotifyUncovers(s: State)
    requires Inv(s) && Step(s, Notify).Some?
    ensures Uncovered(Step(s, Notify).value) && !Step(s, Notify).value.driver.Stopped?
  {
  }

  /**
   * In any run, every notification the forwarder read, delivered or dropped, is followed by the start of a
   * refresh, unless the driver has so far taken at most six steps more than the forwarder since.
   */
  lemma NoLostWakeup(labels: seq<Label>, i: nat)
    requires Run(START, labels).Some? && i < |labels| && labels[i].Notify?
    ensures var rest := labels[i + 1..];
            || (exists j :: i < j < |labels| && labels[j].StartRefresh?)
            || (Uncovered(Run(START, labels).value)
                && DriverSteps(rest) <= 6 + (|rest| - DriverSteps(rest)))
  {
    RunSplits(START, labels, i);
    RunSplits(START, labels, i + 1);
    RunKeepsInv(START, labels[..i]);
    RunKeepsInv(START, labels[..i + 1]);
    assert labels[..i + 1][..i] == labels[..i];
    var s := Run(START, labels[..i + 1]).value;
    NotifyUncovers(Run(START, labels[..i]).value);
    var rest := labels[i + 1..];
    if !exists j :: i < j < |labels| && labels[j].StartRefresh? {
      assert forall k :: 0 <= k < |rest| ==> rest[k] == labels[i + 1 + k];
      DriverStepsAreBounded(s, rest);
    }
  }

  // What each wakeup does.

  lemma RunOne(s: State, l: Label)
    ensures Run(s, [l]) == Step(s, l)
  {
    assert [l][..0] == [];
  }

  lemma RunThen(s: State, labels: seq<Label>, l: Label)
    ensures Run(s, labels + [l]) == match Run(s, labels) case None => None case Some(t) => Step(t, l)
  {
    assert (labels + [l])[..|labels|] == labels;
  }

  /** An armed deadline can pass, and then a refresh starts whatever else is pending; an unarmed one cannot pass. */
  lemma DeadlineStartsARefresh(s: State)
    ensures Step(s, DeadlinePasses).Some? <==> s.driver == Waiting(true)
    ensures s.driver == Waiting(true) ==>
              Run(s, [DeadlinePasses] + [StartRefresh]) == Some(s.(driver := Refreshing, covered := s.read))
  {
    RunOne(s, DeadlinePasses);
    RunThen(s, [DeadlinePasses], StartRefresh);
  }

  /** The end of the monitor, once received, starts it again before the next refresh. */
  lemma ClosedRestartsTheMonitor(s: State)
    requires s.driver.Waiting? && s.channel == Some(Closed)
    ensures Run(s, [Receive] + [BackoffElapses] + [StartRefresh]) == Some(State(None, Reading, Refreshing, s.read, s.read))
  {
    RunOne(s, Receive);
    RunThen(s, [Receive], BackoffElapses);
    RunThen(s, [Receive] + [BackoffElapses], StartRefresh);
  }

  /** A change, once received, is coalesced with what follows it, and then a refresh starts. */
  lemma ChangedIsCoalesced(s: State)
    requires s.driver.Waiting? && s.channel == Some(Changed)
    ensures Run(s, [Receive] + [CoalesceElapses] + [TryReceive] + [StartRefresh])
            == Some(State(None, s.forwarder, Refreshing, s.read, s.read))
  {
    RunOne(s, Receive);
    RunThen(s, [Receive], CoalesceElapses);
    RunThen(s, [Receive] + [CoalesceElapses], TryReceive);
    RunThen(s, [Receive] + [CoalesceElapses] + [TryReceive], StartRefresh);
  }

  /** The drain takes everything that is pending, and only then a refresh starts. */
  lemma DrainGoesOn(s: State)
    requires s.driver.Draining?
    ensures s.channel == Some(Changed) ==>
              && Run(s, [TryReceive] + [StartRefresh]).None?
              && Run(s, [TryReceive] + [TryReceive] + [StartRefresh]) == Some(State(None, s.forwarder, Refreshing, s.read, s.read))
    ensures s.channel != Some(Changed) ==>
              Run(s, [TryReceive] + [StartRefresh]) == Some(State(None, s.forwarder, Refreshing, s.read, s.read))
  {
    RunOne(s, TryReceive);
    RunThen(s, [TryReceive], StartRefresh);
    RunThen(s, [TryReceive], TryReceive);
    RunThen(s, [TryReceive] + [TryReceive], StartRefresh);
  }

  /** Nothing else wakes a waiting driver, and only the end of every sender stops it. */
  lemma OnlyThreeThingsWake(s: State, l: Label)
    requires s.driver.Waiting? && OfDriver(l)
    ensures Step(s, l).Some? <==>
              || (l == Receive && s.channel.Some?)
              || (l == DeadlinePasses && s.driver.armed)
              || (l == SendersGone && s.channel.None? && s.forwarder.Gone?)
    ensures Step(s, l).Some? && Step(s, l).value.driver.Stopped? ==> l == SendersGone
  {
  }

  /** The deadline is armed exactly if the refresh that finished last asked for it. */
  lemma {:induction false} ArmedByTheLatestRefresh(labels: seq<Label>) returns (i: nat)
    requires Run(START, labels).Some? && Run(START, labels).value.driver.Waiting?
    ensures i < |labels| && labels[i] == FinishRefresh(Run(START, labels).value.driver.armed)
    ensures forall j :: i < j < |labels| ==> !OfDriver(labels[j])
    decreases |labels|
  {
    i := |labels| - 1;
    if !OfDriver(labels[i]) {
      i := ArmedByTheLatestRefresh(labels[..i]);
    }
  }

  /** The monitor's end leaves the channel by being received, which restarts it, or by a drain, which loses it. */
  lemma ClosedIsLostIff(s: State, l: Label)
    requires s.channel == Some(Closed) && Step(s, l).Some?
    ensures var t := Step(s, l).value;
            && (t.channel == Some(Closed) || l == Receive || l == TryReceive)
            && (l == Receive ==> t.channel.None? && t.driver == BackingOff)
            && (l == TryReceive <==> t.channel.None? && t.driver == Starting)
  {
  }

  const SWALLOWING: seq<Label> := [
    StartRefresh, FinishRefresh(false), Notify, Receive, CoalesceElapses, MonitorEnds, SendClosed, TryReceive,
    StartRefresh, FinishRefresh(false)
  ]

  lemma RunPrefix(labels: seq<Label>, n: nat, s: State)
    requires n < |labels| && Run(START, labels[..n]) == Some(s)
    ensures Run(START, labels[..n + 1]) == Step(s, labels[n])
  {
    assert labels[..n + 1][..n] == labels[..n] && labels[..n + 1][n] == labels[n];
  }

  /** Only Changed is guaranteed: in this run the monitor's end is taken from the channel and never acted upon. */
  lemma ClosedMayBeSwallowed()
    ensures SWALLOWING[6] == SendClosed && BackoffElapses !in SWALLOWING
    ensures Run(START, SWALLOWING) == Some(State(None, Gone, Waiting(false), 1, 1))
  {
    var l := SWALLOWING;
    assert Run(START, l[..0]) == Some(START);
    RunPrefix(l, 0, START);
    RunPrefix(l, 1, State(None, Reading, Refreshing, 0, 0));
    RunPrefix(l, 2, State(None, Reading, Waiting(false), 0, 0));
    RunPrefix(l, 3, State(Some(Changed), Reading, Waiting(false), 1, 0));
    RunPrefix(l, 4, State(None, Reading, Coalescing, 1, 0));
    RunPrefix(l, 5, State(None, Reading, Draining, 1, 0));
    RunPrefix(l, 6, State(None, Closing, Draining, 1, 0));
    RunPrefix(l, 7, State(Some(Closed), Gone, Draining, 1, 0));
    RunPrefix(l, 8, State(None, Gone, Starting, 1, 0));
    RunPrefix(l, 9, State(None, Gone, Refreshing, 1, 1));
    assert l[..10] == l;
  }
}
