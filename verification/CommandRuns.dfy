/** Whole runs of the commands step: sends, the batch of status queries, the person's
    buttons, the device's comings and goings, traffic, stops and new connections, in
    any order. */
module CommandRuns {
  import opened Text
  import opened CommandPass

  /** The batch of status queries: `queue` is what is still to be sent. */
  datatype Batch = Batch(running: bool, total: nat, sent: nat, queue: seq<Command>)

  /** `traffic` is how many entries each connection attempt's observer holds. */
  datatype Pass = Pass(trials: seq<Trial>, batch: Option<Batch>, traffic: seq<nat>, clock: real) {
    predicate Current() {
      trials != [] && !trials[|trials| - 1].status.Done?
    }

    function Last(): Trial
      requires trials != []
    {
      trials[|trials| - 1]
    }

    predicate Running() {
      batch.Some? && batch.value.running
    }

    function WithLast(u: Trial): Pass
      requires trials != []
    {
      this.(trials := trials[|trials| - 1 := u])
    }

    /** The task of the open trial has started, so its events are heard. */
    predicate Heard() {
      Current() && Last().start.Some? && Last().start.value.attempt < |traffic|
    }
  }

  function Times(trials: seq<Trial>, name: string): nat {
    if trials == [] then 0
    else Times(trials[..|trials| - 1], name) + if trials[|trials| - 1].command.name == name then 1 else 0
  }

  // ---------------------------------------------------------------------
  // Steps
  // ---------------------------------------------------------------------

  function NewTrial(trials: seq<Trial>, c: Command, batch: bool, attempt: nat, now: real): Trial {
    var since := if trials == [] then None
                 else Some((trials[|trials| - 1].number, now - trials[|trials| - 1].sentAt));
    Trial(|trials| + 1, c, 1 + Times(trials, c.name), batch, attempt, now, since,
          Sending, None, None, None, false, 0.0, false, false, None, None, [], None, None, None)
  }

  function Opened(p: Pass, c: Command, batch: bool): Pass
    requires p.traffic != []
  {
    p.(trials := p.trials + [NewTrial(p.trials, c, batch, |p.traffic| - 1, p.clock)])
  }

  /** `others`: a setting is being written or watched. */
  predicate Busy(p: Pass, others: bool) {
    p.Running() || p.Current() || others
  }

  function Begun(p: Pass): Pass
    requires p.traffic != [] && p.trials != []
  {
    var a := |p.traffic| - 1;
    p.WithLast(p.Last().(start := Some(Mark(a, p.traffic[a]))))
  }

  /** The batch's next turn: open the next query, or end. */
  function NextQuery(p: Pass, started: bool): Pass
    requires p.Running()
  {
    var b := p.batch.value;
    if b.queue == [] || !started || p.traffic == [] then p.(batch := Some(b.(running := false)))
    else Begun(Opened(p.(batch := Some(b.(queue := b.queue[1..]))), b.queue[0], true))
  }

  function FinishedLast(p: Pass, t: Trial): Pass
    requires p.trials != []
  {
    p.WithLast(Finished(t, p.clock, if t.connectAttempt < |p.traffic| then p.traffic[t.connectAttempt] else 0))
  }

  datatype Step =
    | Send(command: Command, live: bool, others: bool)
    | RunQueries(queries: seq<Command>, live: bool, others: bool)
    | Begin
    | BatchTurn(started: bool)
    | Return(failed: bool, nothing: bool, poll: real)
    | Tick(started: bool, reported: bool, live: bool)
    | Extend(seconds: real)
    | EndNow
    | DeviceGone
    | DeviceBack
    | Stop(nothing: bool)
    | Traffic(attempt: nat, entries: nat)
    | NewAttempt

  /** The open trial is over, as `t`; in a batch the next query follows. */
  function Closed(p: Pass, t: Trial, live: bool): Pass
    requires p.trials != []
  {
    var f := FinishedLast(p, t);
    if f.Running() then NextQuery(f.(batch := Some(f.batch.value.(sent := f.batch.value.sent + 1))), live)
    else f
  }

  /** `started`: the trial's own connection is up; `live`: the run's current one is. */
  function OneTick(l: Limits, p: Pass, started: bool, reported: bool, live: bool): Pass
    requires p.Heard() && p.Last().status.Watching? && p.Last().endsAt.Some?
  {
    var u := Looked(l, p.Last(), p.clock, reported);
    if p.clock < u.endsAt.value && started then p.WithLast(u) else Closed(p, u, live)
  }

  /** What cancelling the task, and then finishing what is left, makes of a trial. */
  function Cancelled(l: Limits, p: Pass, nothing: bool): Trial
    requires p.Current()
  {
    var t := p.Last();
    if t.start.None? || t.start.value.attempt >= |p.traffic| then
      if t.returnedAt.None? then t.(returnedAt := Some(p.clock)) else t
    else if t.status.Sending? then
      Returned(l, t, p.clock, p.traffic[t.start.value.attempt], true, nothing, 0.0)
    else t
  }

  function Stopped(l: Limits, p: Pass, nothing: bool): Pass {
    var f := if p.Current() then FinishedLast(p, Cancelled(l, p, nothing)) else p;
    if f.Running() then f.(batch := Some(f.batch.value.(running := false))) else f
  }

  /** One step at the time the clock shows; a refused one changes nothing. */
  function Take(l: Limits, p: Pass, s: Step): Pass {
    match s
    case Send(c, live, others) =>
      if Busy(p, others) || !live || p.traffic == [] then p else Opened(p, c, false)
    case RunQueries(qs, live, others) =>
      if Busy(p, others) || !live || qs == [] then p else p.(batch := Some(Batch(true, |qs|, 0, qs)))
    case Begin =>
      if p.Current() && p.Last().start.None? && p.traffic != [] then Begun(p) else p
    case BatchTurn(started) =>
      if p.Running() && !p.Current() then NextQuery(p, started) else p
    case Return(failed, nothing, poll) =>
      if p.Heard() && p.Last().status.Sending?
      then p.WithLast(Returned(l, p.Last(), p.clock, p.traffic[p.Last().start.value.attempt], failed, nothing, poll))
      else p
    case Tick(started, reported, live) =>
      if p.Heard() && p.Last().status.Watching? && p.Last().endsAt.Some? then OneTick(l, p, started, reported, live) else p
    case Extend(seconds) =>
      if p.Current() && Extended(l, p.Last(), seconds).Some? then p.WithLast(Extended(l, p.Last(), seconds).value) else p
    case EndNow =>
      if p.Current() && p.Last().status.Watching? then p.WithLast(EndedNow(p.Last(), p.clock)) else p
    case DeviceGone => if p.Heard() then p.WithLast(Gone(p.Last(), p.clock)) else p
    case DeviceBack => if p.Heard() then p.WithLast(Back(l, p.Last(), p.clock)) else p
    case Stop(nothing) => Stopped(l, p, nothing)
    case Traffic(a, n) => if a < |p.traffic| then p.(traffic := p.traffic[a := p.traffic[a] + n]) else p
    case NewAttempt => p.(traffic := p.traffic + [0])
  }

  // ---------------------------------------------------------------------
  // The invariant
  // ---------------------------------------------------------------------

  /** One trial at a time, numbered from 1, each sent after the one before was over. */
  predicate After(t: Trial, previous: Trial) {
    && t.sincePrevious == Some((previous.number, t.sentAt - previous.sentAt))
    && previous.status.Done? && previous.finishedAt.Some? && previous.finishedAt.value <= t.sentAt
  }

  predicate Placed(trials: seq<Trial>, i: nat)
    requires i < |trials|
  {
    && trials[i].number == i + 1
    && trials[i].attempt == 1 + Times(trials[..i], trials[i].command.name)
    && if i == 0 then trials[i].sincePrevious.None? else After(trials[i], trials[i - 1])
  }

  ghost predicate Ordered(trials: seq<Trial>) {
    forall i :: 0 <= i < |trials| ==> Placed(trials, i)
  }

  /** A trial's own place in the traffic: cut by position when its task began. */
  predicate Begins(t: Trial) {
    t.start.Some? && t.start.value.attempt == t.connectAttempt
  }

  predicate MarksOk(t: Trial, traffic: seq<nat>) {
    && t.connectAttempt < |traffic|
    && (t.endMark.Some? <==> t.status.Done?)
    && (t.returnedMark.Some? ==> t.returnedAt.Some?)
    && (t.start.None? ==> !t.status.Watching?)
    && (t.endMark.Some? ==> t.endMark.value <= traffic[t.connectAttempt])
    && (t.start.Some? ==> t.start.value.attempt < |traffic| && t.start.value.position <= traffic[t.start.value.attempt])
    && (t.start.Some? && t.returnedMark.Some? ==>
          t.start.value.position <= t.returnedMark.value <= traffic[t.start.value.attempt])
    && (Begins(t) && t.endMark.Some? ==> t.start.value.position <= t.endMark.value)
    && (Begins(t) && t.endMark.Some? && t.returnedMark.Some? ==> t.returnedMark.value <= t.endMark.value)
  }

  ghost predicate Apart(trials: seq<Trial>) {
    forall i, j :: 0 <= i < j < |trials| && trials[j].start.Some? && trials[i].endMark.Some?
                   && trials[j].start.value.attempt == trials[i].connectAttempt ==>
      trials[i].endMark.value <= trials[j].start.value.position
  }

  ghost predicate WindowsOk(trials: seq<Trial>, traffic: seq<nat>) {
    (forall i :: 0 <= i < |trials| ==> MarksOk(trials[i], traffic)) && Apart(trials)
  }

  /** While the batch runs, everything sent is its own, and its counts add up. */
  predicate BatchOk(p: Pass) {
    && (p.Current() && p.Last().batch ==> p.Running() && p.Last().start.Some?)
    && (p.Running() ==>
          var open := if p.Current() then 1 else 0;
          p.batch.value.sent + |p.batch.value.queue| + open == p.batch.value.total
          && p.batch.value.sent + open <= |p.trials|
          && forall i :: |p.trials| - p.batch.value.sent - open <= i < |p.trials| ==> p.trials[i].batch)
  }

  ghost predicate TrialsOk(l: Limits, trials: seq<Trial>, clock: real) {
    forall i :: 0 <= i < |trials| ==> TrialOk(l, trials[i], clock)
  }

  ghost predicate PassOk(l: Limits, p: Pass) {
    Ordered(p.trials) && TrialsOk(l, p.trials, p.clock) && WindowsOk(p.trials, p.traffic) && BatchOk(p)
  }

  // ---------------------------------------------------------------------
  // What changes of the last trial keep
  // ---------------------------------------------------------------------

  /** What never changes of a trial. */
  predicate SameTrial(t: Trial, u: Trial) {
    t.number == u.number && t.command == u.command && t.attempt == u.attempt && t.batch == u.batch
    && t.connectAttempt == u.connectAttempt && t.sentAt == u.sentAt && t.sincePrevious == u.sincePrevious
  }

  lemma LastOrdered(trials: seq<Trial>, u: Trial)
    requires Ordered(trials) && trials != [] && SameTrial(trials[|trials| - 1], u)
    ensures Ordered(trials[|trials| - 1 := u])
  {
    var n := |trials| - 1;
    var r := trials[n := u];
    forall i | 0 <= i <= n ensures Placed(r, i) {
      assert Placed(trials, i) && r[..i] == trials[..i];
    }
  }

  lemma AppendOrdered(trials: seq<Trial>, t: Trial)
    requires Ordered(trials) && Placed(trials + [t], |trials|)
    ensures Ordered(trials + [t])
  {
    var r := trials + [t];
    forall i | 0 <= i < |r| ensures Placed(r, i) {
      if i < |trials| {
        assert Placed(trials, i) && r[..i] == trials[..i];
      }
    }
  }

  lemma NewPlaced(trials: seq<Trial>, c: Command, batch: bool, attempt: nat, now: real)
    requires trials != [] ==>
               var last := trials[|trials| - 1];
               last.status.Done? && last.finishedAt.Some? && last.finishedAt.value <= now
    ensures Placed(trials + [NewTrial(trials, c, batch, attempt, now)], |trials|)
  {
    var r := trials + [NewTrial(trials, c, batch, attempt, now)];
    assert r[..|trials|] == trials;
  }

  lemma OpenedOrdered(l: Limits, p: Pass, c: Command, batch: bool)
    requires p.traffic != [] && Ordered(p.trials) && TrialsOk(l, p.trials, p.clock) && !p.Current()
    ensures Ordered(Opened(p, c, batch).trials)
  {
    if p.trials != [] {
      assert TrialOk(l, p.Last(), p.clock);
    }
    NewPlaced(p.trials, c, batch, |p.traffic| - 1, p.clock);
    AppendOrdered(p.trials, NewTrial(p.trials, c, batch, |p.traffic| - 1, p.clock));
  }

  lemma LastApart(trials: seq<Trial>, traffic: seq<nat>, u: Trial)
    requires WindowsOk(trials, traffic) && trials != [] && SameTrial(trials[|trials| - 1], u)
    requires MarksOk(u, traffic)
    requires u.start == trials[|trials| - 1].start
    ensures WindowsOk(trials[|trials| - 1 := u], traffic)
  {
  }

  lemma BegunApart(p: Pass)
    requires p.traffic != [] && p.trials != [] && WindowsOk(p.trials, p.traffic)
    requires p.Last().endMark.None? && p.Last().returnedMark.None?
    ensures WindowsOk(Begun(p).trials, p.traffic)
  {
    var r := Begun(p).trials;
    forall i | 0 <= i < |r| ensures MarksOk(r[i], p.traffic) {
      assert MarksOk(p.trials[i], p.traffic);
    }
    forall i, j | 0 <= i < j < |r| && r[j].start.Some? && r[i].endMark.Some?
                  && r[j].start.value.attempt == r[i].connectAttempt
      ensures r[i].endMark.value <= r[j].start.value.position
    {
      assert MarksOk(p.trials[i], p.traffic);
    }
  }

  /** The shape of a step that only moves the open trial along. */
  ghost predicate Moves(l: Limits, p: Pass, u: Trial) {
    && p.trials != [] && SameTrial(p.Last(), u) && u.start == p.Last().start
    && TrialOk(l, u, p.clock) && MarksOk(u, p.traffic)
    && (u.status.Done? <==> p.Last().status.Done?)
  }

  lemma MovedOk(l: Limits, p: Pass, u: Trial)
    requires PassOk(l, p) && Moves(l, p, u)
    ensures PassOk(l, p.WithLast(u))
  {
    LastOrdered(p.trials, u);
    LastApart(p.trials, p.traffic, u);
  }

  lemma FinishedTrial(l: Limits, t: Trial, now: real, position: nat)
    requires TrialOk(l, Finished(t, now, 0), now) && !t.status.Done?
    ensures TrialOk(l, Finished(t, now, position), now)
  {
  }

  predicate StartsOk(t: Trial, traffic: seq<nat>) {
    t.start.Some? ==>
      && t.start.value.attempt < |traffic| && t.start.value.position <= traffic[t.start.value.attempt]
      && (t.returnedMark.Some? ==> t.start.value.position <= t.returnedMark.value <= traffic[t.start.value.attempt])
  }

  lemma FinishedMarks(t: Trial, now: real, traffic: seq<nat>)
    requires t.connectAttempt < |traffic| && !t.status.Done? && t.returnedAt.Some? && StartsOk(t, traffic)
    ensures MarksOk(Finished(t, now, traffic[t.connectAttempt]), traffic)
  {
  }

  lemma FinishedOk(l: Limits, p: Pass, t: Trial)
    requires PassOk(l, p) && p.Current() && SameTrial(p.Last(), t) && t.start == p.Last().start
    requires TrialOk(l, Finished(t, p.clock, 0), p.clock) && !t.status.Done?
    requires StartsOk(t, p.traffic)
    ensures var f := FinishedLast(p, t);
            && Ordered(f.trials) && TrialsOk(l, f.trials, f.clock) && WindowsOk(f.trials, f.traffic) && !f.Current()
            && f.Last().batch == p.Last().batch
  {
    assert MarksOk(p.Last(), p.traffic);
    var u := FinishedLast(p, t).Last();
    FinishedTrial(l, t, p.clock, p.traffic[t.connectAttempt]);
    FinishedMarks(t, p.clock, p.traffic);
    LastOrdered(p.trials, u);
    LastApart(p.trials, p.traffic, u);
  }

  lemma OpenedOk(l: Limits, p: Pass, c: Command, batch: bool)
    requires p.traffic != [] && !p.Current()
    requires Ordered(p.trials) && TrialsOk(l, p.trials, p.clock) && WindowsOk(p.trials, p.traffic)
    ensures var r := Opened(p, c, batch);
            Ordered(r.trials) && TrialsOk(l, r.trials, r.clock) && WindowsOk(r.trials, r.traffic)
  {
    OpenedOrdered(l, p, c, batch);
    var t := NewTrial(p.trials, c, batch, |p.traffic| - 1, p.clock);
    assert TrialOk(l, t, p.clock) && MarksOk(t, p.traffic);
  }

  lemma BegunOk(l: Limits, p: Pass)
    requires p.traffic != [] && p.Current() && p.Last().start.None? && p.Last().returnedAt.None?
    requires p.Last().endMark.None? && p.Last().returnedMark.None?
    requires Ordered(p.trials) && TrialsOk(l, p.trials, p.clock) && WindowsOk(p.trials, p.traffic)
    ensures var r := Begun(p);
            Ordered(r.trials) && TrialsOk(l, r.trials, r.clock) && WindowsOk(r.trials, r.traffic)
  {
    LastOrdered(p.trials, Begun(p).Last());
    BegunApart(p);
    assert TrialOk(l, Begun(p).Last(), p.clock);
  }

  // ---------------------------------------------------------------------
  // Each step keeps the invariant
  // ---------------------------------------------------------------------

  lemma ClockOk(l: Limits, p: Pass, now: real)
    requires PassOk(l, p) && p.clock <= now
    ensures PassOk(l, p.(clock := now))
  {
    forall i | 0 <= i < |p.trials| ensures TrialOk(l, p.trials[i], now) {
      ClockMoves(l, p.trials[i], p.clock, now);
    }
  }

  lemma NextQueryOk(l: Limits, p: Pass, started: bool)
    requires PassOk(l, p) && p.Running() && !p.Current()
    ensures PassOk(l, NextQuery(p, started))
  {
    var b := p.batch.value;
    if b.queue != [] && started && p.traffic != [] {
      var q := p.(batch := Some(b.(queue := b.queue[1..])));
      OpenedOk(l, q, b.queue[0], true);
      BegunOk(l, Opened(q, b.queue[0], true));
    }
  }

  lemma CountedOk(p: Pass, f: Pass)
    requires BatchOk(p) && p.Current() && f.batch == p.batch && |f.trials| == |p.trials| && !f.Current()
    requires f.Last().batch == p.Last().batch
    requires forall i :: 0 <= i < |p.trials| - 1 ==> f.trials[i] == p.trials[i]
    ensures f.Running() ==> BatchOk(f.(batch := Some(f.batch.value.(sent := f.batch.value.sent + 1))))
  {
  }

  lemma GoesOnOk(l: Limits, f: Pass, live: bool)
    requires Ordered(f.trials) && TrialsOk(l, f.trials, f.clock) && WindowsOk(f.trials, f.traffic) && !f.Current()
    requires f.Running() && BatchOk(f.(batch := Some(f.batch.value.(sent := f.batch.value.sent + 1))))
    ensures PassOk(l, NextQuery(f.(batch := Some(f.batch.value.(sent := f.batch.value.sent + 1))), live))
  {
    NextQueryOk(l, f.(batch := Some(f.batch.value.(sent := f.batch.value.sent + 1))), live);
  }

  lemma TickEndsOk(l: Limits, p: Pass, u: Trial, live: bool)
    requires PassOk(l, p) && p.Current() && SameTrial(p.Last(), u) && u.start == p.Last().start
    requires TrialOk(l, u, p.clock) && u.returnedAt.Some? && !u.status.Done? && StartsOk(u, p.traffic)
    ensures PassOk(l, Closed(p, u, live))
  {
    FinishedKeeps(l, u, p.clock, 0);
    FinishedOk(l, p, u);
    var f := FinishedLast(p, u);
    CountedOk(p, f);
    if f.Running() {
      GoesOnOk(l, f, live);
    }
  }

  lemma TickOk(l: Limits, p: Pass, started: bool, reported: bool, live: bool)
    requires PassOk(l, p) && p.Heard() && p.Last().status.Watching? && p.Last().endsAt.Some?
    ensures PassOk(l, OneTick(l, p, started, reported, live))
  {
    var t := p.Last();
    var u := Looked(l, t, p.clock, reported);
    assert TrialOk(l, t, p.clock) && MarksOk(t, p.traffic);
    LookedKeeps(l, t, p.clock, reported);
    if p.clock < u.endsAt.value && started {
      MovedOk(l, p, u);
    } else {
      TickEndsOk(l, p, u, live);
    }
  }

  lemma CancelledOk(l: Limits, p: Pass, nothing: bool)
    requires PassOk(l, p) && p.Current()
    ensures var t := Cancelled(l, p, nothing);
            && SameTrial(p.Last(), t) && t.start == p.Last().start && !t.status.Done? && StartsOk(t, p.traffic)
            && TrialOk(l, Finished(t, p.clock, 0), p.clock)
  {
    var t := p.Last();
    assert TrialOk(l, t, p.clock) && MarksOk(t, p.traffic);
    if t.start.Some? {
      if t.status.Sending? {
        ReturnedKeeps(l, t, p.clock, p.traffic[t.start.value.attempt], true, nothing, 0.0);
      }
      FinishedKeeps(l, Cancelled(l, p, nothing), p.clock, 0);
    }
  }

  lemma StoppedOk(l: Limits, p: Pass, nothing: bool)
    requires PassOk(l, p)
    ensures PassOk(l, Stopped(l, p, nothing)) && !Busy(Stopped(l, p, nothing), false)
  {
    if p.Current() {
      CancelledOk(l, p, nothing);
      FinishedOk(l, p, Cancelled(l, p, nothing));
    }
  }

  lemma ReturnOk(l: Limits, p: Pass, failed: bool, nothing: bool, poll: real)
    requires PassOk(l, p) && p.Heard() && p.Last().status.Sending?
    ensures PassOk(l, Take(l, p, Return(failed, nothing, poll)))
  {
    var t, position := p.Last(), p.traffic[p.Last().start.value.attempt];
    assert TrialOk(l, t, p.clock) && MarksOk(t, p.traffic);
    ReturnedKeeps(l, t, p.clock, position, failed, nothing, poll);
    MovedOk(l, p, Returned(l, t, p.clock, position, failed, nothing, poll));
  }

  lemma ButtonOk(l: Limits, p: Pass, s: Step)
    requires PassOk(l, p) && (s.Extend? || s.EndNow?) && (s.Extend? ==> 0.0 <= s.seconds)
    ensures PassOk(l, Take(l, p, s))
  {
    if p.Current() {
      var t := p.Last();
      assert TrialOk(l, t, p.clock) && MarksOk(t, p.traffic);
      if s.EndNow? && t.status.Watching? {
        EndedNowKeeps(l, t, p.clock);
        MovedOk(l, p, EndedNow(t, p.clock));
      } else if s.Extend? && Extended(l, t, s.seconds).Some? {
        ExtendedKeeps(l, t, p.clock, s.seconds);
        MovedOk(l, p, Extended(l, t, s.seconds).value);
      }
    }
  }

  lemma GoneMoves(l: Limits, t: Trial, now: real, traffic: seq<nat>)
    requires TrialOk(l, t, now) && MarksOk(t, traffic) && !t.status.Done?
    ensures var u := Gone(t, now);
            SameTrial(t, u) && u.start == t.start && TrialOk(l, u, now) && MarksOk(u, traffic) && !u.status.Done?
  {
    GoneKeeps(l, t, now);
  }

  lemma BackLeaves(l: Limits, t: Trial, now: real)
    ensures var u := Back(l, t, now);
            SameTrial(t, u) && u == t.(drops := u.drops, back := u.back, endsAt := u.endsAt)
  {
  }

  lemma BackMoves(l: Limits, t: Trial, now: real, traffic: seq<nat>)
    requires TrialOk(l, t, now) && MarksOk(t, traffic) && !t.status.Done?
    ensures var u := Back(l, t, now);
            SameTrial(t, u) && u.start == t.start && TrialOk(l, u, now) && MarksOk(u, traffic) && !u.status.Done?
  {
    BackKeeps(l, t, now);
    BackLeaves(l, t, now);
  }

  lemma DeviceOk(l: Limits, p: Pass)
    requires PassOk(l, p) && p.Current()
    ensures PassOk(l, p.WithLast(Gone(p.Last(), p.clock)))
    ensures PassOk(l, p.WithLast(Back(l, p.Last(), p.clock)))
  {
    var t := p.Last();
    GoneMoves(l, t, p.clock, p.traffic);
    BackMoves(l, t, p.clock, p.traffic);
    MovedOk(l, p, Gone(t, p.clock));
    MovedOk(l, p, Back(l, t, p.clock));
  }

  lemma TrafficOk(trials: seq<Trial>, traffic: seq<nat>, more: seq<nat>)
    requires WindowsOk(trials, traffic) && |traffic| <= |more|
    requires forall a :: 0 <= a < |traffic| ==> traffic[a] <= more[a]
    ensures WindowsOk(trials, more)
  {
    forall i | 0 <= i < |trials| ensures MarksOk(trials[i], more) {
      assert MarksOk(trials[i], traffic);
    }
  }

  lemma BeginOk(l: Limits, p: Pass)
    requires PassOk(l, p)
    ensures PassOk(l, Take(l, p, Begin))
  {
    if p.Current() && p.Last().start.None? && p.traffic != [] {
      assert TrialOk(l, p.Last(), p.clock) && MarksOk(p.Last(), p.traffic);
      BegunOk(l, p);
    }
  }

  lemma SendOk(l: Limits, p: Pass, s: Step)
    requires PassOk(l, p) && (s.Send? || s.RunQueries?)
    ensures PassOk(l, Take(l, p, s))
  {
    if s.Send? && !Busy(p, s.others) && p.traffic != [] {
      OpenedOk(l, p, s.command, false);
    }
  }

  lemma StepOk(l: Limits, p: Pass, s: Step)
    requires PassOk(l, p) && (s.Extend? ==> 0.0 <= s.seconds)
    ensures PassOk(l, Take(l, p, s))
  {
    match s
    case Send(_, _, _) => SendOk(l, p, s);
    case RunQueries(_, _, _) => SendOk(l, p, s);
    case Begin => BeginOk(l, p);
    case BatchTurn(started) => if p.Running() && !p.Current() { NextQueryOk(l, p, started); }
    case Return(failed, nothing, poll) =>
      if p.Heard() && p.Last().status.Sending? { ReturnOk(l, p, failed, nothing, poll); }
    case Tick(started, reported, live) =>
      if p.Heard() && p.Last().status.Watching? && p.Last().endsAt.Some? { TickOk(l, p, started, reported, live); }
    case Extend(_) => ButtonOk(l, p, s);
    case EndNow => ButtonOk(l, p, s);
    case DeviceGone => if p.Heard() { DeviceOk(l, p); }
    case DeviceBack => if p.Heard() { DeviceOk(l, p); }
    case Stop(nothing) => StoppedOk(l, p, nothing);
    case Traffic(_, _) => TrafficOk(p.trials, p.traffic, Take(l, p, s).traffic);
    case NewAttempt => TrafficOk(p.trials, p.traffic, p.traffic + [0]);
  }

  // ---------------------------------------------------------------------
  // Every run
  // ---------------------------------------------------------------------

  datatype Timed = At(now: real, step: Step)

  function TakeAt(l: Limits, p: Pass, e: Timed): Pass {
    Take(l, p.(clock := e.now), e.step)
  }

  function Run(l: Limits, p: Pass, events: seq<Timed>): Pass
    decreases |events|
  {
    if events == [] then p else Run(l, TakeAt(l, p, events[0]), events[1..])
  }

  /** The clock does not go back, and nobody asks to wait a negative time. */
  ghost predicate Possible(events: seq<Timed>, from: real) {
    && (forall i :: 0 <= i < |events| ==> from <= events[i].now)
    && (forall i, j :: 0 <= i < j < |events| ==> events[i].now <= events[j].now)
    && (forall e <- events :: e.step.Extend? ==> 0.0 <= e.step.seconds)
  }

  const NEW_PASS := Pass([], None, [], 0.0)

  /** From any state that is well formed, every run leads to one: one trial open at a
      time, numbered without a hole, drops and returns alternating, ends inside the
      cap, windows apart, batch counts adding up. */
  lemma {:induction false} EveryRunKeeps(l: Limits, p: Pass, events: seq<Timed>)
    requires PassOk(l, p) && Possible(events, p.clock)
    ensures PassOk(l, Run(l, p, events))
    decreases |events|
  {
    if events != [] {
      assert events[0] in events;
      ClockOk(l, p, events[0].now);
      StepOk(l, p.(clock := events[0].now), events[0].step);
      var q := TakeAt(l, p, events[0]);
      StepClock(l, p.(clock := events[0].now), events[0].step);
      assert forall e <- events[1..] :: e in events;
      EveryRunKeeps(l, q, events[1..]);
    }
  }

  lemma StepClock(l: Limits, p: Pass, s: Step)
    ensures Take(l, p, s).clock == p.clock
  {
  }

  lemma RunsFromNothing(l: Limits, events: seq<Timed>)
    requires Possible(events, 0.0)
    ensures PassOk(l, Run(l, NEW_PASS, events))
  {
    EveryRunKeeps(l, NEW_PASS, events);
  }

  // ---------------------------------------------------------------------
  // When a window closes, and what it holds
  // ---------------------------------------------------------------------

  /** A turn of the watching loop closes the window exactly when the connection has
      stopped, the end has come, or the usual window is over and the value the command
      was still watched for has been read back, nobody having asked to wait longer. It
      then ends at all its connection has carried. */
  lemma TickCloses(l: Limits, p: Pass, started: bool, reported: bool, live: bool)
    requires p.Heard() && p.Last().status.Watching? && p.Last().endsAt.Some? && p.Last().connectAttempt < |p.traffic|
    ensures var t, n := p.Last(), |p.trials| - 1;
            var r := OneTick(l, p, started, reported, live);
            && n < |r.trials|
            && (r.trials[n].status.Done? <==>
                  || !started || p.clock >= t.endsAt.value
                  || (t.waiting && t.extended == 0.0 && reported
                      && t.returnedAt.Some? && p.clock >= t.returnedAt.value + l.window))
            && (r.trials[n].status.Done? ==>
                  r.trials[n].endMark == Some(p.traffic[t.connectAttempt]) && r.trials[n].finishedAt == Some(p.clock))
  {
  }

  /** "Stop watching": the next turn of the loop closes the window. */
  lemma EndNowCloses(l: Limits, p: Pass, now: real, started: bool, reported: bool, live: bool)
    requires p.Heard() && p.Last().status.Watching? && p.Last().connectAttempt < |p.traffic| && p.clock <= now
    ensures var q := Take(l, p, EndNow).(clock := now);
            && q.Heard() && q.Last().stoppedEarly
            && OneTick(l, q, started, reported, live).trials[|p.trials| - 1].status.Done?
  {
    TickCloses(l, Take(l, p, EndNow).(clock := now), started, reported, live);
  }

  /** How many entries these events bring to one connection. */
  function Arrived(events: seq<Timed>, a: nat): nat {
    if events == [] then 0
    else
      var s := events[|events| - 1].step;
      Arrived(events[..|events| - 1], a) + if s.Traffic? && s.attempt == a then s.entries else 0
  }

  /** What a step does to the trial at `n`, begun on its own connection: while it is open
      the step leaves its start, once it is over nothing changes it, and the step that
      ends it marks the end of all that connection has carried. */
  ghost predicate Leaves(p: Pass, r: Pass, n: nat)
    requires n < |p.trials| && p.trials[n].connectAttempt < |p.traffic|
  {
    var t := p.trials[n];
    && n < |r.trials| && (n < |r.trials| - 1 ==> r.trials[n].status.Done?)
    && r.trials[n].start == t.start && r.trials[n].connectAttempt == t.connectAttempt
    && (t.status.Done? ==> r.trials[n] == t)
    && (!t.status.Done? && r.trials[n].status.Done? ==>
          r.trials[n].endMark == Some(p.traffic[t.connectAttempt]) && r.traffic == p.traffic)
  }

  lemma NextQueryKeeps(p: Pass, started: bool, n: nat)
    requires p.Running() && n < |p.trials|
    ensures var r := NextQuery(p, started);
            |p.trials| <= |r.trials| && r.trials[n] == p.trials[n] && r.traffic == p.traffic
  {
  }

  lemma FinishedLeaves(p: Pass, u: Trial)
    requires p.Current() && !u.status.Done? && u.start == p.Last().start
    requires u.connectAttempt == p.Last().connectAttempt
    ensures var f := FinishedLast(p, u);
            && |f.trials| == |p.trials| && f.trials[|p.trials| - 1].status.Done?
            && f.traffic == p.traffic && f.batch == p.batch
            && (u.connectAttempt < |p.traffic| ==> Leaves(p, f, |p.trials| - 1))
            && forall i :: 0 <= i < |p.trials| - 1 ==> f.trials[i] == p.trials[i]
  {
  }

  lemma LookedKeepsPlace(l: Limits, t: Trial, now: real, reported: bool)
    ensures var u := Looked(l, t, now, reported);
            u.start == t.start && u.connectAttempt == t.connectAttempt && u.status == t.status
  {
  }

  lemma WatchedLeaves(p: Pass, u: Trial, n: nat)
    requires p.Current() && n < |p.trials| && p.trials[n].connectAttempt < |p.traffic|
    requires n < |p.trials| - 1 ==> p.trials[n].status.Done?
    requires u.start == p.Last().start && u.connectAttempt == p.Last().connectAttempt && !u.status.Done?
    ensures Leaves(p, p.WithLast(u), n)
  {
  }

  lemma ClosedLeaves(p: Pass, u: Trial, live: bool, n: nat)
    requires p.Current() && n < |p.trials| && p.trials[n].connectAttempt < |p.traffic|
    requires n < |p.trials| - 1 ==> p.trials[n].status.Done?
    requires u.start == p.Last().start && u.connectAttempt == p.Last().connectAttempt && !u.status.Done?
    ensures Leaves(p, Closed(p, u, live), n)
  {
    FinishedLeaves(p, u);
    var f := FinishedLast(p, u);
    assert Leaves(p, f, n) && f.trials[n].status.Done?;
    if f.Running() {
      NextQueryKeeps(f.(batch := Some(f.batch.value.(sent := f.batch.value.sent + 1))), live, n);
    }
  }

  /** A turn of the loop, for the trial it watches and for the earlier ones. */
  lemma TickLeaves(l: Limits, p: Pass, started: bool, reported: bool, live: bool, n: nat)
    requires n < |p.trials| && p.Heard() && p.Last().status.Watching? && p.Last().endsAt.Some?
    requires p.trials[n].connectAttempt < |p.traffic|
    requires n < |p.trials| - 1 ==> p.trials[n].status.Done?
    ensures Leaves(p, OneTick(l, p, started, reported, live), n)
  {
    var t, now := p.Last(), p.clock;
    var u := Looked(l, t, now, reported);
    LookedKeepsPlace(l, t, now, reported);
    assert !u.status.Done?;
    if now < u.endsAt.value && started {
      WatchedLeaves(p, u, n);
    } else {
      ClosedLeaves(p, u, live, n);
    }
  }

  lemma CancelledKeepsPlace(l: Limits, p: Pass, nothing: bool)
    requires p.Current()
    ensures var u := Cancelled(l, p, nothing);
            u.start == p.Last().start && u.connectAttempt == p.Last().connectAttempt && !u.status.Done?
  {
  }

  lemma StopLeaves(l: Limits, p: Pass, nothing: bool, n: nat)
    requires n < |p.trials| && p.trials[n].connectAttempt < |p.traffic|
    requires n < |p.trials| - 1 ==> p.trials[n].status.Done?
    ensures Leaves(p, Stopped(l, p, nothing), n)
  {
    if p.Current() {
      CancelledKeepsPlace(l, p, nothing);
      FinishedLeaves(p, Cancelled(l, p, nothing));
    }
  }

  lemma OpenLeaves(l: Limits, p: Pass, s: Step, n: nat)
    requires s.Return? || s.Extend? || s.EndNow? || s.DeviceGone? || s.DeviceBack?
    requires n < |p.trials| && p.trials[n].connectAttempt < |p.traffic|
    requires n < |p.trials| - 1 ==> p.trials[n].status.Done?
    ensures Leaves(p, Take(l, p, s), n)
  {
    if n < |p.trials| - 1 {
      assert Take(l, p, s).trials[n] == p.trials[n];
    }
  }

  lemma StepLeaves(l: Limits, p: Pass, s: Step, n: nat)
    requires n < |p.trials| && Begins(p.trials[n]) && p.trials[n].connectAttempt < |p.traffic|
    requires n < |p.trials| - 1 ==> p.trials[n].status.Done?
    ensures Leaves(p, Take(l, p, s), n)
  {
    match s
    case Tick(started, reported, live) =>
      if p.Heard() && p.Last().status.Watching? && p.Last().endsAt.Some? { TickLeaves(l, p, started, reported, live, n); }
    case Stop(nothing) => StopLeaves(l, p, nothing, n);
    case BatchTurn(started) => if p.Running() && !p.Current() { NextQueryKeeps(p, started, n); }
    case Send(_, _, _) =>
    case RunQueries(_, _, _) =>
    case Begin =>
    case Traffic(_, _) =>
    case NewAttempt =>
    case _ => OpenLeaves(l, p, s, n);
  }

  lemma StepBrings(l: Limits, p: Pass, s: Step, a: nat)
    requires a < |p.traffic|
    ensures var r := Take(l, p, s);
            a < |r.traffic| && r.traffic[a] == p.traffic[a] + if s.Traffic? && s.attempt == a then s.entries else 0
  {
  }

  lemma {:induction false} RunOneMore(l: Limits, p: Pass, events: seq<Timed>, e: Timed)
    ensures Run(l, p, events + [e]) == TakeAt(l, Run(l, p, events), e)
    decreases |events|
  {
    if events == [] {
      assert [e][1..] == [] && events + [e] == [e];
    } else {
      assert (events + [e])[1..] == events[1..] + [e];
      RunOneMore(l, TakeAt(l, p, events[0]), events[1..], e);
    }
  }

  /** Where the trial at `n` stands once the connection `a` has carried `had` entries
      more than it had carried when the trial had begun at `start`. */
  predicate Stands(q: Pass, n: nat, start: Option<Mark>, a: nat, had: nat) {
    && n < |q.trials| && a < |q.traffic| && q.traffic[a] == had
    && q.trials[n].start == start && q.trials[n].connectAttempt == a
    && (n < |q.trials| - 1 ==> q.trials[n].status.Done?)
  }

  lemma StandsOneMore(l: Limits, q: Pass, s: Step, n: nat, start: Option<Mark>, a: nat, had: nat)
    requires Stands(q, n, start, a, had) && start.Some? && start.value.attempt == a
    ensures var r := Take(l, q, s);
            && Stands(r, n, start, a, had + if s.Traffic? && s.attempt == a then s.entries else 0)
            && (q.trials[n].status.Done? ==> r.trials[n] == q.trials[n])
            && (!q.trials[n].status.Done? && r.trials[n].status.Done? ==> r.trials[n].endMark == Some(had))
  {
    StepLeaves(l, q, s, n);
    StepBrings(l, q, s, a);
  }

  /** The trial was over after event `k` and not before it, and its end is at all that
      had arrived by then. */
  ghost predicate EndsAfter(l: Limits, p: Pass, events: seq<Timed>, n: nat, k: nat, end: Option<nat>)
    requires n < |p.trials| && p.trials[n].connectAttempt < |p.traffic|
  {
    && k < |events|
    && var before, after, a := Run(l, p, events[..k]), Run(l, p, events[..k + 1]), p.trials[n].connectAttempt;
       && n < |before.trials| && !before.trials[n].status.Done?
       && n < |after.trials| && after.trials[n].status.Done?
       && end == Some(p.traffic[a] + Arrived(events[..k], a))
  }

  lemma EndsAfterGrows(l: Limits, p: Pass, front: seq<Timed>, e: Timed, n: nat, k: nat, end: Option<nat>)
    requires n < |p.trials| && p.trials[n].connectAttempt < |p.traffic| && EndsAfter(l, p, front, n, k, end)
    ensures EndsAfter(l, p, front + [e], n, k, end)
  {
    assert (front + [e])[..k] == front[..k] && (front + [e])[..k + 1] == front[..k + 1];
  }

  /** Where a run leaves the trial at `n`, and how its window ended if it did. */
  ghost predicate Held(l: Limits, p: Pass, events: seq<Timed>, n: nat)
    requires n < |p.trials| && p.trials[n].connectAttempt < |p.traffic|
  {
    var q, a := Run(l, p, events), p.trials[n].connectAttempt;
    && Stands(q, n, p.trials[n].start, a, p.traffic[a] + Arrived(events, a))
    && (q.trials[n].status.Done? ==> exists k: nat :: EndsAfter(l, p, events, n, k, q.trials[n].endMark))
  }

  lemma HeldOneMore(l: Limits, p: Pass, front: seq<Timed>, e: Timed, n: nat)
    requires n < |p.trials| && Begins(p.trials[n]) && p.trials[n].connectAttempt < |p.traffic| && Held(l, p, front, n)
    ensures Held(l, p, front + [e], n)
  {
    var events, a := front + [e], p.trials[n].connectAttempt;
    RunOneMore(l, p, front, e);
    var q, r := Run(l, p, front), Run(l, p, events);
    StandsOneMore(l, q.(clock := e.now), e.step, n, p.trials[n].start, a, p.traffic[a] + Arrived(front, a));
    assert events[..|front|] == front && events[..|front| + 1] == events;
    if q.trials[n].status.Done? {
      var k: nat :| EndsAfter(l, p, front, n, k, q.trials[n].endMark);
      EndsAfterGrows(l, p, front, e, n, k, q.trials[n].endMark);
    } else if r.trials[n].status.Done? {
      assert EndsAfter(l, p, events, n, |front|, r.trials[n].endMark);
    }
  }

  /** Through any events, the window of a trial begun on its own connection holds
      exactly what arrived there from then until the event that ended it. */
  lemma {:induction false} WindowHoldsWhatArrived(l: Limits, p: Pass, events: seq<Timed>, n: nat)
    requires p.Current() && n == |p.trials| - 1 && Begins(p.trials[n]) && p.trials[n].connectAttempt < |p.traffic|
    ensures Held(l, p, events, n)
    decreases |events|
  {
    if events != [] {
      var m := |events| - 1;
      WindowHoldsWhatArrived(l, p, events[..m], n);
      HeldOneMore(l, p, events[..m], events[m], n);
      assert events == events[..m] + [events[m]];
    }
  }

  /** The places among these trials of one command. */
  function SentAs(trials: seq<Trial>, name: string): set<nat> {
    set i: nat | i < |trials| && trials[i].command.name == name
  }

  lemma SentAsOneMore(trials: seq<Trial>, t: Trial, name: string)
    ensures SentAs(trials + [t], name) == SentAs(trials, name) + if t.command.name == name then {|trials|} else {}
  {
    var r := trials + [t];
    forall i: nat ensures i in SentAs(r, name) <==> i in SentAs(trials, name) || (i == |trials| && t.command.name == name) {
      if i < |trials| {
        assert r[i] == trials[i];
      }
    }
  }

  lemma {:induction false} TimesCounts(trials: seq<Trial>, name: string)
    ensures Times(trials, name) == |SentAs(trials, name)|
  {
    if trials != [] {
      var n := |trials| - 1;
      TimesCounts(trials[..n], name);
      SentAsOneMore(trials[..n], trials[n], name);
      assert trials[..n] + [trials[n]] == trials;
    }
  }

  /** Whether an entry of the connection's traffic is in a command's window. */
  predicate InWindow(t: Trial, entry: nat) {
    && (t.start.Some? ==> t.start.value.position <= entry)
    && (t.endMark.Some? ==> entry < t.endMark.value)
  }

  /** Two commands' windows on one connection share no traffic entry, so what is in a
      window belongs to that command and to nothing sent after it. */
  lemma WindowsShareNothing(l: Limits, events: seq<Timed>, i: nat, j: nat, entry: nat)
    requires Possible(events, 0.0)
    requires var trials := Run(l, NEW_PASS, events).trials;
             i < j < |trials| && trials[i].connectAttempt == trials[j].connectAttempt && Begins(trials[j])
    ensures var trials := Run(l, NEW_PASS, events).trials;
            !(InWindow(trials[i], entry) && InWindow(trials[j], entry))
  {
    RunsFromNothing(l, events);
    var p := Run(l, NEW_PASS, events);
    assert Placed(p.trials, i + 1) && After(p.trials[i + 1], p.trials[i]);
    assert MarksOk(p.trials[i], p.traffic);
  }

  /** Why the later command must have begun: one stopped before its task ran has no
      start, and is given all the traffic its connection ever carried. */
  lemma StoppedBeforeItBegan(l: Limits, p: Pass, nothing: bool, entry: nat)
    requires PassOk(l, p) && p.Current() && p.Last().start.None?
    requires entry < p.traffic[p.Last().connectAttempt]
    ensures InWindow(Stopped(l, p, nothing).Last(), entry)
  {
    assert MarksOk(p.Last(), p.traffic);
  }
}
