/** The audit's command windows: one command at a time is sent and watched, and the
    end of its window can move while the device comes and goes. Times are readings of
    a clock that does not go back. */
module CommandPass {
  import opened Text

  const REPLY_WINDOW := 2.0

  datatype LimitValues = Limits(
    window: real, queryWindow: real, maxWindow: real, restartMargin: real, afterReconnect: real)
  {
    predicate Sane() {
      0.0 <= queryWindow <= window <= maxWindow && 0.0 <= afterReconnect < restartMargin
    }
  }

  const SHIPPED := Limits(10.0, REPLY_WINDOW, 120.0, 60.0, 10.0)
  type Limits = l: LimitValues | l.Sane() witness SHIPPED

  /** What the catalog says of a command: `restarts_device_for` (a whole number, 0 for
      none) and whether it declares what it sets. */
  datatype Command = Command(name: string, restartsFor: int, sets: bool)

  datatype Status = Sending | Watching | Done

  /** One time the device went, and when it was back. */
  datatype Drop = Drop(gone: real, back: Option<real>)

  /** A place in the traffic of one connection attempt. */
  datatype Mark = Mark(attempt: nat, position: nat)

  datatype Trial = Trial(
    number: nat, command: Command, attempt: nat, batch: bool, connectAttempt: nat,
    sentAt: real, sincePrevious: Option<(nat, real)>,
    status: Status, returnedAt: Option<real>, endsAt: Option<real>, finishedAt: Option<real>,
    failed: bool, extended: real, stoppedEarly: bool, waiting: bool,
    wentAway: Option<real>, back: Option<real>, drops: seq<Drop>,
    start: Option<Mark>, returnedMark: Option<nat>, endMark: Option<nat>)

  function Max(a: real, b: real): real { if a < b then b else a }
  function Min(a: real, b: real): real { if b < a then b else a }

  function RestartSpan(l: Limits, t: Trial): real {
    if t.command.restartsFor != 0 then t.command.restartsFor as real + l.restartMargin else 0.0
  }

  /** `poll` is the driver's poll interval, 0 for none. */
  function ReadbackSpan(l: Limits, t: Trial, poll: real): real {
    if !t.command.sets || poll <= 0.0 then 0.0 else Min(poll + REPLY_WINDOW, l.maxWindow)
  }

  function UsualSpan(l: Limits, t: Trial): real {
    if t.batch then l.queryWindow else l.window
  }

  function Since(t: Trial): real {
    if t.returnedAt.Some? then t.returnedAt.value else t.sentAt
  }

  /** The furthest "Wait longer" may take a window. */
  function Cap(l: Limits, t: Trial): real {
    Since(t) + Max(l.maxWindow, RestartSpan(l, t))
  }

  // ---------------------------------------------------------------------
  // What one event does to a trial
  // ---------------------------------------------------------------------

  /** The driver's call returned or raised; `nothing` says no byte had left. */
  function Returned(l: Limits, t: Trial, now: real, position: nat, failed: bool, nothing: bool, poll: real): Trial {
    var usual := UsualSpan(l, t);
    var readback := if t.batch then 0.0 else ReadbackSpan(l, t, poll);
    var span := if !failed then Max(Max(usual, RestartSpan(l, t)), readback)
                else if nothing then 0.0 else usual;
    t.(returnedAt := Some(now), returnedMark := Some(position), failed := failed,
       endsAt := Some(now + span), status := Watching,
       waiting := !t.batch && !failed && RestartSpan(l, t) == 0.0 && readback > l.window)
  }

  /** "Wait longer"; none where it is refused. */
  function Extended(l: Limits, t: Trial, seconds: real): Option<Trial> {
    if !t.status.Watching? || t.endsAt.None? || t.endsAt.value >= Cap(l, t) - 0.001 then None
    else
      var end := Min(t.endsAt.value + seconds, Cap(l, t));
      Some(t.(extended := t.extended + (end - t.endsAt.value), endsAt := Some(end)))
  }

  function EndedNow(t: Trial, now: real): Trial {
    t.(stoppedEarly := true, endsAt := Some(now))
  }

  function GoneDrops(drops: seq<Drop>, now: real): seq<Drop> {
    if drops == [] || drops[|drops| - 1].back.Some? then drops + [Drop(now, None)] else drops
  }

  function BackDrops(drops: seq<Drop>, now: real): seq<Drop>
    requires drops != []
  {
    var n := |drops| - 1;
    if drops[n].back.None? then drops[n := Drop(drops[n].gone, Some(now))] else drops
  }

  function Gone(t: Trial, now: real): Trial {
    if t.status.Done? then t
    else t.(wentAway := if t.wentAway.None? then Some(now) else t.wentAway, drops := GoneDrops(t.drops, now))
  }

  /** The first time the driver is back, a restarting command's window shortens. */
  function BackEnd(l: Limits, t: Trial, now: real): Option<real> {
    if t.back.None? && t.command.restartsFor != 0 && t.endsAt.Some?
    then Some(Min(t.endsAt.value, now + l.afterReconnect))
    else t.endsAt
  }

  function Back(l: Limits, t: Trial, now: real): Trial {
    if t.status.Done? || t.drops == [] then t
    else t.(drops := BackDrops(t.drops, now), back := if t.back.Some? then t.back else Some(now),
            endsAt := BackEnd(l, t, now))
  }

  /** A look at the window between two sleeps: a value read back (`reported`) ends
      one held past its usual end for that. */
  function Looked(l: Limits, t: Trial, now: real, reported: bool): Trial {
    if t.waiting && t.extended == 0.0 && t.returnedAt.Some? && now >= t.returnedAt.value + l.window && reported
    then t.(endsAt := Some(now), waiting := false)
    else t
  }

  /** `_finish`. */
  function Finished(t: Trial, now: real, position: nat): Trial {
    if t.status.Done? then t
    else t.(finishedAt := Some(now), endMark := Some(position), status := Done)
  }

  /** Finishing again, whenever, changes nothing: the record of the first stands. */
  lemma FinishingIsIdempotent(t: Trial, now: real, position: nat, later: real, further: nat)
    ensures Finished(Finished(t, now, position), later, further) == Finished(t, now, position)
  {
  }

  // ---------------------------------------------------------------------
  // What stays true of a trial
  // ---------------------------------------------------------------------

  /** Drops and returns alternate in time order; only the last drop can be open. */
  ghost predicate DropsOk(drops: seq<Drop>, from: real, clock: real) {
    && (forall i :: 0 <= i < |drops| ==>
          from <= drops[i].gone <= clock
          && (drops[i].back.Some? ==> drops[i].gone <= drops[i].back.value <= clock)
          && (i < |drops| - 1 ==> drops[i].back.Some?))
    && (forall i, j :: 0 <= i < j < |drops| && drops[i].back.Some? ==> drops[i].back.value <= drops[j].gone)
  }

  predicate FirstsOk(t: Trial) {
    && t.wentAway == (if t.drops == [] then None else Some(t.drops[0].gone))
    && t.back == (if t.drops == [] then None else t.drops[0].back)
  }

  predicate TimesOk(t: Trial, clock: real) {
    && t.sentAt <= clock && 0.0 <= t.extended
    && (t.returnedAt.None? <==> t.status.Sending?) && (t.finishedAt.Some? <==> t.status.Done?)
    && (t.returnedAt.Some? ==> t.sentAt <= t.returnedAt.value <= clock)
    && (t.finishedAt.Some? ==> Since(t) <= t.finishedAt.value <= clock)
    && (t.status.Sending? ==> t.endsAt.None?) && (t.status.Watching? ==> t.endsAt.Some?)
  }

  /** A window's end is inside the cap, unless it is already past. */
  predicate EndOk(l: Limits, t: Trial, clock: real) {
    t.endsAt.Some? ==> t.endsAt.value <= Cap(l, t) || t.endsAt.value <= clock
  }

  predicate Undisturbed(t: Trial) {
    !t.failed && !t.stoppedEarly && (t.command.restartsFor == 0 || t.back.None?)
  }

  /** A window nothing cut short runs for its usual span at least, and a restarting
      command's for its declared time and the margin. */
  predicate SpanOk(l: Limits, t: Trial) {
    t.endsAt.Some? && t.returnedAt.Some? && Undisturbed(t) ==>
      && t.endsAt.value >= t.returnedAt.value + (if t.batch then l.queryWindow else l.window)
      && (t.command.restartsFor != 0 ==>
            t.endsAt.value >= t.returnedAt.value + t.command.restartsFor as real + l.restartMargin)
  }

  predicate WaitOk(l: Limits, t: Trial) {
    t.waiting ==>
      && !t.batch && t.returnedAt.Some?
      && (t.command.restartsFor == 0 || t.command.restartsFor as real + l.restartMargin == 0.0)
  }

  ghost predicate TrialOk(l: Limits, t: Trial, clock: real) {
    && TimesOk(t, clock) && EndOk(l, t, clock) && SpanOk(l, t) && WaitOk(l, t)
    && DropsOk(t.drops, t.sentAt, clock) && FirstsOk(t)
  }

  lemma ClockMoves(l: Limits, t: Trial, clock: real, now: real)
    requires TrialOk(l, t, clock) && clock <= now
    ensures TrialOk(l, t, now)
  {
  }

  lemma ReturnedKeeps(l: Limits, t: Trial, now: real, position: nat, failed: bool, nothing: bool, poll: real)
    requires TrialOk(l, t, now) && t.status.Sending?
    ensures TrialOk(l, Returned(l, t, now, position, failed, nothing, poll), now)
    ensures Returned(l, t, now, position, failed, nothing, poll).endsAt.value <=
            Cap(l, Returned(l, t, now, position, failed, nothing, poll))
  {
  }

  lemma ExtendedKeeps(l: Limits, t: Trial, clock: real, seconds: real)
    requires TrialOk(l, t, clock) && 0.0 <= seconds
    ensures Extended(l, t, seconds).Some? ==>
              var u := Extended(l, t, seconds).value;
              TrialOk(l, u, clock) && t.endsAt.value <= u.endsAt.value <= Cap(l, u) && Cap(l, u) == Cap(l, t)
  {
  }

  lemma EndedNowKeeps(l: Limits, t: Trial, now: real)
    requires TrialOk(l, t, now) && t.status.Watching?
    ensures TrialOk(l, EndedNow(t, now), now)
  {
  }

  lemma GoneDropsOk(drops: seq<Drop>, from: real, now: real)
    requires DropsOk(drops, from, now) && from <= now
    ensures DropsOk(GoneDrops(drops, now), from, now)
  {
  }

  lemma BackDropsOk(drops: seq<Drop>, from: real, now: real)
    requires DropsOk(drops, from, now) && drops != []
    ensures DropsOk(BackDrops(drops, now), from, now)
  {
    var r, n := BackDrops(drops, now), |drops| - 1;
    forall i, j | 0 <= i < j < |r| && r[i].back.Some? ensures r[i].back.value <= r[j].gone {
      assert drops[i].back.Some? && r[i] == drops[i] && r[j].gone == drops[j].gone;
    }
    forall i | 0 <= i < |r|
      ensures from <= r[i].gone <= now && (r[i].back.Some? ==> r[i].gone <= r[i].back.value <= now)
      ensures i < |r| - 1 ==> r[i].back.Some?
    {
      assert r[i].gone == drops[i].gone;
    }
  }

  lemma GoneKeeps(l: Limits, t: Trial, now: real)
    requires TrialOk(l, t, now)
    ensures TrialOk(l, Gone(t, now), now)
  {
    if !t.status.Done? {
      GoneDropsOk(t.drops, t.sentAt, now);
      var u := Gone(t, now);
      assert TimesOk(u, now) && EndOk(l, u, now);
      assert FirstsOk(u);
    }
  }

  lemma BackFirsts(l: Limits, t: Trial, now: real)
    requires DropsOk(t.drops, t.sentAt, now) && FirstsOk(t)
    ensures FirstsOk(Back(l, t, now))
  {
    if t.drops != [] && t.back.None? {
      assert |t.drops| == 1;
    }
  }

  lemma BackEnds(l: Limits, t: Trial, now: real)
    requires TimesOk(t, now) && EndOk(l, t, now) && SpanOk(l, t) && WaitOk(l, t)
    ensures var u := Back(l, t, now);
            TimesOk(u, now) && EndOk(l, u, now) && SpanOk(l, u) && WaitOk(l, u)
  {
    assert Cap(l, Back(l, t, now)) == Cap(l, t);
  }

  lemma BackKeeps(l: Limits, t: Trial, now: real)
    requires TrialOk(l, t, now)
    ensures TrialOk(l, Back(l, t, now), now)
  {
    if !t.status.Done? && t.drops != [] {
      BackDropsOk(t.drops, t.sentAt, now);
      BackFirsts(l, t, now);
      BackEnds(l, t, now);
      assert Back(l, t, now).drops == BackDrops(t.drops, now);
    }
  }

  lemma LookedKeeps(l: Limits, t: Trial, now: real, reported: bool)
    requires TrialOk(l, t, now)
    ensures TrialOk(l, Looked(l, t, now, reported), now)
  {
  }

  lemma FinishedKeeps(l: Limits, t: Trial, now: real, position: nat)
    requires TrialOk(l, t, now) && t.returnedAt.Some?
    ensures TrialOk(l, Finished(t, now, position), now)
  {
  }

  // ---------------------------------------------------------------------
  // Away and back
  // ---------------------------------------------------------------------

  /** The device is away by the record: its last drop is still open. */
  predicate Away(t: Trial) {
    t.drops != [] && t.drops[|t.drops| - 1].back.None?
  }

  /** While a trial is open, a drop is recorded when the device goes and was not away,
      and closed when it is back and was; nothing recorded earlier changes, and the
      first going and the first return are kept apart. */
  lemma ComingsAndGoings(l: Limits, t: Trial, now: real)
    requires !t.status.Done? && FirstsOk(t) && (forall i :: 0 <= i < |t.drops| - 1 ==> t.drops[i].back.Some?)
    ensures var u := Gone(t, now);
            && Away(u) && FirstsOk(u) && t.drops <= u.drops && u.endsAt == t.endsAt
            && (if Away(t) then u.drops == t.drops else |u.drops| == |t.drops| + 1 && u.drops[|t.drops|].gone == now)
    ensures var u := Back(l, t, now);
            && !Away(u) && FirstsOk(u) && |u.drops| == |t.drops|
            && (forall i :: 0 <= i < |t.drops| ==> u.drops[i].gone == t.drops[i].gone)
            && (forall i :: 0 <= i < |t.drops| && t.drops[i].back.Some? ==> u.drops[i] == t.drops[i])
            && (Away(t) ==> u.drops[|t.drops| - 1].back == Some(now))
            && (!Away(t) && t.back.Some? ==> u == t)
  {
  }

  // ---------------------------------------------------------------------
  // Wait longer, and the end of a restart
  // ---------------------------------------------------------------------

  /** Any number of presses, each refused or not. */
  function Pressed(l: Limits, t: Trial, presses: seq<real>): Trial {
    if presses == [] then t
    else
      var u := Pressed(l, t, presses[..|presses| - 1]);
      var e := Extended(l, u, presses[|presses| - 1]);
      if e.Some? then e.value else u
  }

  function Total(presses: seq<real>): real {
    if presses == [] then 0.0 else Total(presses[..|presses| - 1]) + presses[|presses| - 1]
  }

  /** However often it is pressed, "Wait longer" never moves an end past the cap,
      and short of the cap's last millisecond it adds exactly what was asked for. */
  lemma {:induction false} PressesReachTheCapAtMost(l: Limits, t: Trial, presses: seq<real>)
    requires t.status.Watching? && t.endsAt.Some? && forall s <- presses :: 0.0 <= s
    ensures var u := Pressed(l, t, presses);
            && u == t.(endsAt := u.endsAt, extended := u.extended) && u.endsAt.Some?
            && Cap(l, u) == Cap(l, t)
            && t.endsAt.value <= u.endsAt.value <= Max(t.endsAt.value, Cap(l, t))
            && u.extended - t.extended == u.endsAt.value - t.endsAt.value
            && (u.endsAt.value < Cap(l, t) - 0.001 ==> u.endsAt.value == t.endsAt.value + Total(presses))
  {
    if presses != [] {
      var before := presses[..|presses| - 1];
      assert presses[|presses| - 1] in presses;
      assert forall s <- before :: s in presses;
      PressesReachTheCapAtMost(l, t, before);
    }
  }

  /** The driver is back after the call returned: the window ends `afterReconnect`
      later at the latest. */
  lemma ReturnShortensRestart(l: Limits, t: Trial, now: real)
    requires t.status.Watching? && t.endsAt.Some? && t.command.restartsFor != 0
    requires t.drops != [] && t.back.None?
    ensures Back(l, t, now).endsAt.value <= now + l.afterReconnect
  {
  }

  /** How long a trial returned to at `now` is watched, in numbers. A call that failed
      with no byte sent is not watched, one that failed otherwise for the usual span. A
      call that did not fail is watched for the longest of the usual span, the declared
      restart time and the margin, and, outside a batch, the time to the next poll's reply
      where the command says what it sets, within the ceiling. It waits for that reply
      only when nothing else holds the window that long. */
  predicate WatchedFor(l: Limits, u: Trial, now: real, failed: bool, nothing: bool, poll: real) {
    var usual := if u.batch then l.queryWindow else l.window;
    var restarts, restart := u.command.restartsFor != 0, u.command.restartsFor as real + l.restartMargin;
    var polled := !u.batch && u.command.sets && poll > 0.0;
    var readback := if poll + 2.0 < l.maxWindow then poll + 2.0 else l.maxWindow;
    var span := if u.endsAt.Some? then u.endsAt.value - now else 0.0;
    && u.returnedAt == Some(now) && u.endsAt.Some? && u.failed == failed && u.status == Watching
    && (failed && nothing ==> span == 0.0)
    && (failed && !nothing ==> span == usual)
    && (!failed ==>
          && span >= usual && (restarts ==> span >= restart) && (polled ==> span >= readback)
          && (span == usual || (restarts && span == restart) || (polled && span == readback)))
    && (u.waiting <==> polled && !failed && (!restarts || restart == 0.0) && readback > l.window)
  }

  lemma ReturnedInNumbers(l: Limits, t: Trial, now: real, position: nat, failed: bool, nothing: bool, poll: real)
    ensures var u := Returned(l, t, now, position, failed, nothing, poll);
            && WatchedFor(l, u, now, failed, nothing, poll)
            && u.command == t.command && u.batch == t.batch && u.returnedMark == Some(position)
  {
  }

  /** How far "Wait longer" may take a window that has been returned to at `now`: the
      ceiling, or the declared restart time and the margin where that is longer. */
  lemma CapInNumbers(l: Limits, t: Trial, now: real)
    requires t.returnedAt == Some(now)
    ensures var restart := t.command.restartsFor as real + l.restartMargin;
            && Cap(l, t) == (if t.command.restartsFor != 0 && restart > l.maxWindow then now + restart else now + l.maxWindow)
            && forall seconds: real | t.status.Watching? && t.endsAt.Some? && seconds >= 0.0 ::
                 var e := Extended(l, t, seconds);
                 && (e.None? <==> t.endsAt.value >= Cap(l, t) - 0.001)
                 && (e.Some? ==> e.value.endsAt ==
                                 Some(if t.endsAt.value + seconds > Cap(l, t) then Cap(l, t) else t.endsAt.value + seconds))
  {
  }

  /** Where the driver came back before its own call returned, that end is never
      set: the command is watched for its whole declared time and the margin. */
  lemma EarlyReturnIsNotShortened(l: Limits, t: Trial, now: real, position: nat, nothing: bool, poll: real)
    requires TrialOk(l, t, now) && t.status.Sending? && t.command.restartsFor > 0 && t.back.Some?
    ensures var u := Returned(l, t, now, position, false, nothing, poll);
            && u.endsAt.value >= now + t.command.restartsFor as real + l.restartMargin
            && u.endsAt.value > t.back.value + l.afterReconnect
            && forall later: real :: Back(l, u, later).endsAt == u.endsAt
  {
    assert DropsOk(t.drops, t.sentAt, now);
  }

  /** A window that closes by itself on an undisturbed command was watched for its
      usual span, and for the declared restart time and the margin. */
  lemma ClosesAfterUsualSpan(l: Limits, t: Trial, now: real, reported: bool)
    requires TrialOk(l, t, now) && t.status.Watching? && Undisturbed(t)
    requires now >= Looked(l, t, now, reported).endsAt.value
    ensures now >= t.returnedAt.value + (if t.batch then l.queryWindow else l.window)
    ensures t.command.restartsFor != 0 ==>
              now >= t.returnedAt.value + t.command.restartsFor as real + l.restartMargin
  {
  }
}
