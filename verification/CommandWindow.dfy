/** The commands step as the code changes it, call by call: the trials list, the batch
    record and the open trial's fields. Each method takes the step of the same name
    (`CommandRuns.Take`) in the state it finds, so `CommandRuns.EveryRunKeeps` speaks of
    every sequence of these calls. */
module CommandWindow {
  import opened Text
  import opened CommandPass
  import opened CommandRuns

  class Commands {
    const limits: Limits
    var trials: seq<Trial>
    var batch: Option<Batch>
    var traffic: seq<nat>

    function State(now: real): Pass
      reads this
    {
      Pass(trials, batch, traffic, now)
    }

    constructor (l: Limits)
      ensures limits == l && State(0.0) == NEW_PASS
    {
      limits := l;
      trials, batch, traffic := [], None, [];
    }

    method SetLast(u: Trial)
      requires trials != []
      modifies `trials
      ensures trials == old(trials)[|old(trials)| - 1 := u]
    {
      trials := trials[|trials| - 1 := u];
    }

    /** How many earlier trials sent this command. */
    method CountOf(name: string) returns (n: nat)
      ensures n == Times(trials, name)
    {
      n := 0;
      var i := 0;
      while i < |trials|
        invariant i <= |trials| && n == Times(trials[..i], name)
      {
        assert trials[..i + 1][..i] == trials[..i];
        if trials[i].command.name == name {
          n := n + 1;
        }
        i := i + 1;
      }
      assert trials[..i] == trials;
    }

    /** `_open_trial`. */
    method OpenTrial(c: Command, inBatch: bool, now: real)
      requires traffic != []
      modifies `trials
      ensures State(now) == Opened(old(State(now)), c, inBatch)
    {
      var earlier := CountOf(c.name);
      var since := None;
      if trials != [] {
        var previous := trials[|trials| - 1];
        since := Some((previous.number, now - previous.sentAt));
      }
      trials := trials + [Trial(|trials| + 1, c, earlier + 1, inBatch, |traffic| - 1, now, since,
                                Sending, None, None, None, false, 0.0, false, false, None, None, [], None, None, None)];
    }

    /** `send`; false where it is refused, and then nothing changes. */
    method Send(c: Command, live: bool, others: bool, now: real) returns (sent: bool)
      modifies this
      ensures State(now) == Take(limits, old(State(now)), CommandRuns.Send(c, live, others))
      ensures sent <==> !Busy(old(State(now)), others) && live && old(traffic) != []
      ensures !sent ==> unchanged(this)
      ensures sent ==>
                && |trials| == |old(trials)| + 1 && trials[..|old(trials)|] == old(trials)
                && var t := trials[|trials| - 1];
                   t.command == c && t.sentAt == now && t.status.Sending? && !t.batch && t.connectAttempt == |traffic| - 1
    {
      if batch.Some? && batch.value.running {
        return false;
      }
      if (trials != [] && !trials[|trials| - 1].status.Done?) || others || !live || traffic == [] {
        return false;
      }
      OpenTrial(c, false, now);
      return true;
    }

    method RunQueries(queries: seq<Command>, live: bool, others: bool, now: real)
      modifies this
      ensures State(now) == Take(limits, old(State(now)), CommandRuns.RunQueries(queries, live, others))
      ensures batch == if Busy(old(State(now)), others) || !live || queries == [] then old(batch)
                       else Some(Batch(true, |queries|, 0, queries))
    {
      if Busy(State(now), others) || !live || queries == [] {
        return;
      }
      batch := Some(Batch(true, |queries|, 0, queries));
    }

    /** The start of `_send_and_watch`: where the window is cut from. */
    method BeginTask(now: real)
      requires traffic != [] && trials != []
      modifies `trials
      ensures State(now) == Begun(old(State(now)))
      ensures trials[|trials| - 1].start == Some(Mark(|traffic| - 1, traffic[|traffic| - 1]))
    {
      var sandbox := |traffic| - 1;
      SetLast(trials[|trials| - 1].(start := Some(Mark(sandbox, traffic[sandbox]))));
    }

    /** The next turn of `_run_batch`. */
    method NextTurn(started: bool, now: real)
      requires batch.Some? && batch.value.running
      modifies this
      ensures State(now) == NextQuery(old(State(now)), started)
      ensures batch.Some? && (batch.value.running <==> old(batch).value.queue != [] && started && traffic != [])
      ensures !batch.value.running ==> trials == old(trials)
      ensures batch.value.running ==>
                && |trials| == |old(trials)| + 1 && trials[..|old(trials)|] == old(trials)
                && batch.value.queue == old(batch).value.queue[1..]
                && var t := trials[|trials| - 1];
                   && t.command == old(batch).value.queue[0] && t.batch && t.sentAt == now
                   && t.connectAttempt == |traffic| - 1 && t.start == Some(Mark(|traffic| - 1, traffic[|traffic| - 1]))
    {
      if batch.value.queue == [] || !started || traffic == [] {
        batch := Some(batch.value.(running := false));
        return;
      }
      var entry := batch.value.queue[0];
      batch := Some(batch.value.(queue := batch.value.queue[1..]));
      OpenTrial(entry, true, now);
      BeginTask(now);
    }

    /** The driver's call came back, and the open trial is watched for as long as its
        command and the outcome ask. */
    method Return(failed: bool, nothing: bool, poll: real, now: real)
      requires State(now).Heard() && State(now).Last().status.Sending?
      modifies `trials
      ensures State(now) == Take(limits, old(State(now)), CommandRuns.Return(failed, nothing, poll))
      ensures WatchedFor(limits, trials[|trials| - 1], now, failed, nothing, poll)
    {
      var t := trials[|trials| - 1];
      t := Watch(t, traffic[t.start.value.attempt], failed, nothing, poll, now);
      SetLast(t);
    }

    method Watch(before: Trial, position: nat, failed: bool, nothing: bool, poll: real, now: real)
      returns (t: Trial)
      ensures t == Returned(limits, before, now, position, failed, nothing, poll)
      ensures WatchedFor(limits, t, now, failed, nothing, poll)
    {
      var span := if before.batch then limits.queryWindow else limits.window;
      if !failed {
        span := Max(span, RestartSpan(limits, before));
        if !before.batch {
          span := Max(span, ReadbackSpan(limits, before, poll));
        }
      } else if nothing {
        span := 0.0;
      }
      var waiting := !before.batch && !failed && RestartSpan(limits, before) == 0.0
                     && ReadbackSpan(limits, before, poll) > limits.window;
      t := before.(returnedAt := Some(now), returnedMark := Some(position), failed := failed,
                   endsAt := Some(now + span), status := Watching, waiting := waiting);
      ReturnedInNumbers(limits, before, now, position, failed, nothing, poll);
    }

    /** `_finish`, for the open trial as the caller leaves it. */
    method Finish(t: Trial, now: real)
      requires trials != []
      modifies `trials
      ensures State(now) == FinishedLast(old(State(now)), t)
    {
      if t.status.Done? {
        SetLast(t);
        return;
      }
      var end := if t.connectAttempt < |traffic| then traffic[t.connectAttempt] else 0;
      SetLast(t.(finishedAt := Some(now), endMark := Some(end), status := Done));
    }

    /** The end of `_send_and_watch`, and in a batch what follows it. */
    method CloseWindow(t: Trial, live: bool, now: real)
      requires trials != []
      modifies this
      ensures State(now) == Closed(old(State(now)), t, live)
    {
      Finish(t, now);
      if batch.Some? && batch.value.running {
        batch := Some(batch.value.(sent := batch.value.sent + 1));
        NextTurn(live, now);
      }
    }

    /** A turn of the watching loop: look, then close the window if it is over, and
        in a batch go on to the next query without a pause. */
    method Tick(started: bool, reported: bool, live: bool, now: real)
      requires State(now).Heard() && State(now).Last().status.Watching? && State(now).Last().endsAt.Some?
      modifies this
      ensures State(now) == OneTick(limits, old(State(now)), started, reported, live)
    {
      var t := Look(reported, now);
      if now < t.endsAt.value && started {
        SetLast(t);
      } else {
        CloseWindow(t, live, now);
      }
    }

    /** A window held past its usual end for a value ends when it is read back. */
    method Look(reported: bool, now: real) returns (t: Trial)
      requires trials != []
      ensures t == Looked(limits, trials[|trials| - 1], now, reported)
    {
      t := trials[|trials| - 1];
      if t.waiting && t.extended == 0.0 && t.returnedAt.Some? && now >= t.returnedAt.value + limits.window && reported {
        t := t.(endsAt := Some(now), waiting := false);
      }
    }

    /** `extend`; false where it is refused. */
    method Extend(seconds: real, now: real) returns (held: bool)
      modifies `trials
      ensures State(now) == Take(limits, old(State(now)), CommandRuns.Extend(seconds))
      ensures !held ==> trials == old(trials)
    {
      if trials == [] || !trials[|trials| - 1].status.Watching? || trials[|trials| - 1].endsAt.None? {
        return false;
      }
      var t := trials[|trials| - 1];
      var cap := Cap(limits, t);
      if t.endsAt.value >= cap - 0.001 {
        return false;
      }
      var end := Min(t.endsAt.value + seconds, cap);
      SetLast(t.(extended := t.extended + (end - t.endsAt.value), endsAt := Some(end)));
      return true;
    }

    method EndNow(now: real)
      modifies `trials
      ensures State(now) == Take(limits, old(State(now)), CommandRuns.EndNow)
    {
      if trials != [] && trials[|trials| - 1].status.Watching? {
        SetLast(trials[|trials| - 1].(stoppedEarly := true, endsAt := Some(now)));
      }
    }

    /** `on_gone`. */
    method OnGone(now: real)
      requires State(now).Heard()
      modifies `trials
      ensures State(now) == Take(limits, old(State(now)), DeviceGone)
    {
      var t := trials[|trials| - 1];
      if t.wentAway.None? {
        t := t.(wentAway := Some(now));
      }
      if t.drops == [] || t.drops[|t.drops| - 1].back.Some? {
        t := t.(drops := t.drops + [Drop(now, None)]);
      }
      SetLast(t);
    }

    /** `on_back`. */
    method OnBack(now: real)
      requires State(now).Heard()
      modifies `trials
      ensures State(now) == Take(limits, old(State(now)), DeviceBack)
    {
      var t := trials[|trials| - 1];
      if t.drops == [] {
        assert old(State(now)).WithLast(t) == old(State(now));
        return;
      }
      var n := |t.drops| - 1;
      if t.drops[n].back.None? {
        t := t.(drops := t.drops[n := Drop(t.drops[n].gone, Some(now))]);
      }
      if t.back.None? {
        t := t.(back := Some(now));
        if t.command.restartsFor != 0 && t.endsAt.Some? {
          t := t.(endsAt := Some(Min(t.endsAt.value, now + limits.afterReconnect)));
        }
      }
      SetLast(t);
    }

    /** `stop`. */
    method Stop(nothing: bool, now: real)
      modifies this
      ensures State(now) == Take(limits, old(State(now)), CommandRuns.Stop(nothing))
    {
      if trials != [] && !trials[|trials| - 1].status.Done? {
        var t := trials[|trials| - 1];
        if t.start.None? || t.start.value.attempt >= |traffic| {
          // Its task never ran, so this call closes it itself.
          if t.returnedAt.None? {
            t := t.(returnedAt := Some(now));
          }
        } else if t.status.Sending? {
          Return(true, nothing, 0.0, now);
          t := trials[|trials| - 1];
        }
        Finish(t, now);
      }
      if batch.Some? && batch.value.running {
        batch := Some(batch.value.(running := false));
      }
    }
  }
}
