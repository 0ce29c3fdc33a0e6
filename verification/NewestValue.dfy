/** Newest value wins: what a whole run of the event loop says of the last value a
    control ran. */
module NewestValue {
  import opened Text
  import opened UiChanges

  /** A run of this control, of the connection open on this socket, not over yet. */
  predicate Underway(s: Loop, t: nat, ws: nat, e: Element) {
    && Live(s, t) && s.tasks[t].ws == ws && !s.tasks[t].status.Finished?
    && s.tasks[t].work.ChangeRun? && s.tasks[t].work.elem == e
  }

  predicate ValueFor(step: Step, ws: nat, e: Element) {
    step.DoChange? && step.ws == ws && step.elem == e
  }

  /** The step in which this control's run raises with a value waiting behind it. */
  predicate Loses(s: Loop, step: Step, ws: nat, e: Element) {
    && step.DoRaise? && Underway(s, step.task, ws, e)
    && EntryOf(s, ws, e).Some? && EntryOf(s, ws, e).value.Some?
  }

  /** The connection goes on, and no new value comes for the control. */
  predicate Uneventful(s: Loop, step: Step, ws: nat, e: Element) {
    ws in s.open && step != DoTeardown(ws) && !ValueFor(step, ws, e)
  }

  /** The run that ended at step `j` raised with a value waiting, and the control has
      been sent nothing since. */
  ghost predicate LostAt(states: seq<Loop>, steps: seq<Step>, j: nat, n: nat, ws: nat, e: Element)
    requires n < |states| && n <= |steps|
  {
    && j < n && Loses(states[j], steps[j], ws, e)
    && forall k :: j < k < n ==> Uneventful(states[k], steps[k], ws, e)
  }

  ghost predicate Lost(states: seq<Loop>, steps: seq<Step>, n: nat, ws: nat, e: Element)
    requires n < |states| && n <= |steps|
  {
    exists j :: 0 <= j < n && LostAt(states, steps, j, n, ws, e)
  }

  // ---------------------------------------------------------------------
  // What one step does to a control's history
  // ---------------------------------------------------------------------

  function DroppedOf(s: Loop, ws: nat, e: Element): bool
    requires ws in s.open
  {
    ControlOf(s, s.open[ws], e).dropped
  }

  /** The socket named is not one that has taken over the task's connection. */
  predicate OwnSocket(s: Loop, t: nat, ws: nat)
    requires t in s.tasks && ws in s.open
  {
    s.open[ws] == s.tasks[t].conn ==> ws == s.tasks[t].ws
  }

  predicate SameWork(s: Loop, r: Loop, t: nat) {
    && t in s.tasks && t in r.tasks && r.open == s.open && r.control == s.control
    && r.tasks[t].conn == s.tasks[t].conn && r.tasks[t].ws == s.tasks[t].ws
    && s.tasks[t].work.ChangeRun? && r.tasks[t].work.ChangeRun? && r.tasks[t].work.elem == s.tasks[t].work.elem
  }

  predicate RunOf(s: Loop, t: nat, ws: nat, e: Element)
    requires t in s.tasks
  {
    Live(s, t) && s.tasks[t].ws == ws && s.tasks[t].work.ChangeRun? && s.tasks[t].work.elem == e
  }

  lemma LoggedDrops(s: Loop, r: Loop, t: nat, c: Control, ws: nat, e: Element)
    requires SameWork(s, r, t) && ws in s.open && OwnSocket(s, t, ws)
    ensures DroppedOf(Logged(r, t, c), ws, e) == if RunOf(s, t, ws, e) then c.dropped else DroppedOf(s, ws, e)
  {
    var key := (s.tasks[t].conn, s.tasks[t].work.elem);
    assert Live(r, t) == Live(s, t);
    if Live(s, t) {
      assert Logged(r, t, c).control == s.control[key := c];
      assert (s.open[ws], e) == key <==> RunOf(s, t, ws, e);
    } else {
      assert Logged(r, t, c) == r;
    }
  }

  lemma QueueDrops(s: Loop, x: nat, f: Element, v: Value, ws: nat, e: Element)
    requires x in s.open && x in s.uiChanges && s.uiChanges[x] in s.dicts && ws in s.open
    requires s.open[x] == s.open[ws] ==> x == ws
    ensures DroppedOf(Queue(s, x, f, v), ws, e) ==
            if x == ws && f == e then ControlOf(s, s.open[x], f).Receive(v).dropped else DroppedOf(s, ws, e)
    ensures DroppedOf(Entered(s, x, f, v), ws, e) ==
            if x == ws && f == e then ControlOf(s, s.open[x], f).Receive(v).dropped else DroppedOf(s, ws, e)
  {
  }

  lemma ChangeDrops(s: Loop, x: nat, f: Element, v: Value, ws: nat, e: Element)
    requires TablesAreLive(s) && x in s.open && ws in s.open
    requires s.open[x] == s.open[ws] ==> x == ws
    requires ControlOf(s, s.open[x], f).current.Some? ==> !ControlOf(s, s.open[x], f).dropped
    ensures DroppedOf(Change(s, x, f, v), ws, e) == (!(x == ws && f == e) && DroppedOf(s, ws, e))
  {
    var a := WithDict(s, x);
    ChangeIs(s, x, f, v);
    assert a.control == s.control && a.open == s.open;
    QueueDrops(a, x, f, v, ws, e);
    ReceiveDrops(ControlOf(s, s.open[x], f), v);
    assert ControlOf(a, a.open[x], f) == ControlOf(s, s.open[x], f);
    SameControl(s, a, ws, e);
    SameControl(Change(s, x, f, v), if f in a.dicts[a.uiChanges[x]].waiting then Queue(a, x, f, v) else Entered(a, x, f, v), ws, e);
  }

  lemma SameControl(s: Loop, r: Loop, ws: nat, e: Element)
    requires s.open == r.open && s.control == r.control && ws in s.open
    ensures DroppedOf(s, ws, e) == DroppedOf(r, ws, e)
  {
  }

  lemma ReceiveDrops(c: Control, v: Value)
    requires c.current.Some? ==> !c.dropped
    ensures !c.Receive(v).dropped
  {
  }

  lemma LaunchIs(s: Loop, x: nat, f: Element, v: Value)
    requires x in s.open && x in s.uiChanges && s.uiChanges[x] in s.dicts
    requires x in s.running ==> s.running[x] in s.sets
    ensures Launch(s, x, f, v).open == s.open && Launch(s, x, f, v).control == Entered(s, x, f, v).control
  {
  }

  lemma ChangeIs(s: Loop, x: nat, f: Element, v: Value)
    requires TablesAreLive(s) && x in s.open
    ensures var a := WithDict(s, x);
            && x in a.uiChanges && a.uiChanges[x] in a.dicts
            && Change(s, x, f, v).open == s.open
            && Change(s, x, f, v).control ==
               (if f in a.dicts[a.uiChanges[x]].waiting then Queue(a, x, f, v) else Entered(a, x, f, v)).control
  {
    var a := WithDict(s, x);
    assert x in a.running ==> a.running[x] in a.sets;
    if f in a.dicts[a.uiChanges[x]].waiting {
      assert Change(s, x, f, v) == Queue(a, x, f, v);
    } else {
      LaunchIs(a, x, f, v);
      assert Change(s, x, f, v) == Launch(a, x, f, v);
    }
  }

  lemma BeginDrops(s: Loop, t: nat, ws: nat, e: Element)
    requires t in s.tasks && ws in s.open && OwnSocket(s, t, ws)
    ensures DroppedOf(Begin(s, t), ws, e) == DroppedOf(s, ws, e)
  {
    if s.tasks[t].work.ChangeRun? {
      var c := ControlOf(s, s.tasks[t].conn, s.tasks[t].work.elem);
      LoggedDrops(s, WithStatus(s, t, Running), t, if c.current.Some? then c.Start() else c, ws, e);
    }
  }

  lemma LeaveSameWork(s: Loop, t: nat)
    requires t in s.tasks && s.tasks[t].work.ChangeRun? && s.tasks[t].work.dict in s.dicts
    ensures SameWork(s, Leave(s, t), t)
  {
  }

  lemma AdvancedSameWork(s: Loop, t: nat)
    requires t in s.tasks && s.tasks[t].work.ChangeRun? && s.tasks[t].work.dict in s.dicts
    requires s.tasks[t].work.elem in s.dicts[s.tasks[t].work.dict].waiting
    requires s.dicts[s.tasks[t].work.dict].waiting[s.tasks[t].work.elem].Some?
    ensures SameWork(s, Advanced(s, t), t)
  {
  }

  lemma FinishDrops(s: Loop, t: nat, ws: nat, e: Element)
    requires t in s.tasks && ws in s.open && OwnSocket(s, t, ws)
    requires s.tasks[t].work.ChangeRun? ==> s.tasks[t].work.dict in s.dicts
    ensures DroppedOf(Finish(s, t), ws, e) == DroppedOf(s, ws, e)
  {
    var task := s.tasks[t];
    if task.work.ChangeRun? {
      var d, f := task.work.dict, task.work.elem;
      var c := ControlOf(s, task.conn, f);
      if f in s.dicts[d].waiting && s.dicts[d].waiting[f].Some? {
        AdvancedSameWork(s, t);
        LoggedDrops(s, Advanced(s, t), t, if c.received != [] then c.Advance() else c, ws, e);
      } else {
        LeaveSameWork(s, t);
        LoggedDrops(s, Leave(s, t), t, c.Settle(), ws, e);
      }
    }
  }

  lemma RaiseDrops(s: Loop, t: nat, ws: nat, e: Element)
    requires t in s.tasks && ws in s.open && OwnSocket(s, t, ws)
    requires s.tasks[t].work.ChangeRun? ==> s.tasks[t].work.dict in s.dicts
    ensures DroppedOf(Raise(s, t), ws, e) ==
            if RunOf(s, t, ws, e) then ControlOf(s, s.tasks[t].conn, e).waiting else DroppedOf(s, ws, e)
  {
    var task := s.tasks[t];
    if task.work.ChangeRun? {
      LeaveSameWork(s, t);
      LoggedDrops(s, Leave(s, t), t, ControlOf(s, task.conn, task.work.elem).Fail(), ws, e);
    }
  }

  lemma RunWaits(s: Loop, t: nat, ws: nat, e: Element)
    requires Valid(s) && t in s.tasks && RunOf(s, t, ws, e) && s.tasks[t].status.Running?
    ensures !DroppedOf(s, ws, e)
    ensures ControlOf(s, s.tasks[t].conn, e).waiting <==> Loses(s, DoRaise(t), ws, e)
  {
    RunHasControl(s, t);
  }

  lemma Sockets(s: Loop, x: nat, ws: nat)
    requires Shape(s) && ws in s.open
    ensures x in s.tasks ==> OwnSocket(s, x, ws)
    ensures x in s.open && s.open[x] == s.open[ws] ==> x == ws
  {
    if x in s.tasks {
      assert TaskPlaced(s, x);
    }
  }

  lemma OpenDrops(s: Loop, x: nat, ws: nat, e: Element)
    requires NumbersUsed(s) && x !in s.open && (ws == x || ws in s.open)
    ensures DroppedOf(Open(s, x), ws, e) == (ws != x && DroppedOf(s, ws, e))
  {
    if ws == x {
      assert (s.next, e) !in s.control;
    }
  }

  /** A control's history is marked as having dropped a value by exactly the losing
      steps, and no longer once a new value comes. */
  lemma StepDrops(s: Loop, step: Step, ws: nat, e: Element)
    requires Valid(s) && Possible(s, step) && ws in Apply(s, step).open
    ensures DroppedOf(Apply(s, step), ws, e) ==
            (ws in s.open && !ValueFor(step, ws, e) && (DroppedOf(s, ws, e) || Loses(s, step, ws, e)))
  {
    match step
    case DoOpen(x) => OpenDrops(s, x, ws, e);
    case DoChange(x, f, v) =>
      Sockets(s, x, ws);
      assert ControlAgrees(s, x, f);
      ChangeDrops(s, x, f, v, ws, e);
    case DoBegin(t) =>
      Sockets(s, t, ws);
      BeginDrops(s, t, ws, e);
    case DoFinish(t) =>
      ObjectsExist(s, t);
      Sockets(s, t, ws);
      FinishDrops(s, t, ws, e);
    case DoRaise(t) =>
      ObjectsExist(s, t);
      Sockets(s, t, ws);
      RaiseDrops(s, t, ws, e);
      if RunOf(s, t, ws, e) {
        RunWaits(s, t, ws, e);
      }
    case _ => QuietDrops(s, step, ws, e);
  }

  /** The steps that write no control's history. */
  lemma QuietDrops(s: Loop, step: Step, ws: nat, e: Element)
    requires Shape(s) && Possible(s, step) && ws in Apply(s, step).open
    requires step.DoOther? || step.DoAbort? || step.DoCallBack? || step.DoTeardown?
    ensures ws in s.open && DroppedOf(Apply(s, step), ws, e) == DroppedOf(s, ws, e)
  {
    match step
    case DoCallBack(t) => ObjectsExist(s, t);
    case _ =>
  }

  lemma TakesDrops(s: Loop, step: Step, r: Loop, ws: nat, e: Element)
    requires Valid(s) && Takes(s, step, r) && ws in r.open
    ensures step != DoTeardown(ws)
    ensures DroppedOf(r, ws, e) ==
            (ws in s.open && !ValueFor(step, ws, e) && (DroppedOf(s, ws, e) || Loses(s, step, ws, e)))
  {
    StepDrops(s, step, ws, e);
  }

  // ---------------------------------------------------------------------
  // Whole runs
  // ---------------------------------------------------------------------

  lemma LostBefore(states: seq<Loop>, steps: seq<Step>, n: nat, ws: nat, e: Element)
    requires n + 1 < |states| && n < |steps| && Lost(states, steps, n + 1, ws, e)
    ensures Loses(states[n], steps[n], ws, e)
            || (Lost(states, steps, n, ws, e) && Uneventful(states[n], steps[n], ws, e))
  {
    var j :| 0 <= j < n + 1 && LostAt(states, steps, j, n + 1, ws, e);
    if j < n {
      assert LostAt(states, steps, j, n, ws, e);
    }
  }

  lemma LostStays(states: seq<Loop>, steps: seq<Step>, n: nat, ws: nat, e: Element)
    requires n + 1 < |states| && n < |steps|
    requires Loses(states[n], steps[n], ws, e)
             || (Lost(states, steps, n, ws, e) && Uneventful(states[n], steps[n], ws, e))
    ensures Lost(states, steps, n + 1, ws, e)
  {
    if Loses(states[n], steps[n], ws, e) {
      assert LostAt(states, steps, n, n + 1, ws, e);
    } else {
      var j :| 0 <= j < n && LostAt(states, steps, j, n, ws, e);
      assert LostAt(states, steps, j, n + 1, ws, e);
    }
  }

  lemma LostNext(states: seq<Loop>, steps: seq<Step>, n: nat, ws: nat, e: Element)
    requires n + 1 < |states| && n < |steps|
    ensures Lost(states, steps, n + 1, ws, e) <==>
              Loses(states[n], steps[n], ws, e)
              || (Lost(states, steps, n, ws, e) && Uneventful(states[n], steps[n], ws, e))
    ensures Loses(states[n], steps[n], ws, e) ==> ws in states[n].open && !ValueFor(steps[n], ws, e)
  {
    if Lost(states, steps, n + 1, ws, e) {
      LostBefore(states, steps, n, ws, e);
    } else if Loses(states[n], steps[n], ws, e) || (Lost(states, steps, n, ws, e) && Uneventful(states[n], steps[n], ws, e)) {
      LostStays(states, steps, n, ws, e);
    }
  }

  /** What step `n` did to the control's history. */
  predicate Recorded(states: seq<Loop>, steps: seq<Step>, n: nat, ws: nat, e: Element)
    requires n < |steps| && n + 1 < |states|
  {
    ws in states[n + 1].open ==>
      && steps[n] != DoTeardown(ws)
      && DroppedOf(states[n + 1], ws, e) ==
         (ws in states[n].open && !ValueFor(steps[n], ws, e)
          && (DroppedOf(states[n], ws, e) || Loses(states[n], steps[n], ws, e)))
  }

  lemma RunRecords(states: seq<Loop>, steps: seq<Step>, n: nat, ws: nat, e: Element)
    requires IsRun(states, steps) && n < |steps|
    ensures Recorded(states, steps, n, ws, e)
  {
    EveryInterleaving(states, steps, n);
    if ws in states[n + 1].open {
      TakesDrops(states[n], steps[n], states[n + 1], ws, e);
    }
  }

  lemma {:induction false} RecordedIsLost(states: seq<Loop>, steps: seq<Step>, n: nat, ws: nat, e: Element)
    requires n < |states| == |steps| + 1 && ws !in states[0].open && ws in states[n].open
    requires forall k :: 0 <= k < |steps| ==> Recorded(states, steps, k, ws, e)
    ensures DroppedOf(states[n], ws, e) <==> Lost(states, steps, n, ws, e)
  {
    if n > 0 {
      assert Recorded(states, steps, n - 1, ws, e);
      if ws in states[n - 1].open {
        RecordedIsLost(states, steps, n - 1, ws, e);
      }
      LostNext(states, steps, n - 1, ws, e);
    }
  }

  lemma DroppedIsLost(states: seq<Loop>, steps: seq<Step>, n: nat, ws: nat, e: Element)
    requires IsRun(states, steps) && n < |states| && ws in states[n].open
    ensures DroppedOf(states[n], ws, e) <==> Lost(states, steps, n, ws, e)
  {
    forall k | 0 <= k < |steps| ensures Recorded(states, steps, k, ws, e) {
      RunRecords(states, steps, k, ws, e);
    }
    assert ws !in NOTHING.open;
    RecordedIsLost(states, steps, n, ws, e);
  }

  /** On a live connection, in any state of any run: two runs of one control never
      overlap, and the values run are an in-order subsequence of those received. With
      nothing running, the last value run is the last received, if and only if the
      control's last run did not end by raising with a value waiting behind it. */
  lemma NewestValueWins(states: seq<Loop>, steps: seq<Step>, n: nat, ws: nat, e: Element)
    requires IsRun(states, steps) && n < |states| && ws in states[n].open
    ensures forall t, u :: Underway(states[n], t, ws, e) && Underway(states[n], u, ws, e) ==> t == u
    ensures var c := ControlOf(states[n], states[n].open[ws], e);
            && c.Increasing() && |c.ran| <= |c.received|
            && (EntryOf(states[n], ws, e).None? ==>
                  (c.LastRan() == |c.received| - 1 <==> !Lost(states, steps, n, ws, e)))
  {
    EveryInterleaving(states, steps, n);
    var s := states[n];
    assert ControlAgrees(s, ws, e);
    Drains(ControlOf(s, s.open[ws], e));
    DroppedIsLost(states, steps, n, ws, e);
    forall t | Underway(s, t, ws, e)
      ensures (s.open[ws], e) in s.worker && s.worker[(s.open[ws], e)] == t
    {
      assert InCharge(s, t);
    }
  }

  /** So in a run that takes no such raise of this control, every drag ends on the
      value where it stopped: once idle, the last value run is the last received. */
  lemma DragEndsWhereItStopped(states: seq<Loop>, steps: seq<Step>, n: nat, ws: nat, e: Element)
    requires IsRun(states, steps) && n < |states| && ws in states[n].open
    requires forall j :: 0 <= j < n ==> !Loses(states[j], steps[j], ws, e)
    requires EntryOf(states[n], ws, e).None?
    ensures var c := ControlOf(states[n], states[n].open[ws], e);
            c.Increasing() &&
            (c.received != [] ==> c.ran != [] && c.received[c.ran[|c.ran| - 1]] == c.received[|c.received| - 1])
  {
    NewestValueWins(states, steps, n, ws, e);
  }

  // ---------------------------------------------------------------------
  // A run that loses a value
  // ---------------------------------------------------------------------

  const FADER: (nat, Element) := (0, "fader")

  function FaderTask(status: Status): map<nat, Task> {
    map[2 := Task(0, 0, 3, ChangeRun(1, "fader", "10"), status, false)]
  }

  /** The loop while the fader's task is there: its entry, its history, its status. */
  function Faded(entry: Option<Value>, c: Control, status: Status): Loop {
    Loop(4, map[0 := 0], map[0 := 1], map[1 := Dict(0, map["fader" := entry])], map[0 := 3],
         map[3 := Members(0, {2})], FaderTask(status), {}, map[FADER := c], map[FADER := 2])
  }

  const OPENED := Loop(1, map[0 := 0], map[], map[], map[], map[], map[], {}, map[], map[])
  const SENT := FRESH.Receive("10")
  const RUNNING := SENT.(started := true, ran := SENT.ran + [0])
  const WAITING := RUNNING.Receive("20")
  const IDLE := WAITING.Fail()
  const LEFT := Loop(4, map[0 := 0], map[], map[1 := Dict(0, map[])], map[0 := 3], map[3 := Members(0, {2})],
                     FaderTask(Finished), {}, map[FADER := IDLE], map[])

  lemma FaderOpens()
    ensures Open(NOTHING, 0) == OPENED && TablesAreLive(OPENED)
  {
  }

  lemma FaderSends()
    ensures TablesAreLive(OPENED) && Change(OPENED, 0, "fader", "10") == Faded(None, SENT, Created)
  {
    var a := WithDict(OPENED, 0);
    assert a == OPENED.(next := 2, uiChanges := map[0 := 1], dicts := map[1 := Dict(0, map[])]);
    var b := Entered(a, 0, "fader", "10");
    assert b.dicts == map[1 := Dict(0, map["fader" := None])];
    assert ControlOf(a, 0, "fader") == FRESH;
    assert b.control == map[FADER := SENT];
    assert b.worker == map[FADER := 2];
    var c := OwnWork(b, 0, ChangeRun(1, "fader", "10"));
    assert {} + {2} == {2};
    assert c.running == map[0 := 3];
    assert c.sets == map[3 := Members(0, {2})];
    assert c.tasks == FaderTask(Created);
  }

  lemma FaderBegins()
    ensures Begin(Faded(None, SENT, Created), 2) == Faded(None, RUNNING, Running)
  {
    var s := Faded(None, SENT, Created);
    var r := Begin(s, 2);
    assert r.tasks == FaderTask(Running);
    assert ControlOf(s, 0, "fader") == SENT && SENT.current == Some(0) && SENT.Start() == RUNNING;
    assert r.control == map[FADER := RUNNING];
  }

  lemma FaderSendsAgain()
    ensures TablesAreLive(Faded(None, RUNNING, Running))
    ensures Change(Faded(None, RUNNING, Running), 0, "fader", "20") == Faded(Some("20"), WAITING, Running)
  {
    var s := Faded(None, RUNNING, Running);
    var r := Queue(s, 0, "fader", "20");
    assert WithDict(s, 0) == s;
    assert ControlOf(s, 0, "fader") == RUNNING;
    var waiting: Waiting := map["fader" := None];
    assert waiting["fader" := Some("20")] == map["fader" := Some("20")];
    assert r.dicts == map[1 := Dict(0, map["fader" := Some("20")])];
    assert r.control == map[FADER := WAITING];
  }

  lemma FaderLeaves()
    ensures var s := Faded(Some("20"), WAITING, Running);
            Leave(s, 2) == LEFT.(control := s.control) && Live(s, 2)
  {
    var s := Faded(Some("20"), WAITING, Running);
    var waiting: Waiting := map["fader" := Some("20")];
    assert waiting - {"fader"} == map[];
    var d := DropEntry(s, 2);
    assert d.dicts == map[1 := Dict(0, map[])];
    assert d.worker == map[] && d.tasks == FaderTask(Finished);
    assert Leave(s, 2).uiChanges == map[];
  }

  lemma FaderRaises()
    ensures Raise(Faded(Some("20"), WAITING, Running), 2) == LEFT
  {
    var s := Faded(Some("20"), WAITING, Running);
    FaderLeaves();
    assert ControlOf(s, 0, "fader") == WAITING;
    assert s.control[FADER := IDLE] == map[FADER := IDLE];
  }

  ghost predicate Reaches(states: seq<Loop>, steps: seq<Step>, s: Loop) {
    IsRun(states, steps) && states[|steps|] == s
  }

  /** A run goes on with any step the loop could take now. */
  lemma Extends(states: seq<Loop>, steps: seq<Step>, s: Loop, step: Step, next: Loop)
    returns (states': seq<Loop>, steps': seq<Step>)
    requires Reaches(states, steps, s) && Possible(s, step) && (Shape(s) ==> Apply(s, step) == next)
    ensures Reaches(states', steps', next) && states' == states + [next] && steps' == steps + [step]
  {
    var n := |steps|;
    EveryInterleaving(states, steps, n);
    states', steps' := states + [next], steps + [step];
    assert states'[n] == s && states'[n + 1] == next && steps'[n] == step;
    forall i | 0 <= i < |steps'|
      ensures Takes(states'[i], steps'[i], states'[i + 1])
    {
      if i < n {
        assert Takes(states[i], steps[i], states[i + 1]);
      }
    }
  }

  lemma FaderLeftOnTen()
    ensures 0 in LEFT.open && EntryOf(LEFT, 0, "fader").None?
    ensures ControlOf(LEFT, LEFT.open[0], "fader") == IDLE && IDLE.received == ["10", "20"] && IDLE.ran == [0]
  {
    assert SENT.received == ["10"] && SENT.ran == [] && RUNNING.ran == [0];
    assert WAITING.received == ["10"] + ["20"];
  }

  lemma FaderRunsTen() returns (states: seq<Loop>, steps: seq<Step>)
    ensures Reaches(states, steps, Faded(None, RUNNING, Running))
  {
    FaderOpens();
    FaderSends();
    FaderBegins();
    states, steps := Extends([NOTHING], [], NOTHING, DoOpen(0), OPENED);
    states, steps := Extends(states, steps, OPENED, DoChange(0, "fader", "10"), Faded(None, SENT, Created));
    states, steps := Extends(states, steps, Faded(None, SENT, Created), DoBegin(2), Faded(None, RUNNING, Running));
  }

  /** A fader sends 10, sends 20 while 10 runs, and the run of 10 raises: the control
      is idle on 10. */
  lemma ARaiseLosesTheWaitingValue() returns (states: seq<Loop>, steps: seq<Step>)
    ensures IsRun(states, steps) && 0 in states[|steps|].open && EntryOf(states[|steps|], 0, "fader").None?
    ensures var c := ControlOf(states[|steps|], states[|steps|].open[0], "fader");
            c.received == ["10", "20"] && c.ran == [0]
  {
    var running, waiting := Faded(None, RUNNING, Running), Faded(Some("20"), WAITING, Running);
    FaderSendsAgain();
    FaderRaises();
    FaderLeftOnTen();
    states, steps := FaderRunsTen();
    states, steps := Extends(states, steps, running, DoChange(0, "fader", "20"), waiting);
    states, steps := Extends(states, steps, waiting, DoRaise(2), LEFT);
  }
}
