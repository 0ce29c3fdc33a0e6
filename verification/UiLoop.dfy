/** The connection handler's tables as the event loop changes them, step by step:
    each method is the code between two awaits, and does what the step of the same
    event does to every state it can be in (`UiChanges.Valid`, which each keeps). */
module UiLoop {
  import opened Text
  import opened UiChanges

  class EventLoop {
    var next: nat
    var open: map<nat, nat>
    var uiChanges: map<nat, nat>
    var dicts: map<nat, Dict>
    var running: map<nat, nat>
    var sets: map<nat, Members>
    var tasks: map<nat, Task>
    var cancelled: set<nat>
    ghost var control: map<(nat, Element), Control>
    ghost var worker: map<(nat, Element), nat>

    ghost function View(): Loop
      reads this
    {
      Loop(next, open, uiChanges, dicts, running, sets, tasks, cancelled, control, worker)
    }

    constructor ()
      ensures View() == NOTHING && Valid(View())
    {
      next, open, uiChanges, dicts, running, sets := 0, map[], map[], map[], map[], map[];
      tasks, cancelled, control, worker := map[], {}, map[], map[];
    }

    /** `_own_ui_work`. */
    method OwnUiWork(ws: nat, work: Work)
      requires ws in open && (ws in running ==> running[ws] in sets)
      modifies this`next, this`running, this`sets, this`tasks
      ensures View() == OwnWork(old(View()), ws, work)
    {
      var t := next;
      if ws !in running {
        sets := sets[next + 1 := Members(open[ws], {})];
        running := running[ws := next + 1];
      }
      var interactions := running[ws];
      next := next + 2;
      tasks := tasks[t := Task(ws, open[ws], interactions, work, Created, false)];
      sets := sets[interactions := Members(open[ws], sets[interactions].tasks + {t})];
      assert old(ws !in running) ==>
          old(sets)[old(next) + 1 := Members(open[ws], {})][old(next) + 1 := sets[interactions]]
          == old(sets)[old(next) + 1 := sets[interactions]];
    }

    /** `_run_ui_change`: the newest value replaces one still waiting; a control
        with nothing running gets a task. */
    method RunUiChange(ws: nat, e: Element, v: Value)
      requires ws in open && TablesAreLive(View())
      modifies this
      ensures View() == Change(old(View()), ws, e, v)
    {
      if ws !in uiChanges {
        uiChanges := uiChanges[ws := next];
        dicts := dicts[next := Dict(open[ws], map[])];
        next := next + 1;
      }
      ghost var a := View();
      assert a == WithDict(old(View()), ws);
      var changes := uiChanges[ws];
      control := control[(open[ws], e) := ControlOf(a, open[ws], e).Receive(v)];
      if e in dicts[changes].waiting {
        dicts := dicts[changes := WithEntry(dicts[changes], e, Some(v))];
        return;
      }
      dicts := dicts[changes := WithEntry(dicts[changes], e, None)];
      worker := worker[(open[ws], e) := next];
      assert View() == Entered(a, ws, e, v);
      OwnUiWork(ws, ChangeRun(changes, e, v));
    }

    ghost method Log(t: nat, c: Control)
      requires t in tasks && tasks[t].work.ChangeRun?
      modifies this`control
      ensures View() == Logged(old(View()), t, c)
    {
      control := Logged(View(), t, c).control;
    }

    /** A task's first step: its value starts. */
    method BeginTask(t: nat)
      requires t in tasks && tasks[t].status.Created?
      modifies this
      ensures View() == Begin(old(View()), t)
    {
      ghost var s := View();
      tasks := tasks[t := tasks[t].(status := Running)];
      assert View() == WithStatus(s, t, Running);
      if tasks[t].work.ChangeRun? {
        ghost var c := ControlOf(s, tasks[t].conn, tasks[t].work.elem);
        Log(t, if c.current.Some? then c.Start() else c);
      }
    }

    /** `changes.pop(element_id, None)`, and the connection's dict with it when
        that leaves it empty and it is still the connection's. */
    method LeaveChanges(t: nat)
      requires t in tasks && tasks[t].work.ChangeRun? && tasks[t].work.dict in dicts
      modifies this`tasks, this`dicts, this`worker, this`uiChanges
      ensures View() == Leave(old(View()), t)
    {
      var task := tasks[t];
      var d := task.work.dict;
      ghost var s := View();
      worker := if Live(s, t) then worker - {(task.conn, task.work.elem)} else worker;
      tasks := tasks[t := task.(status := Finished)];
      dicts := dicts[d := dicts[d].(waiting := dicts[d].waiting - {task.work.elem})];
      assert View() == DropEntry(s, t);
      if dicts[d].waiting == map[] && task.ws in uiChanges && uiChanges[task.ws] == d {
        uiChanges := uiChanges - {task.ws};
      }
    }

    /** The waiting value becomes the one this task runs. */
    method TakeWaiting(t: nat)
      requires t in tasks && tasks[t].work.ChangeRun? && tasks[t].work.dict in dicts
      requires tasks[t].work.elem in dicts[tasks[t].work.dict].waiting
      requires dicts[tasks[t].work.dict].waiting[tasks[t].work.elem].Some?
      modifies this`tasks, this`dicts
      ensures View() == Advanced(old(View()), t)
    {
      var changes, e := tasks[t].work.dict, tasks[t].work.elem;
      var data := dicts[changes].waiting[e].value;
      dicts := dicts[changes := WithEntry(dicts[changes], e, None)];
      tasks := tasks[t := tasks[t].(work := tasks[t].work.(data := data))];
    }

    method NextValue(t: nat)
      requires t in tasks && tasks[t].work.ChangeRun? && tasks[t].work.dict in dicts
      requires tasks[t].work.elem in dicts[tasks[t].work.dict].waiting
      requires dicts[tasks[t].work.dict].waiting[tasks[t].work.elem].Some?
      modifies this
      ensures View() == Finish(old(View()), t)
    {
      ghost var c := ControlOf(View(), tasks[t].conn, tasks[t].work.elem);
      TakeWaiting(t);
      Log(t, if c.received != [] then c.Advance() else c);
    }

    method NothingWaiting(t: nat)
      requires t in tasks && tasks[t].work.ChangeRun? && tasks[t].work.dict in dicts
      requires tasks[t].work.elem in dicts[tasks[t].work.dict].waiting ==>
                 dicts[tasks[t].work.dict].waiting[tasks[t].work.elem].None?
      modifies this
      ensures View() == Finish(old(View()), t)
    {
      ghost var c := ControlOf(View(), tasks[t].conn, tasks[t].work.elem);
      LeaveChanges(t);
      Log(t, c.Settle());
    }

    /** The interaction returned: the waiting value runs next, or the run ends. */
    method FinishEvent(t: nat)
      requires t in tasks && tasks[t].status.Running?
      requires tasks[t].work.ChangeRun? ==> tasks[t].work.dict in dicts
      modifies this
      ensures View() == Finish(old(View()), t)
    {
      if tasks[t].work.OtherRun? {
        tasks := tasks[t := tasks[t].(status := Finished)];
        return;
      }
      var changes, e := tasks[t].work.dict, tasks[t].work.elem;
      if e in dicts[changes].waiting && dicts[changes].waiting[e].Some? {
        NextValue(t);
      } else {
        NothingWaiting(t);
      }
    }

    /** The interaction raised, or was cancelled: whatever waited is left behind. */
    method RaiseEvent(t: nat)
      requires t in tasks && tasks[t].status.Running?
      requires tasks[t].work.ChangeRun? ==> tasks[t].work.dict in dicts
      modifies this
      ensures View() == Raise(old(View()), t)
    {
      ghost var s := View();
      if tasks[t].work.OtherRun? {
        tasks := tasks[t := tasks[t].(status := Finished)];
        return;
      }
      ghost var c := ControlOf(s, tasks[t].conn, tasks[t].work.elem);
      LeaveChanges(t);
      Log(t, c.Fail());
    }

    /** The done-callback of `_own_ui_work`. */
    method Completed(t: nat)
      requires t in tasks && tasks[t].status.Finished? && tasks[t].setId in sets
      modifies this
      ensures View() == CallBack(old(View()), t)
    {
      var task := tasks[t];
      var interactions := task.setId;
      tasks := tasks[t := task.(calledBack := true)];
      sets := sets[interactions := sets[interactions].(tasks := sets[interactions].tasks - {t})];
      if sets[interactions].tasks == {} && task.ws in running && running[task.ws] == interactions {
        running := running - {task.ws};
      }
    }

    /** The `finally` of the connection. */
    method TearDown(ws: nat)
      requires ws in open && (ws in running ==> running[ws] in sets)
      modifies this
      ensures View() == Teardown(old(View()), ws)
    {
      uiChanges := uiChanges - {ws};
      if ws in running {
        cancelled := cancelled + sets[running[ws]].tasks;
      }
      running := running - {ws};
      open := open - {ws};
    }
  }
}
