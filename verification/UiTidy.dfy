/** The handler's tables hold nothing that is over: an entry is there exactly while the
    connection has something running, and a teardown cancels that and nothing else. */
module UiTidy {
  import opened Text
  import opened UiChanges

  /** No table names an empty object, and a set holds its own tasks until their callback. */
  predicate Tidy(s: Loop) {
    DictsTidy(s) && SetsTidy(s) && MembersTidy(s)
  }

  predicate DictsTidy(s: Loop) {
    forall ws <- s.uiChanges :: s.uiChanges[ws] in s.dicts && s.dicts[s.uiChanges[ws]].waiting != map[]
  }

  predicate SetsTidy(s: Loop) {
    forall ws <- s.running :: s.running[ws] in s.sets && s.sets[s.running[ws]].tasks != {}
  }

  predicate MembersTidy(s: Loop) {
    forall i <- s.sets :: forall t <- s.sets[i].tasks :: t in s.tasks && s.tasks[t].setId == i && !s.tasks[t].calledBack
  }

  /** The sets, and what they say of the tasks, are as they were. */
  predicate SameSets(s: Loop, r: Loop) {
    && r.sets == s.sets && r.running == s.running && s.tasks.Keys <= r.tasks.Keys
    && forall t <- s.tasks :: r.tasks[t].setId == s.tasks[t].setId && r.tasks[t].calledBack == s.tasks[t].calledBack
  }

  predicate SameDicts(s: Loop, r: Loop) {
    r.uiChanges == s.uiChanges && r.dicts == s.dicts
  }

  lemma StaysTidy(s: Loop, r: Loop)
    requires SameSets(s, r)
    ensures SetsTidy(s) && MembersTidy(s) ==> SetsTidy(r) && MembersTidy(r)
  {
  }

  predicate OthersTidy(a: Loop, ws: nat) {
    forall x <- a.uiChanges :: x != ws ==> a.uiChanges[x] in a.dicts && a.dicts[a.uiChanges[x]].waiting != map[]
  }

  lemma WithDictTidy(s: Loop, ws: nat)
    requires ws in s.open && DictsTidy(s) && forall d <- s.dicts :: d < s.next
    ensures var a := WithDict(s, ws);
            OthersTidy(a, ws) && SameSets(s, a) && ws in a.uiChanges && a.uiChanges[ws] in a.dicts && s.next <= a.next
  {
    if ws !in s.uiChanges {
      var a := WithDict(s, ws);
      forall x <- a.uiChanges | x != ws ensures a.uiChanges[x] in a.dicts && a.dicts[a.uiChanges[x]].waiting != map[] {
        assert x in s.uiChanges && s.uiChanges[x] in s.dicts && s.uiChanges[x] != s.next;
      }
    }
  }

  lemma EntryTidies(a: Loop, ws: nat, e: Element, v: Option<Value>, r: Loop)
    requires ws in a.uiChanges && a.uiChanges[ws] in a.dicts && r.uiChanges == a.uiChanges
    requires r.dicts == a.dicts[a.uiChanges[ws] := WithEntry(a.dicts[a.uiChanges[ws]], e, v)]
    requires OthersTidy(a, ws)
    ensures DictsTidy(r)
  {
    assert e in r.dicts[a.uiChanges[ws]].waiting;
  }

  lemma OwnWorkTidy(s: Loop, ws: nat, work: Work)
    requires (forall i <- s.sets :: i < s.next) && (forall t <- s.tasks :: t < s.next)
    requires ws in s.open && SetsTidy(s) && MembersTidy(s)
    ensures SetsTidy(OwnWork(s, ws, work)) && MembersTidy(OwnWork(s, ws, work)) && SameDicts(s, OwnWork(s, ws, work))
  {
    var r := OwnWork(s, ws, work);
    var t, setId := s.next, r.running[ws];
    forall x <- r.running ensures r.running[x] in r.sets && r.sets[r.running[x]].tasks != {} {
      assert t in r.sets[setId].tasks;
    }
    forall i <- r.sets
      ensures forall k <- r.sets[i].tasks :: k in r.tasks && r.tasks[k].setId == i && !r.tasks[k].calledBack
    {
      if i != setId {
        assert r.sets[i] == s.sets[i];
      }
    }
  }

  lemma ChangeTidy(s: Loop, ws: nat, e: Element, v: Value)
    requires Shape(s) && Tidy(s) && ws in s.open
    ensures Tidy(Change(s, ws, e, v))
  {
    var a := WithDict(s, ws);
    WithDictTidy(s, ws);
    StaysTidy(s, a);
    if e in a.dicts[a.uiChanges[ws]].waiting {
      QueueTidy(a, ws, e, v);
    } else {
      LaunchTidy(a, ws, e, v);
    }
  }

  lemma QueueTidy(a: Loop, ws: nat, e: Element, v: Value)
    requires ws in a.open && ws in a.uiChanges && a.uiChanges[ws] in a.dicts
    requires OthersTidy(a, ws) && SetsTidy(a) && MembersTidy(a)
    ensures Tidy(Queue(a, ws, e, v))
  {
    EntryTidies(a, ws, e, Some(v), Queue(a, ws, e, v));
    StaysTidy(a, Queue(a, ws, e, v));
  }

  lemma LaunchTidy(a: Loop, ws: nat, e: Element, v: Value)
    requires ws in a.open && ws in a.uiChanges && a.uiChanges[ws] in a.dicts
    requires OthersTidy(a, ws) && SetsTidy(a) && MembersTidy(a)
    requires (forall i <- a.sets :: i < a.next) && (forall t <- a.tasks :: t < a.next)
    ensures Tidy(Launch(a, ws, e, v))
  {
    var b := Entered(a, ws, e, v);
    EntryTidies(a, ws, e, None, b);
    StaysTidy(a, b);
    OwnWorkTidy(b, ws, ChangeRun(a.uiChanges[ws], e, v));
  }

  lemma LeaveSame(s: Loop, t: nat)
    requires t in s.tasks && s.tasks[t].work.ChangeRun? && s.tasks[t].work.dict in s.dicts
    ensures SameSets(s, Leave(s, t)) && Leave(s, t).tasks.Keys == s.tasks.Keys
    ensures t in Leave(s, t).tasks && Leave(s, t).tasks[t].work == s.tasks[t].work
  {
  }

  lemma LeaveDicts(s: Loop, t: nat)
    requires TablesAreLive(s) && t in s.tasks && TaskPlaced(s, t) && DictsTidy(s)
    requires s.tasks[t].work.ChangeRun? && s.tasks[t].work.dict in s.dicts
    ensures DictsTidy(Leave(s, t))
  {
    var r, d, ws := Leave(s, t), s.tasks[t].work.dict, s.tasks[t].ws;
    forall x <- r.uiChanges ensures r.uiChanges[x] in r.dicts && r.dicts[r.uiChanges[x]].waiting != map[] {
      assert s.uiChanges[x] in s.dicts;
      if s.uiChanges[x] == d {
        assert x == ws;
      }
    }
  }

  lemma LeaveTidy(s: Loop, t: nat)
    requires Shape(s) && Tidy(s) && t in s.tasks && s.tasks[t].work.ChangeRun? && s.tasks[t].work.dict in s.dicts
    ensures Tidy(Leave(s, t))
  {
    LeaveSame(s, t);
    StaysTidy(s, Leave(s, t));
    assert TaskPlaced(s, t);
    LeaveDicts(s, t);
  }

  lemma AdvancedTidy(s: Loop, t: nat)
    requires Tidy(s) && t in s.tasks && s.tasks[t].work.ChangeRun? && s.tasks[t].work.dict in s.dicts
    requires s.tasks[t].work.elem in s.dicts[s.tasks[t].work.dict].waiting
    requires s.dicts[s.tasks[t].work.dict].waiting[s.tasks[t].work.elem].Some?
    ensures Tidy(Advanced(s, t))
  {
    var r := Advanced(s, t);
    StaysTidy(s, r);
    assert s.tasks[t].work.elem in r.dicts[s.tasks[t].work.dict].waiting;
  }

  lemma LoggedTidy(s: Loop, t: nat, c: Control)
    requires Tidy(s) && t in s.tasks && s.tasks[t].work.ChangeRun?
    ensures Tidy(Logged(s, t, c))
  {
    StaysTidy(s, Logged(s, t, c));
  }

  lemma StatusTidy(s: Loop, t: nat, status: Status)
    requires Tidy(s) && t in s.tasks
    ensures Tidy(WithStatus(s, t, status))
  {
    StaysTidy(s, WithStatus(s, t, status));
  }

  lemma FinishTidy(s: Loop, t: nat)
    requires Shape(s) && Tidy(s) && t in s.tasks && s.tasks[t].work.ChangeRun? && s.tasks[t].work.dict in s.dicts
    ensures Tidy(Finish(s, t))
  {
    var task := s.tasks[t];
    var c, w := ControlOf(s, task.conn, task.work.elem), s.dicts[task.work.dict].waiting;
    if task.work.elem in w && w[task.work.elem].Some? {
      AdvancedTidy(s, t);
      LoggedTidy(Advanced(s, t), t, if c.received != [] then c.Advance() else c);
    } else {
      LeaveTidy(s, t);
      LeaveSame(s, t);
      LoggedTidy(Leave(s, t), t, c.Settle());
    }
  }

  lemma RaiseTidy(s: Loop, t: nat)
    requires Shape(s) && Tidy(s) && t in s.tasks && s.tasks[t].work.ChangeRun? && s.tasks[t].work.dict in s.dicts
    ensures Tidy(Raise(s, t))
  {
    LeaveTidy(s, t);
    LeaveSame(s, t);
    LoggedTidy(Leave(s, t), t, ControlOf(s, s.tasks[t].conn, s.tasks[t].work.elem).Fail());
  }

  lemma BeginTidy(s: Loop, t: nat)
    requires Tidy(s) && t in s.tasks
    ensures Tidy(Begin(s, t))
  {
    StatusTidy(s, t, Running);
    var r := WithStatus(s, t, Running);
    if s.tasks[t].work.ChangeRun? {
      var c := ControlOf(s, s.tasks[t].conn, s.tasks[t].work.elem);
      LoggedTidy(r, t, if c.current.Some? then c.Start() else c);
    }
  }

  lemma CallBackSets(s: Loop, t: nat)
    requires TablesAreLive(s) && t in s.tasks && TaskPlaced(s, t) && s.tasks[t].setId in s.sets && SetsTidy(s)
    ensures SetsTidy(CallBack(s, t)) && SameDicts(s, CallBack(s, t))
  {
    var r, i := CallBack(s, t), s.tasks[t].setId;
    forall x <- r.running ensures r.running[x] in r.sets && r.sets[r.running[x]].tasks != {} {
      if s.running[x] == i {
        assert x == s.tasks[t].ws;
      }
    }
  }

  lemma CallBackMembers(s: Loop, t: nat)
    requires t in s.tasks && s.tasks[t].setId in s.sets && MembersTidy(s)
    ensures MembersTidy(CallBack(s, t))
  {
    var r := CallBack(s, t);
    forall j <- r.sets
      ensures forall k <- r.sets[j].tasks :: k in r.tasks && r.tasks[k].setId == j && !r.tasks[k].calledBack
    {
      assert forall k <- r.sets[j].tasks :: k in s.sets[j].tasks && k != t;
    }
  }

  lemma CallBackTidy(s: Loop, t: nat)
    requires Shape(s) && Tidy(s) && t in s.tasks && s.tasks[t].setId in s.sets
    ensures Tidy(CallBack(s, t))
  {
    assert TaskPlaced(s, t);
    CallBackSets(s, t);
    CallBackMembers(s, t);
  }

  lemma RunTidy(s: Loop, step: Step)
    requires Shape(s) && Tidy(s) && Possible(s, step) && (step.DoFinish? || step.DoRaise?)
    ensures Tidy(Apply(s, step))
  {
    var t := step.task;
    ObjectsExist(s, t);
    if s.tasks[t].work.OtherRun? {
      StatusTidy(s, t, Finished);
    } else if step.DoFinish? {
      FinishTidy(s, t);
    } else {
      RaiseTidy(s, t);
    }
  }

  lemma StepTidy(s: Loop, step: Step)
    requires Shape(s) && Tidy(s) && Possible(s, step)
    ensures Tidy(Apply(s, step))
  {
    match step
    case DoOpen(ws) =>
    case DoChange(ws, e, v) => ChangeTidy(s, ws, e, v);
    case DoOther(ws) => OwnWorkTidy(s, ws, OtherRun);
    case DoBegin(t) => BeginTidy(s, t);
    case DoAbort(t) => StatusTidy(s, t, Finished);
    case DoFinish(_) => RunTidy(s, step);
    case DoRaise(_) => RunTidy(s, step);
    case DoCallBack(t) => ObjectsExist(s, t); CallBackTidy(s, t);
    case DoTeardown(ws) =>
  }

  lemma {:induction false} EveryStateIsTidy(states: seq<Loop>, steps: seq<Step>, n: nat)
    requires IsRun(states, steps) && n < |states|
    ensures Tidy(states[n])
  {
    if n > 0 {
      EveryStateIsTidy(states, steps, n - 1);
      assert Takes(states[n - 1], steps[n - 1], states[n]);
      StepTidy(states[n - 1], steps[n - 1]);
    }
  }

  /** A task of this connection whose callback has not run. */
  predicate Owns(s: Loop, ws: nat, t: nat) {
    Live(s, t) && s.tasks[t].ws == ws && !s.tasks[t].calledBack
  }

  /** In every state of every run an open connection has an entry in the table of
      interactions exactly while one of its tasks has not been called back, and in the
      table of waiting values exactly while a control's value is in hand. */
  lemma EntriesAreInUse(states: seq<Loop>, steps: seq<Step>, n: nat, ws: nat)
    requires IsRun(states, steps) && n < |states| && ws in states[n].open
    ensures ws in states[n].running <==> exists t :: Owns(states[n], ws, t)
    ensures ws in states[n].uiChanges <==> exists e :: ControlOf(states[n], states[n].open[ws], e).current.Some?
  {
    var s := states[n];
    EveryInterleaving(states, steps, n);
    EveryStateIsTidy(states, steps, n);
    if ws in s.running {
      var t :| t in s.sets[s.running[ws]].tasks;
      assert TaskPlaced(s, t);
      assert Owns(s, ws, t);
    }
    if t :| Owns(s, ws, t) {
      assert TaskPlaced(s, t);
    }
    if ws in s.uiChanges {
      var e :| e in s.dicts[s.uiChanges[ws]].waiting;
      assert ControlAgrees(s, ws, e);
    }
    if e :| ControlOf(s, s.open[ws], e).current.Some? {
      assert ControlAgrees(s, ws, e);
    }
  }

  /** A teardown cancels exactly what the connection still had: every task of its own
      not called back yet, and nobody else's. */
  lemma TeardownCancelsItsOwn(states: seq<Loop>, steps: seq<Step>, at: nat, ws: nat, t: nat)
    requires IsRun(states, steps) && at < |steps| && steps[at] == DoTeardown(ws)
    ensures t in states[at + 1].cancelled <==> t in states[at].cancelled || Owns(states[at], ws, t)
  {
    var s := states[at];
    EveryInterleaving(states, steps, at);
    EveryStateIsTidy(states, steps, at);
    assert Takes(s, steps[at], states[at + 1]);
    if t in s.tasks {
      assert TaskPlaced(s, t);
    }
  }
}
