/** A panel's ui.change messages: one value of a control runs at a time, only the
    newest waits, and nothing a connection started outlives its tables. Between
    awaits the event loop runs one step at a time; every step here may follow any
    other that is possible. */
module UiChanges {
  import opened Text

  type Value = string
  type Element = string

  // ---------------------------------------------------------------------
  // One control's history on one connection
  // ---------------------------------------------------------------------

  /** Every value received, which of them were run (by their place among those
      received), the one in hand, and whether a newer one waits behind it.
      `dropped` is set when a run raised with a value waiting behind it. */
  datatype Control = Control(
    received: seq<Value>, ran: seq<nat>, current: Option<nat>, started: bool, waiting: bool, dropped: bool)
  {
    predicate Increasing() {
      && (forall i, j :: 0 <= i < j < |ran| ==> ran[i] < ran[j])
      && forall i :: 0 <= i < |ran| ==> ran[i] < |received|
    }

    function LastRan(): int {
      if ran == [] then -1 else ran[|ran| - 1]
    }

    /** Runs are an in-order subsequence of what was received. With one in hand,
        it is the newest unless a newer one waits; with none, the last value run
        is the last received, unless a failing run dropped it. */
    predicate Valid() {
      && Increasing()
      && match current
         case Some(i) =>
           && i < |received| && !dropped
           && (waiting <==> i < |received| - 1)
           && (if started then LastRan() == i else LastRan() < i)
         case None =>
           && !started && !waiting
           && (if dropped then LastRan() < |received| - 1 else LastRan() == |received| - 1)
    }

    function Receive(v: Value): Control {
      if current.Some? then this.(received := received + [v], waiting := true)
      else this.(received := received + [v], current := Some(|received|), started := false, waiting := false, dropped := false)
    }

    function Start(): Control
      requires current.Some?
    {
      this.(started := true, ran := ran + [current.value])
    }

    /** The run ended; the newest value runs next. */
    function Advance(): Control
      requires received != []
    {
      this.(current := Some(|received| - 1), waiting := false, ran := ran + [|received| - 1])
    }

    function Settle(): Control {
      this.(current := None, started := false)
    }

    function Fail(): Control {
      this.(current := None, started := false, waiting := false, dropped := waiting)
    }
  }

  const FRESH := Control([], [], None, false, false, false)

  lemma ReceiveKeeps(c: Control, v: Value)
    requires c.Valid()
    ensures c.Receive(v).Valid()
  {
  }

  /** Every way a run goes on or ends keeps the history as it should be. */
  lemma RunKeeps(c: Control)
    requires c.Valid() && c.current.Some?
    ensures !c.started ==> c.Start().Valid()
    ensures c.started && c.waiting ==> c.Advance().Valid()
    ensures c.started && !c.waiting ==> c.Settle().Valid()
    ensures c.started ==> c.Fail().Valid()
  {
  }

  lemma {:induction false} IncreasingIsShort(ran: seq<nat>, n: nat)
    requires forall i, j :: 0 <= i < j < |ran| ==> ran[i] < ran[j]
    requires forall i :: 0 <= i < |ran| ==> ran[i] < n
    ensures |ran| <= n
    decreases n
  {
    if ran != [] {
      IncreasingIsShort(ran[..|ran| - 1], ran[|ran| - 1]);
    }
  }

  /** Finitely many messages drain in finitely many runs: a control runs at most
      as many values as it was sent. */
  lemma Drains(c: Control)
    requires c.Valid()
    ensures |c.ran| <= |c.received|
  {
    IncreasingIsShort(c.ran, |c.received|);
  }

  // ---------------------------------------------------------------------
  // The event loop's tables
  // ---------------------------------------------------------------------

  type Waiting = map<Element, Option<Value>>

  datatype Status = Created | Running | Finished
  datatype Work = ChangeRun(dict: nat, elem: Element, data: Value) | OtherRun

  /** A task a connection owns: the socket's id, the connection (ids are used
      again, connections are not), and the set it was added to. */
  datatype Task = Task(ws: nat, conn: nat, setId: nat, work: Work, status: Status, calledBack: bool)

  /** The object of one connection's `_ui_changes`, and of its
      `_ui_events_running`, with the connection each was made for. */
  datatype Dict = Dict(conn: nat, waiting: Waiting)
  datatype Members = Members(conn: nat, tasks: set<nat>)

  /** `_ui_changes` and `_ui_events_running` hold objects, named here by number.
      `control` and `worker` are the history: what each connection's controls
      received and ran, and the task in charge of each. */
  datatype Loop = Loop(
    next: nat,
    open: map<nat, nat>,
    uiChanges: map<nat, nat>,
    dicts: map<nat, Dict>,
    running: map<nat, nat>,
    sets: map<nat, Members>,
    tasks: map<nat, Task>,
    cancelled: set<nat>,
    control: map<(nat, Element), Control>,
    worker: map<(nat, Element), nat>)

  function ControlOf(s: Loop, conn: nat, e: Element): Control {
    if (conn, e) in s.control then s.control[(conn, e)] else FRESH
  }

  predicate LiveConn(s: Loop, ws: nat, conn: nat) {
    ws in s.open && s.open[ws] == conn
  }

  predicate Live(s: Loop, t: nat) {
    t in s.tasks && LiveConn(s, s.tasks[t].ws, s.tasks[t].conn)
  }

  /** The entry of the connection's `_ui_changes` dict for a control, if any. */
  function EntryOf(s: Loop, ws: nat, e: Element): Option<Option<Value>> {
    if ws in s.uiChanges && s.uiChanges[ws] in s.dicts && e in s.dicts[s.uiChanges[ws]].waiting
    then Some(s.dicts[s.uiChanges[ws]].waiting[e]) else None
  }

  // ---------------------------------------------------------------------
  // The steps
  // ---------------------------------------------------------------------

  function Open(s: Loop, ws: nat): Loop {
    s.(open := s.open[ws := s.next], next := s.next + 1)
  }

  /** `_own_ui_work`. */
  function OwnWork(s: Loop, ws: nat, work: Work): (r: Loop)
    requires ws in s.open && (ws in s.running ==> s.running[ws] in s.sets)
    ensures r.open == s.open
  {
    var conn, t := s.open[ws], s.next;
    var setId := if ws in s.running then s.running[ws] else s.next + 1;
    var members := if ws in s.running then s.sets[setId].tasks else {};
    s.(next := s.next + 2,
       running := s.running[ws := setId],
       sets := s.sets[setId := Members(conn, members + {t})],
       tasks := s.tasks[t := Task(ws, conn, setId, work, Created, false)])
  }

  /** `_ui_changes.setdefault(ws_id, {})`. */
  function WithDict(s: Loop, ws: nat): (r: Loop)
    requires ws in s.open
    ensures r.open == s.open
  {
    if ws in s.uiChanges then s
    else s.(next := s.next + 1,
            uiChanges := s.uiChanges[ws := s.next],
            dicts := s.dicts[s.next := Dict(s.open[ws], map[])])
  }

  function WithEntry(d: Dict, e: Element, v: Option<Value>): Dict {
    d.(waiting := d.waiting[e := v])
  }

  /** A value for a control that has one in hand: it waits, replacing any older
      one waiting. */
  function Queue(s: Loop, ws: nat, e: Element, v: Value): (r: Loop)
    requires ws in s.open && ws in s.uiChanges && s.uiChanges[ws] in s.dicts
    ensures r.open == s.open
  {
    var d, conn := s.uiChanges[ws], s.open[ws];
    s.(dicts := s.dicts[d := WithEntry(s.dicts[d], e, Some(v))],
       control := s.control[(conn, e) := ControlOf(s, conn, e).Receive(v)])
  }

  /** The entry and the history, before the task that will run it is made. */
  function Entered(s: Loop, ws: nat, e: Element, v: Value): (r: Loop)
    requires ws in s.open && ws in s.uiChanges && s.uiChanges[ws] in s.dicts
    ensures r.open == s.open && r.running == s.running && r.sets == s.sets && r.tasks == s.tasks && r.next == s.next
  {
    var d, conn := s.uiChanges[ws], s.open[ws];
    s.(dicts := s.dicts[d := WithEntry(s.dicts[d], e, None)],
       control := s.control[(conn, e) := ControlOf(s, conn, e).Receive(v)],
       worker := s.worker[(conn, e) := s.next])
  }

  /** A value for a control with none in hand: its entry, and a task to run it. */
  function Launch(s: Loop, ws: nat, e: Element, v: Value): (r: Loop)
    requires ws in s.open && ws in s.uiChanges && s.uiChanges[ws] in s.dicts
    requires ws in s.running ==> s.running[ws] in s.sets
    ensures r.open == s.open
  {
    OwnWork(Entered(s, ws, e, v), ws, ChangeRun(s.uiChanges[ws], e, v))
  }

  /** `_run_ui_change`, up to its await. */
  function Change(s: Loop, ws: nat, e: Element, v: Value): (r: Loop)
    requires ws in s.open && TablesAreLive(s)
    ensures r.open == s.open
  {
    var a := WithDict(s, ws);
    if e in a.dicts[a.uiChanges[ws]].waiting then Queue(a, ws, e, v) else Launch(a, ws, e, v)
  }

  function WithStatus(s: Loop, t: nat, status: Status): (r: Loop)
    requires t in s.tasks
    ensures r.open == s.open
  {
    s.(tasks := s.tasks[t := s.tasks[t].(status := status)])
  }

  function Logged(s: Loop, t: nat, c: Control): (r: Loop)
    requires t in s.tasks && s.tasks[t].work.ChangeRun?
    ensures r.open == s.open
  {
    if Live(s, t) then s.(control := s.control[(s.tasks[t].conn, s.tasks[t].work.elem) := c]) else s
  }

  /** The task takes its first step. */
  function Begin(s: Loop, t: nat): (r: Loop)
    requires t in s.tasks
    ensures r.open == s.open
  {
    var task := s.tasks[t];
    var r := WithStatus(s, t, Running);
    if task.work.OtherRun? then r
    else
      var c := ControlOf(s, task.conn, task.work.elem);
      Logged(r, t, if c.current.Some? then c.Start() else c)
  }

  /** A task cancelled before its first step: its body never runs. */
  function Abort(s: Loop, t: nat): (r: Loop)
    requires t in s.tasks
    ensures r.open == s.open
  {
    WithStatus(s, t, Finished)
  }

  /** `changes.pop(element_id)`, as the task ends. */
  function DropEntry(s: Loop, t: nat): (r: Loop)
    requires t in s.tasks && s.tasks[t].work.ChangeRun? && s.tasks[t].work.dict in s.dicts
    ensures r.open == s.open
  {
    var task := s.tasks[t];
    var d, e := task.work.dict, task.work.elem;
    s.(tasks := s.tasks[t := task.(status := Finished)],
       dicts := s.dicts[d := s.dicts[d].(waiting := s.dicts[d].waiting - {e})],
       worker := if Live(s, t) then s.worker - {(task.conn, e)} else s.worker)
  }

  /** The connection's dict goes once it is empty, if it is still the one named. */
  function PopIfEmpty(s: Loop, ws: nat, d: nat): (r: Loop)
    requires d in s.dicts
    ensures r.open == s.open
  {
    if s.dicts[d].waiting == map[] && ws in s.uiChanges && s.uiChanges[ws] == d
    then s.(uiChanges := s.uiChanges - {ws}) else s
  }

  /** The `finally` of `_ui_change_run`. */
  function Leave(s: Loop, t: nat): (r: Loop)
    requires t in s.tasks && s.tasks[t].work.ChangeRun? && s.tasks[t].work.dict in s.dicts
    ensures r.open == s.open
  {
    PopIfEmpty(DropEntry(s, t), s.tasks[t].ws, s.tasks[t].work.dict)
  }

  /** The waiting value becomes the one in hand. */
  function Advanced(s: Loop, t: nat): (r: Loop)
    requires t in s.tasks && s.tasks[t].work.ChangeRun? && s.tasks[t].work.dict in s.dicts
    requires s.tasks[t].work.elem in s.dicts[s.tasks[t].work.dict].waiting
    requires s.dicts[s.tasks[t].work.dict].waiting[s.tasks[t].work.elem].Some?
    ensures r.open == s.open
  {
    var task := s.tasks[t];
    var d, e := task.work.dict, task.work.elem;
    s.(dicts := s.dicts[d := WithEntry(s.dicts[d], e, None)],
       tasks := s.tasks[t := task.(work := task.work.(data := s.dicts[d].waiting[e].value))])
  }

  /** The interaction returned. */
  function Finish(s: Loop, t: nat): (r: Loop)
    requires t in s.tasks && (s.tasks[t].work.ChangeRun? ==> s.tasks[t].work.dict in s.dicts)
    ensures r.open == s.open
  {
    var task := s.tasks[t];
    if task.work.OtherRun? then WithStatus(s, t, Finished)
    else
      var d, e := task.work.dict, task.work.elem;
      var c := ControlOf(s, task.conn, e);
      if e in s.dicts[d].waiting && s.dicts[d].waiting[e].Some? then
        Logged(Advanced(s, t), t, if c.received != [] then c.Advance() else c)
      else Logged(Leave(s, t), t, c.Settle())
  }

  /** The interaction raised, a cancellation among the ways to. */
  function Raise(s: Loop, t: nat): (r: Loop)
    requires t in s.tasks && (s.tasks[t].work.ChangeRun? ==> s.tasks[t].work.dict in s.dicts)
    ensures r.open == s.open
  {
    var task := s.tasks[t];
    if task.work.OtherRun? then WithStatus(s, t, Finished)
    else Logged(Leave(s, t), t, ControlOf(s, task.conn, task.work.elem).Fail())
  }

  /** `interactions.discard(finished)`. */
  function Discard(s: Loop, t: nat): (r: Loop)
    requires t in s.tasks && s.tasks[t].setId in s.sets
    ensures r.open == s.open
  {
    var task := s.tasks[t];
    s.(tasks := s.tasks[t := task.(calledBack := true)],
       sets := s.sets[task.setId := s.sets[task.setId].(tasks := s.sets[task.setId].tasks - {t})])
  }

  /** The connection's set goes once it is empty, if it is still the one named. */
  function PopSetIfEmpty(s: Loop, ws: nat, setId: nat): (r: Loop)
    requires setId in s.sets
    ensures r.open == s.open
  {
    if s.sets[setId].tasks == {} && ws in s.running && s.running[ws] == setId
    then s.(running := s.running - {ws}) else s
  }

  /** A finished task's done-callback. */
  function CallBack(s: Loop, t: nat): (r: Loop)
    requires t in s.tasks && s.tasks[t].setId in s.sets
    ensures r.open == s.open
  {
    PopSetIfEmpty(Discard(s, t), s.tasks[t].ws, s.tasks[t].setId)
  }

  /** The connection ends: both its tables go, and all its tasks are cancelled. */
  function Teardown(s: Loop, ws: nat): Loop
    requires ws in s.running ==> s.running[ws] in s.sets
  {
    s.(open := s.open - {ws}, uiChanges := s.uiChanges - {ws}, running := s.running - {ws},
       cancelled := s.cancelled + if ws in s.running then s.sets[s.running[ws]].tasks else {})
  }

  // ---------------------------------------------------------------------
  // What every step keeps
  // ---------------------------------------------------------------------

  predicate NumbersUsed(s: Loop) {
    && (forall ws <- s.open :: s.open[ws] < s.next)
    && (forall d <- s.dicts :: d < s.next && s.dicts[d].conn < s.next)
    && (forall i <- s.sets :: i < s.next && s.sets[i].conn < s.next)
    && (forall t <- s.tasks :: t < s.next && s.tasks[t].conn < s.next)
    && (forall key <- s.control :: key.0 < s.next)
    && (forall key <- s.worker :: key.0 < s.next)
  }

  predicate ConnectionsDistinct(s: Loop) {
    forall v, w :: v in s.open && w in s.open && s.open[v] == s.open[w] ==> v == w
  }

  /** Both tables name open connections' own objects and nothing else. */
  predicate TablesAreLive(s: Loop) {
    && (forall ws <- s.uiChanges ::
          ws in s.open && s.uiChanges[ws] in s.dicts && s.dicts[s.uiChanges[ws]].conn == s.open[ws])
    && (forall ws <- s.running ::
          ws in s.open && s.running[ws] in s.sets && s.sets[s.running[ws]].conn == s.open[ws])
  }

  /** A task belongs to its connection's objects, and while the connection lives
      and the task is not done with, the connection will find it to cancel it. */
  predicate TaskPlaced(s: Loop, t: nat)
    requires t in s.tasks
  {
    var task := s.tasks[t];
    && task.setId in s.sets && s.sets[task.setId].conn == task.conn
    && (forall x <- s.open :: s.open[x] == task.conn ==> x == task.ws)
    && (task.work.ChangeRun? ==> task.work.dict in s.dicts && s.dicts[task.work.dict].conn == task.conn)
    && (Live(s, t) && !task.calledBack ==>
          task.ws in s.running && s.running[task.ws] == task.setId && t in s.sets[task.setId].tasks)
  }

  predicate TasksPlaced(s: Loop) {
    forall t <- s.tasks :: TaskPlaced(s, t)
  }

  /** An unfinished run of a live connection is the one in charge of its control. */
  predicate InCharge(s: Loop, t: nat)
    requires t in s.tasks
  {
    var task := s.tasks[t];
    Live(s, t) && task.work.ChangeRun? && !task.status.Finished? ==>
      (task.conn, task.work.elem) in s.worker && s.worker[(task.conn, task.work.elem)] == t
  }

  predicate OneInCharge(s: Loop) {
    forall t <- s.tasks :: InCharge(s, t)
  }

  /** A control of a live connection: the dict's entry, the task in charge and the
      history agree. */
  predicate ControlAgrees(s: Loop, ws: nat, e: Element)
    requires ws in s.open
  {
    var conn := s.open[ws];
    var c := ControlOf(s, conn, e);
    && c.Valid()
    && match EntryOf(s, ws, e)
       case None => c.current.None? && (conn, e) !in s.worker
       case Some(entry) =>
         && (conn, e) in s.worker && s.worker[(conn, e)] in s.tasks
         && var task := s.tasks[s.worker[(conn, e)]];
            && task.ws == ws && task.conn == conn && !task.status.Finished?
            && task.work.ChangeRun? && task.work.elem == e && task.work.dict == s.uiChanges[ws]
            && c.current.Some? && task.work.data == c.received[c.current.value]
            && (c.started <==> task.status.Running?)
            && (if c.waiting then entry == Some(c.received[|c.received| - 1]) else entry == None)
  }

  predicate Shape(s: Loop) {
    NumbersUsed(s) && ConnectionsDistinct(s) && TablesAreLive(s) && TasksPlaced(s)
  }

  ghost predicate Valid(s: Loop) {
    Shape(s) && OneInCharge(s) && forall ws, e :: ws in s.open ==> ControlAgrees(s, ws, e)
  }

  lemma OwnWorkPlaced(s: Loop, ws: nat, work: Work, t: nat)
    requires NumbersUsed(s) && ConnectionsDistinct(s) && TablesAreLive(s) && ws in s.open
    requires work.ChangeRun? ==> work.dict in s.dicts && s.dicts[work.dict].conn == s.open[ws]
    requires t in s.tasks ==> TaskPlaced(s, t)
    requires t in s.tasks || t == s.next
    ensures TaskPlaced(OwnWork(s, ws, work), t)
  {
  }

  lemma OwnWorkNumbers(s: Loop, ws: nat, work: Work)
    requires NumbersUsed(s) && TablesAreLive(s) && ConnectionsDistinct(s) && ws in s.open
    ensures NumbersUsed(OwnWork(s, ws, work)) && ConnectionsDistinct(OwnWork(s, ws, work))
  {
  }

  lemma OwnWorkTables(s: Loop, ws: nat, work: Work)
    requires NumbersUsed(s) && TablesAreLive(s) && ConnectionsDistinct(s) && ws in s.open
    ensures TablesAreLive(OwnWork(s, ws, work))
  {
    var r := OwnWork(s, ws, work);
    forall x <- r.running
      ensures x in r.open && r.running[x] in r.sets && r.sets[r.running[x]].conn == r.open[x]
    {
      if x != ws {
        assert x in s.running && s.running[x] in s.sets;
      }
    }
  }

  lemma OwnWorkShape(s: Loop, ws: nat, work: Work)
    requires Shape(s) && ws in s.open
    requires work.ChangeRun? ==> work.dict in s.dicts && s.dicts[work.dict].conn == s.open[ws]
    ensures Shape(OwnWork(s, ws, work))
  {
    var r := OwnWork(s, ws, work);
    OwnWorkNumbers(s, ws, work);
    OwnWorkTables(s, ws, work);
    forall t <- r.tasks ensures TaskPlaced(r, t) {
      assert t in s.tasks ==> TaskPlaced(s, t);
      OwnWorkPlaced(s, ws, work, t);
    }
  }

  lemma WithDictPlaced(s: Loop, ws: nat, t: nat)
    requires NumbersUsed(s) && ws in s.open && t in s.tasks && TaskPlaced(s, t)
    ensures TaskPlaced(WithDict(s, ws), t)
  {
  }

  lemma WithDictTables(s: Loop, ws: nat)
    requires NumbersUsed(s) && ConnectionsDistinct(s) && TablesAreLive(s) && ws in s.open
    ensures NumbersUsed(WithDict(s, ws))
    ensures ConnectionsDistinct(WithDict(s, ws))
    ensures TablesAreLive(WithDict(s, ws))
  {
    if ws !in s.uiChanges {
      var r := WithDict(s, ws);
      forall x <- r.uiChanges
        ensures x in r.open && r.uiChanges[x] in r.dicts && r.dicts[r.uiChanges[x]].conn == r.open[x]
      {
        if x != ws {
          assert x in s.uiChanges && s.uiChanges[x] in s.dicts;
        }
      }
    }
  }

  lemma WithDictShape(s: Loop, ws: nat)
    requires Shape(s) && ws in s.open
    ensures Shape(WithDict(s, ws))
  {
    var r := WithDict(s, ws);
    WithDictTables(s, ws);
    assert r.tasks == s.tasks;
    forall t <- r.tasks ensures TaskPlaced(r, t) {
      WithDictPlaced(s, ws, t);
    }
  }

  lemma DiscardShape(s: Loop, t: nat)
    requires Shape(s) && t in s.tasks && s.tasks[t].setId in s.sets
    ensures Shape(Discard(s, t))
  {
    var r := Discard(s, t);
    forall u <- r.tasks ensures TaskPlaced(r, u) {
      assert TaskPlaced(s, u);
    }
  }

  lemma PopSetIfEmptyShape(s: Loop, ws: nat, setId: nat)
    requires Shape(s) && setId in s.sets
    ensures Shape(PopSetIfEmpty(s, ws, setId))
  {
    var r := PopSetIfEmpty(s, ws, setId);
    forall u <- r.tasks ensures TaskPlaced(r, u) {
      assert TaskPlaced(s, u);
    }
  }

  lemma TeardownShape(s: Loop, ws: nat)
    requires Shape(s) && ws in s.open
    ensures Shape(Teardown(s, ws))
  {
    var r := Teardown(s, ws);
    assert NumbersUsed(r) && ConnectionsDistinct(r);
    forall x <- r.uiChanges ensures x in s.uiChanges && r.uiChanges[x] == s.uiChanges[x] && x in r.open {
    }
    forall x <- r.running ensures x in s.running && r.running[x] == s.running[x] && x in r.open {
    }
    forall t <- r.tasks ensures TaskPlaced(r, t) {
      assert TaskPlaced(s, t);
    }
  }

  lemma DropEntryShape(s: Loop, t: nat)
    requires Shape(s) && t in s.tasks && s.tasks[t].work.ChangeRun? && s.tasks[t].work.dict in s.dicts
    ensures Shape(DropEntry(s, t))
  {
    var r := DropEntry(s, t);
    assert TaskPlaced(s, t);
    forall u <- r.tasks ensures TaskPlaced(r, u) {
      assert TaskPlaced(s, u);
    }
  }

  lemma PopIfEmptyShape(s: Loop, ws: nat, d: nat)
    requires Shape(s) && d in s.dicts
    ensures Shape(PopIfEmpty(s, ws, d))
  {
    var r := PopIfEmpty(s, ws, d);
    forall u <- r.tasks ensures TaskPlaced(r, u) {
      assert TaskPlaced(s, u);
    }
  }

  // ---------------------------------------------------------------------
  // Controls through each step
  // ---------------------------------------------------------------------

  predicate SameTask(a: Task, b: Task) {
    a.ws == b.ws && a.conn == b.conn && a.work == b.work && a.status == b.status
  }

  /** A step that leaves a control's entry, worker and history alone. */
  predicate Untouched(s: Loop, r: Loop, ws: nat, e: Element)
    requires ws in s.open && ws in r.open
  {
    var key := (s.open[ws], e);
    && r.open[ws] == s.open[ws]
    && ControlOf(r, key.0, e) == ControlOf(s, key.0, e)
    && EntryOf(r, ws, e) == EntryOf(s, ws, e)
    && (EntryOf(s, ws, e).Some? ==> r.uiChanges[ws] == s.uiChanges[ws])
    && (key in r.worker <==> key in s.worker)
    && (key in s.worker && s.worker[key] in s.tasks ==>
          r.worker[key] == s.worker[key] && s.worker[key] in r.tasks
          && SameTask(r.tasks[s.worker[key]], s.tasks[s.worker[key]]))
  }

  lemma UntouchedAgrees(s: Loop, r: Loop, ws: nat, e: Element)
    requires ws in s.open && ws in r.open && Untouched(s, r, ws, e) && ControlAgrees(s, ws, e)
    ensures ControlAgrees(r, ws, e)
  {
  }

  lemma OpenShape(s: Loop, ws: nat)
    requires Shape(s) && ws !in s.open
    ensures Shape(Open(s, ws))
  {
    var r := Open(s, ws);
    forall t <- r.tasks ensures TaskPlaced(r, t) {
      assert TaskPlaced(s, t);
    }
  }

  lemma OpenControl(s: Loop, ws: nat, v: nat, e: Element)
    requires NumbersUsed(s) && TablesAreLive(s) && ws !in s.open && (v == ws || (v in s.open && ControlAgrees(s, v, e)))
    ensures ControlAgrees(Open(s, ws), v, e)
  {
    var r := Open(s, ws);
    if v != ws {
      UntouchedAgrees(s, r, v, e);
    } else {
      assert EntryOf(r, ws, e) == None && (s.next, e) !in s.control && (s.next, e) !in s.worker;
    }
  }

  lemma OpenKeeps(s: Loop, ws: nat)
    requires Valid(s) && ws !in s.open
    ensures Valid(Open(s, ws))
  {
    var r := Open(s, ws);
    OpenShape(s, ws);
    forall v, e | v in r.open ensures ControlAgrees(r, v, e) {
      assert v != ws ==> ControlAgrees(s, v, e);
      OpenControl(s, ws, v, e);
    }
    forall t <- r.tasks ensures InCharge(r, t) {
      assert InCharge(s, t);
    }
  }

  lemma OwnWorkControl(s: Loop, ws: nat, work: Work, x: nat, f: Element)
    requires NumbersUsed(s) && TablesAreLive(s) && ws in s.open && x in s.open && ControlAgrees(s, x, f)
    ensures ControlAgrees(OwnWork(s, ws, work), x, f)
  {
    UntouchedAgrees(s, OwnWork(s, ws, work), x, f);
  }

  lemma OwnWorkCharge(s: Loop, ws: nat, t: nat)
    requires NumbersUsed(s) && TablesAreLive(s) && ws in s.open
    requires t in OwnWork(s, ws, OtherRun).tasks && (t in s.tasks ==> InCharge(s, t))
    ensures InCharge(OwnWork(s, ws, OtherRun), t)
  {
  }

  lemma OtherKeeps(s: Loop, ws: nat)
    requires Valid(s) && ws in s.open
    ensures Valid(OwnWork(s, ws, OtherRun))
  {
    var r := OwnWork(s, ws, OtherRun);
    OwnWorkShape(s, ws, OtherRun);
    forall v, e | v in r.open ensures ControlAgrees(r, v, e) {
      OwnWorkControl(s, ws, OtherRun, v, e);
    }
    forall t <- r.tasks ensures InCharge(r, t) {
      OwnWorkCharge(s, ws, t);
    }
  }

  lemma WithDictControl(s: Loop, ws: nat, x: nat, f: Element)
    requires NumbersUsed(s) && TablesAreLive(s) && ws in s.open && x in s.open && ControlAgrees(s, x, f)
    ensures ControlAgrees(WithDict(s, ws), x, f)
  {
    UntouchedAgrees(s, WithDict(s, ws), x, f);
  }

  lemma WithDictKeeps(s: Loop, ws: nat)
    requires Valid(s) && ws in s.open
    ensures Valid(WithDict(s, ws))
  {
    var r := WithDict(s, ws);
    WithDictShape(s, ws);
    forall v, e | v in r.open ensures ControlAgrees(r, v, e) {
      WithDictControl(s, ws, v, e);
    }
    forall t <- r.tasks ensures InCharge(r, t) {
      assert InCharge(s, t);
    }
  }

  lemma QueueShape(s: Loop, ws: nat, e: Element, v: Value)
    requires Shape(s) && ws in s.open && EntryOf(s, ws, e).Some?
    ensures Shape(Queue(s, ws, e, v))
  {
    var r := Queue(s, ws, e, v);
    forall t <- r.tasks ensures TaskPlaced(r, t) {
      assert TaskPlaced(s, t);
    }
  }

  lemma QueueControl(s: Loop, ws: nat, e: Element, v: Value, x: nat, f: Element)
    requires ConnectionsDistinct(s) && TablesAreLive(s) && ws in s.open && EntryOf(s, ws, e).Some?
    requires x in s.open && ControlAgrees(s, x, f)
    ensures ControlAgrees(Queue(s, ws, e, v), x, f)
  {
    if x == ws && f == e {
      ReceiveKeeps(ControlOf(s, s.open[ws], e), v);
    } else {
      UntouchedAgrees(s, Queue(s, ws, e, v), x, f);
    }
  }

  lemma QueueKeeps(s: Loop, ws: nat, e: Element, v: Value)
    requires Valid(s) && ws in s.open && EntryOf(s, ws, e).Some?
    ensures Valid(Queue(s, ws, e, v))
  {
    var r := Queue(s, ws, e, v);
    QueueShape(s, ws, e, v);
    forall t <- r.tasks ensures InCharge(r, t) {
      assert InCharge(s, t);
    }
    forall x, f | x in r.open ensures ControlAgrees(r, x, f) {
      QueueControl(s, ws, e, v, x, f);
    }
  }

  lemma LaunchShape(s: Loop, ws: nat, e: Element, v: Value)
    requires Shape(s) && ws in s.open && ws in s.uiChanges
    ensures Shape(Launch(s, ws, e, v))
  {
    EnteredShape(s, ws, e, v);
    OwnWorkShape(Entered(s, ws, e, v), ws, ChangeRun(s.uiChanges[ws], e, v));
  }

  lemma LaunchOwnControl(s: Loop, ws: nat, e: Element, v: Value)
    requires Shape(s) && ws in s.open && ws in s.uiChanges && EntryOf(s, ws, e).None?
    requires ControlAgrees(s, ws, e)
    ensures ControlAgrees(Launch(s, ws, e, v), ws, e)
  {
    ReceiveKeeps(ControlOf(s, s.open[ws], e), v);
    var r := Launch(s, ws, e, v);
    assert EntryOf(r, ws, e) == Some(None);
    assert r.worker[(s.open[ws], e)] == s.next;
  }

  lemma EnteredShape(s: Loop, ws: nat, e: Element, v: Value)
    requires Shape(s) && ws in s.open && ws in s.uiChanges
    ensures Shape(Entered(s, ws, e, v))
  {
    var b := Entered(s, ws, e, v);
    forall t <- b.tasks ensures TaskPlaced(b, t) {
      assert TaskPlaced(s, t);
    }
  }

  lemma EnteredOtherControl(s: Loop, ws: nat, e: Element, v: Value, x: nat, f: Element)
    requires ConnectionsDistinct(s) && TablesAreLive(s) && ws in s.open && ws in s.uiChanges
    requires x in s.open && ControlAgrees(s, x, f) && !(x == ws && f == e)
    ensures ControlAgrees(Entered(s, ws, e, v), x, f)
  {
    assert (s.open[x], f) != (s.open[ws], e);
    assert x != ws && x in s.uiChanges ==> s.uiChanges[x] != s.uiChanges[ws];
    UntouchedAgrees(s, Entered(s, ws, e, v), x, f);
  }

  lemma LaunchOtherControl(s: Loop, ws: nat, e: Element, v: Value, x: nat, f: Element)
    requires Shape(s) && ws in s.open && ws in s.uiChanges && EntryOf(s, ws, e).None?
    requires x in s.open && ControlAgrees(s, x, f) && !(x == ws && f == e)
    ensures ControlAgrees(Launch(s, ws, e, v), x, f)
  {
    EnteredShape(s, ws, e, v);
    EnteredOtherControl(s, ws, e, v, x, f);
    OwnWorkControl(Entered(s, ws, e, v), ws, ChangeRun(s.uiChanges[ws], e, v), x, f);
  }

  lemma LaunchCharge(s: Loop, ws: nat, e: Element, v: Value, t: nat)
    requires Shape(s) && ws in s.open && ws in s.uiChanges && EntryOf(s, ws, e).None?
    requires ControlAgrees(s, ws, e)
    requires t in Launch(s, ws, e, v).tasks && (t in s.tasks ==> InCharge(s, t))
    ensures InCharge(Launch(s, ws, e, v), t)
  {
  }

  lemma LaunchKeeps(s: Loop, ws: nat, e: Element, v: Value)
    requires Valid(s) && ws in s.open && ws in s.uiChanges && EntryOf(s, ws, e).None?
    ensures Valid(Launch(s, ws, e, v))
  {
    var r := Launch(s, ws, e, v);
    LaunchShape(s, ws, e, v);
    forall t <- r.tasks ensures InCharge(r, t) {
      LaunchCharge(s, ws, e, v, t);
    }
    forall x, f | x in r.open ensures ControlAgrees(r, x, f) {
      if x == ws && f == e {
        LaunchOwnControl(s, ws, e, v);
      } else {
        LaunchOtherControl(s, ws, e, v, x, f);
      }
    }
  }

  lemma ChangeKeeps(s: Loop, ws: nat, e: Element, v: Value)
    requires Valid(s) && ws in s.open
    ensures Valid(Change(s, ws, e, v))
  {
    WithDictKeeps(s, ws);
    var a := WithDict(s, ws);
    if EntryOf(a, ws, e).Some? {
      QueueKeeps(a, ws, e, v);
    } else {
      LaunchKeeps(a, ws, e, v);
    }
  }

  lemma StatusShape(s: Loop, t: nat, status: Status)
    requires Shape(s) && t in s.tasks
    ensures Shape(WithStatus(s, t, status))
  {
    var r := WithStatus(s, t, status);
    forall u <- r.tasks ensures TaskPlaced(r, u) {
      assert TaskPlaced(s, u);
    }
  }

  /** Another task's control is not the one `t` runs. */
  lemma StatusOtherControl(s: Loop, t: nat, status: Status, x: nat, f: Element)
    requires t in s.tasks && x in s.open && ControlAgrees(s, x, f)
    requires (s.open[x], f) in s.worker ==> s.worker[(s.open[x], f)] != t
    ensures ControlAgrees(WithStatus(s, t, status), x, f)
  {
    UntouchedAgrees(s, WithStatus(s, t, status), x, f);
  }

  lemma StatusKeeps(s: Loop, t: nat, status: Status)
    requires Valid(s) && t in s.tasks && !status.Created?
    requires s.tasks[t].work.OtherRun? || !Live(s, t)
    requires s.tasks[t].status.Finished? ==> status.Finished?
    ensures Valid(WithStatus(s, t, status))
  {
    var r := WithStatus(s, t, status);
    StatusShape(s, t, status);
    forall u <- r.tasks ensures InCharge(r, u) {
      assert InCharge(s, u);
    }
    forall x, f | x in r.open ensures ControlAgrees(r, x, f) {
      assert ControlAgrees(s, x, f);
      StatusOtherControl(s, t, status, x, f);
    }
  }

  /** The control a live run is in charge of has an entry and a value in hand. */
  lemma RunHasControl(s: Loop, t: nat)
    requires Valid(s) && Live(s, t) && s.tasks[t].work.ChangeRun? && !s.tasks[t].status.Finished?
    ensures var task := s.tasks[t];
            && ControlAgrees(s, task.ws, task.work.elem) && EntryOf(s, task.ws, task.work.elem).Some?
            && s.worker[(task.conn, task.work.elem)] == t
            && task.ws in s.uiChanges && s.uiChanges[task.ws] == task.work.dict
  {
    assert InCharge(s, t);
    assert ControlAgrees(s, s.tasks[t].ws, s.tasks[t].work.elem);
  }

  lemma BeginOwnControl(s: Loop, t: nat)
    requires Valid(s) && Live(s, t) && s.tasks[t].work.ChangeRun? && s.tasks[t].status.Created?
    ensures ControlAgrees(Begin(s, t), s.tasks[t].ws, s.tasks[t].work.elem)
  {
    RunHasControl(s, t);
    RunKeeps(ControlOf(s, s.tasks[t].conn, s.tasks[t].work.elem));
  }

  lemma BeginShape(s: Loop, t: nat)
    requires Shape(s) && t in s.tasks
    ensures Shape(Begin(s, t))
  {
    StatusShape(s, t, Running);
    var m, r := WithStatus(s, t, Running), Begin(s, t);
    forall u <- r.tasks ensures TaskPlaced(r, u) {
      assert TaskPlaced(m, u);
    }
  }

  lemma StatusCharge(s: Loop, t: nat, u: nat)
    requires t in s.tasks && !s.tasks[t].status.Finished? && u in s.tasks && InCharge(s, t) && InCharge(s, u)
    ensures InCharge(WithStatus(s, t, Running), u)
  {
  }

  lemma LoggedCharge(s: Loop, t: nat, c: Control, u: nat)
    requires t in s.tasks && s.tasks[t].work.ChangeRun? && u in s.tasks && InCharge(s, u)
    ensures InCharge(Logged(s, t, c), u)
  {
  }

  lemma LoggedOtherControl(s: Loop, t: nat, c: Control, x: nat, f: Element)
    requires t in s.tasks && s.tasks[t].work.ChangeRun?
    requires x in s.open && ControlAgrees(s, x, f)
    requires Live(s, t) ==> (s.open[x], f) != (s.tasks[t].conn, s.tasks[t].work.elem)
    ensures ControlAgrees(Logged(s, t, c), x, f)
  {
    UntouchedAgrees(s, Logged(s, t, c), x, f);
  }

  lemma BeginLiveKeeps(s: Loop, t: nat)
    requires Valid(s) && Live(s, t) && s.tasks[t].work.ChangeRun? && s.tasks[t].status.Created?
    ensures Valid(Begin(s, t))
  {
    var r, m := Begin(s, t), WithStatus(s, t, Running);
    var c := ControlOf(s, s.tasks[t].conn, s.tasks[t].work.elem);
    var d := if c.current.Some? then c.Start() else c;
    assert r == Logged(m, t, d);
    BeginShape(s, t);
    forall u <- r.tasks ensures InCharge(r, u) {
      StatusCharge(s, t, u);
      LoggedCharge(m, t, d, u);
    }
    forall x, f | x in r.open ensures ControlAgrees(r, x, f) {
      if x == s.tasks[t].ws && f == s.tasks[t].work.elem {
        BeginOwnControl(s, t);
      } else {
        assert ControlAgrees(s, x, f);
        StatusOtherControl(s, t, Running, x, f);
        LoggedOtherControl(m, t, d, x, f);
      }
    }
  }

  lemma BeginKeeps(s: Loop, t: nat)
    requires Valid(s) && t in s.tasks && s.tasks[t].status.Created?
    ensures Valid(Begin(s, t))
  {
    if s.tasks[t].work.ChangeRun? && Live(s, t) {
      BeginLiveKeeps(s, t);
    } else {
      StatusKeeps(s, t, Running);
    }
  }

  /** Only a closed connection's tasks are ever cancelled, so only its own can end
      before they start. */
  lemma AbortKeeps(s: Loop, t: nat)
    requires Valid(s) && t in s.tasks && s.tasks[t].status.Created? && !Live(s, t)
    ensures Valid(Abort(s, t))
  {
    StatusKeeps(s, t, Finished);
  }

  lemma CallBackControl(s: Loop, t: nat, x: nat, f: Element)
    requires t in s.tasks && s.tasks[t].setId in s.sets && x in s.open && ControlAgrees(s, x, f)
    ensures ControlAgrees(CallBack(s, t), x, f)
  {
    UntouchedAgrees(s, CallBack(s, t), x, f);
  }

  lemma CallBackCharge(s: Loop, t: nat, u: nat)
    requires t in s.tasks && s.tasks[t].setId in s.sets && u in s.tasks && InCharge(s, u)
    ensures InCharge(CallBack(s, t), u)
  {
  }

  lemma CallBackKeeps(s: Loop, t: nat)
    requires Valid(s) && t in s.tasks
    ensures s.tasks[t].setId in s.sets && Valid(CallBack(s, t))
  {
    assert TaskPlaced(s, t);
    var r := CallBack(s, t);
    DiscardShape(s, t);
    PopSetIfEmptyShape(Discard(s, t), s.tasks[t].ws, s.tasks[t].setId);
    forall u <- r.tasks ensures InCharge(r, u) {
      CallBackCharge(s, t, u);
    }
    forall x, f | x in r.open ensures ControlAgrees(r, x, f) {
      CallBackControl(s, t, x, f);
    }
  }

  lemma TeardownKeeps(s: Loop, ws: nat)
    requires Valid(s) && ws in s.open
    ensures Valid(Teardown(s, ws))
  {
    var r := Teardown(s, ws);
    TeardownShape(s, ws);
    forall u <- r.tasks ensures InCharge(r, u) {
      assert InCharge(s, u);
    }
    forall x, f | x in r.open ensures ControlAgrees(r, x, f) {
      assert ControlAgrees(s, x, f);
      UntouchedAgrees(s, r, x, f);
    }
  }

  // Leaving: the run is over and its entry goes.

  lemma LeaveShape(s: Loop, t: nat)
    requires Shape(s) && t in s.tasks && s.tasks[t].work.ChangeRun?
    ensures s.tasks[t].work.dict in s.dicts && Shape(Leave(s, t))
  {
    assert TaskPlaced(s, t);
    DropEntryShape(s, t);
    PopIfEmptyShape(DropEntry(s, t), s.tasks[t].ws, s.tasks[t].work.dict);
  }

  lemma DropOtherControl(s: Loop, t: nat, x: nat, f: Element)
    requires Shape(s) && t in s.tasks && s.tasks[t].work.ChangeRun? && s.tasks[t].work.dict in s.dicts
    requires x in s.open && ControlAgrees(s, x, f)
    requires (s.open[x], f) in s.worker ==> s.worker[(s.open[x], f)] != t
    requires Live(s, t) ==> (s.open[x], f) != (s.tasks[t].conn, s.tasks[t].work.elem)
    ensures ControlAgrees(DropEntry(s, t), x, f)
  {
    assert TaskPlaced(s, t);
    var r := DropEntry(s, t);
    assert x in s.uiChanges && s.uiChanges[x] == s.tasks[t].work.dict ==> x == s.tasks[t].ws && Live(s, t);
    assert EntryOf(r, x, f) == EntryOf(s, x, f);
    UntouchedAgrees(s, r, x, f);
  }

  /** An empty dict going takes no control's entry with it. */
  lemma PopControl(s: Loop, ws: nat, d: nat, x: nat, f: Element)
    requires d in s.dicts && x in s.open && ControlAgrees(s, x, f)
    ensures ControlAgrees(PopIfEmpty(s, ws, d), x, f)
  {
    UntouchedAgrees(s, PopIfEmpty(s, ws, d), x, f);
  }

  lemma LeaveOtherControl(s: Loop, t: nat, x: nat, f: Element)
    requires Shape(s) && t in s.tasks && s.tasks[t].work.ChangeRun? && s.tasks[t].work.dict in s.dicts
    requires x in s.open && ControlAgrees(s, x, f)
    requires (s.open[x], f) in s.worker ==> s.worker[(s.open[x], f)] != t
    requires Live(s, t) ==> (s.open[x], f) != (s.tasks[t].conn, s.tasks[t].work.elem)
    ensures ControlAgrees(Leave(s, t), x, f)
  {
    DropOtherControl(s, t, x, f);
    PopControl(DropEntry(s, t), s.tasks[t].ws, s.tasks[t].work.dict, x, f);
  }

  lemma LeaveOwnEntry(s: Loop, t: nat)
    requires Shape(s) && Live(s, t) && s.tasks[t].work.ChangeRun? && s.tasks[t].work.dict in s.dicts
    requires s.tasks[t].ws in s.uiChanges && s.uiChanges[s.tasks[t].ws] == s.tasks[t].work.dict
    ensures EntryOf(Leave(s, t), s.tasks[t].ws, s.tasks[t].work.elem) == None
    ensures (s.tasks[t].conn, s.tasks[t].work.elem) !in Leave(s, t).worker
    ensures Live(Leave(s, t), t)
  {
  }

  lemma LeaveCharge(s: Loop, t: nat, u: nat)
    requires t in s.tasks && s.tasks[t].work.ChangeRun? && s.tasks[t].work.dict in s.dicts
    requires u in s.tasks && InCharge(s, u) && InCharge(s, t)
    requires !s.tasks[t].status.Finished?
    ensures InCharge(Leave(s, t), u)
  {
    if u != t && Live(s, u) && Live(s, t) && s.tasks[u].work.ChangeRun? && !s.tasks[u].status.Finished? {
      assert (s.tasks[u].conn, s.tasks[u].work.elem) != (s.tasks[t].conn, s.tasks[t].work.elem);
    }
  }

  lemma LoggedShape(s: Loop, t: nat, c: Control)
    requires Shape(s) && t in s.tasks && s.tasks[t].work.ChangeRun?
    ensures Shape(Logged(s, t, c))
  {
    var r := Logged(s, t, c);
    forall u <- r.tasks ensures TaskPlaced(r, u) {
      assert TaskPlaced(s, u);
    }
  }

  /** A run ends, and what its control's history becomes is a settled one. */
  lemma LeaveKeeps(s: Loop, t: nat, c: Control)
    requires Valid(s) && t in s.tasks && s.tasks[t].work.ChangeRun? && !s.tasks[t].status.Finished?
    requires Live(s, t) ==> c.Valid() && c.current.None?
    ensures s.tasks[t].work.dict in s.dicts && Valid(Logged(Leave(s, t), t, c))
  {
    LeaveShape(s, t);
    LoggedShape(Leave(s, t), t, c);
    var r := Logged(Leave(s, t), t, c);
    forall u <- r.tasks ensures InCharge(r, u) {
      assert InCharge(s, u) && InCharge(s, t);
      LeaveCharge(s, t, u);
      LoggedCharge(Leave(s, t), t, c, u);
    }
    if Live(s, t) {
      RunHasControl(s, t);
      LeaveOwnEntry(s, t);
    }
    forall x, f | x in r.open ensures ControlAgrees(r, x, f) {
      assert ControlAgrees(s, x, f);
      if !(Live(s, t) && x == s.tasks[t].ws && f == s.tasks[t].work.elem) {
        LeaveOtherControl(s, t, x, f);
        LoggedOtherControl(Leave(s, t), t, c, x, f);
      }
    }
  }

  lemma RaiseKeeps(s: Loop, t: nat)
    requires Valid(s) && t in s.tasks && s.tasks[t].status.Running?
    ensures (s.tasks[t].work.ChangeRun? ==> s.tasks[t].work.dict in s.dicts) && Valid(Raise(s, t))
  {
    var task := s.tasks[t];
    if task.work.OtherRun? {
      StatusKeeps(s, t, Finished);
    } else {
      var c := ControlOf(s, task.conn, task.work.elem);
      if Live(s, t) {
        RunHasControl(s, t);
        RunKeeps(c);
      }
      LeaveKeeps(s, t, c.Fail());
    }
  }

  // Advancing: the waiting value runs next.

  lemma AdvancedShape(s: Loop, t: nat)
    requires Shape(s) && t in s.tasks && s.tasks[t].work.ChangeRun? && s.tasks[t].work.dict in s.dicts
    requires s.tasks[t].work.elem in s.dicts[s.tasks[t].work.dict].waiting
    requires s.dicts[s.tasks[t].work.dict].waiting[s.tasks[t].work.elem].Some?
    ensures Shape(Advanced(s, t))
  {
    var r := Advanced(s, t);
    forall u <- r.tasks ensures TaskPlaced(r, u) {
      assert TaskPlaced(s, u);
    }
  }

  lemma AdvancedOtherControl(s: Loop, t: nat, x: nat, f: Element)
    requires Shape(s) && t in s.tasks && s.tasks[t].work.ChangeRun? && s.tasks[t].work.dict in s.dicts
    requires s.tasks[t].work.elem in s.dicts[s.tasks[t].work.dict].waiting
    requires s.dicts[s.tasks[t].work.dict].waiting[s.tasks[t].work.elem].Some?
    requires x in s.open && ControlAgrees(s, x, f)
    requires (s.open[x], f) in s.worker ==> s.worker[(s.open[x], f)] != t
    requires Live(s, t) ==> (s.open[x], f) != (s.tasks[t].conn, s.tasks[t].work.elem)
    ensures ControlAgrees(Advanced(s, t), x, f)
  {
    assert TaskPlaced(s, t);
    if x in s.uiChanges && s.uiChanges[x] == s.tasks[t].work.dict {
      assert x == s.tasks[t].ws && Live(s, t);
    }
    UntouchedAgrees(s, Advanced(s, t), x, f);
  }

  lemma AdvancedOwnControl(s: Loop, t: nat)
    requires Valid(s) && Live(s, t) && s.tasks[t].work.ChangeRun? && s.tasks[t].work.dict in s.dicts
    requires s.tasks[t].status.Running?
    requires s.tasks[t].work.elem in s.dicts[s.tasks[t].work.dict].waiting
    requires s.dicts[s.tasks[t].work.dict].waiting[s.tasks[t].work.elem].Some?
    ensures var c := ControlOf(s, s.tasks[t].conn, s.tasks[t].work.elem);
            c.received != [] &&
            ControlAgrees(Logged(Advanced(s, t), t, c.Advance()), s.tasks[t].ws, s.tasks[t].work.elem)
  {
    RunHasControl(s, t);
    RunKeeps(ControlOf(s, s.tasks[t].conn, s.tasks[t].work.elem));
  }

  lemma AdvancedCharge(s: Loop, t: nat, u: nat)
    requires t in s.tasks && s.tasks[t].work.ChangeRun? && s.tasks[t].work.dict in s.dicts
    requires s.tasks[t].work.elem in s.dicts[s.tasks[t].work.dict].waiting
    requires s.dicts[s.tasks[t].work.dict].waiting[s.tasks[t].work.elem].Some?
    requires u in s.tasks && InCharge(s, u)
    ensures InCharge(Advanced(s, t), u)
  {
  }

  lemma AdvancedKeeps(s: Loop, t: nat, d: Control)
    requires Valid(s) && t in s.tasks && s.tasks[t].work.ChangeRun? && s.tasks[t].work.dict in s.dicts
    requires !s.tasks[t].status.Finished?
    requires s.tasks[t].work.elem in s.dicts[s.tasks[t].work.dict].waiting
    requires s.dicts[s.tasks[t].work.dict].waiting[s.tasks[t].work.elem].Some?
    requires Live(s, t) ==> ControlAgrees(Logged(Advanced(s, t), t, d), s.tasks[t].ws, s.tasks[t].work.elem)
    ensures Valid(Logged(Advanced(s, t), t, d))
  {
    var r := Logged(Advanced(s, t), t, d);
    AdvancedShape(s, t);
    LoggedShape(Advanced(s, t), t, d);
    forall u <- r.tasks ensures InCharge(r, u) {
      AdvancedCharge(s, t, u);
      LoggedCharge(Advanced(s, t), t, d, u);
    }
    forall x, f | x in r.open ensures ControlAgrees(r, x, f) {
      if !(Live(s, t) && x == s.tasks[t].ws && f == s.tasks[t].work.elem) {
        AdvancedOtherControl(s, t, x, f);
        LoggedOtherControl(Advanced(s, t), t, d, x, f);
      }
    }
  }

  lemma AdvanceKeeps(s: Loop, t: nat)
    requires Valid(s) && t in s.tasks && s.tasks[t].work.ChangeRun? && s.tasks[t].work.dict in s.dicts
    requires s.tasks[t].status.Running?
    requires s.tasks[t].work.elem in s.dicts[s.tasks[t].work.dict].waiting
    requires s.dicts[s.tasks[t].work.dict].waiting[s.tasks[t].work.elem].Some?
    ensures Valid(Finish(s, t))
  {
    var c := ControlOf(s, s.tasks[t].conn, s.tasks[t].work.elem);
    if Live(s, t) {
      AdvancedOwnControl(s, t);
    }
    AdvancedKeeps(s, t, if c.received != [] then c.Advance() else c);
  }

  lemma FinishKeeps(s: Loop, t: nat)
    requires Valid(s) && t in s.tasks && s.tasks[t].status.Running?
    ensures (s.tasks[t].work.ChangeRun? ==> s.tasks[t].work.dict in s.dicts) && Valid(Finish(s, t))
  {
    var task := s.tasks[t];
    assert TaskPlaced(s, t);
    if task.work.OtherRun? {
      StatusKeeps(s, t, Finished);
    } else if task.work.elem in s.dicts[task.work.dict].waiting && s.dicts[task.work.dict].waiting[task.work.elem].Some? {
      AdvanceKeeps(s, t);
    } else {
      var c := ControlOf(s, task.conn, task.work.elem);
      if Live(s, t) {
        RunHasControl(s, t);
        RunKeeps(c);
      }
      LeaveKeeps(s, t, c.Settle());
    }
  }

  // ---------------------------------------------------------------------
  // Every interleaving
  // ---------------------------------------------------------------------

  datatype Step =
    | DoOpen(ws: nat)
    | DoChange(ws: nat, elem: Element, value: Value)
    | DoOther(ws: nat)
    | DoBegin(task: nat)
    | DoAbort(task: nat)
    | DoFinish(task: nat)
    | DoRaise(task: nat)
    | DoCallBack(task: nat)
    | DoTeardown(ws: nat)

  /** Whether the event loop could take this step now. A task is cancelled before
      its start only once its connection has closed. */
  predicate Possible(s: Loop, step: Step) {
    match step
    case DoOpen(ws) => ws !in s.open
    case DoChange(ws, _, _) => ws in s.open
    case DoOther(ws) => ws in s.open
    case DoBegin(t) => t in s.tasks && s.tasks[t].status.Created?
    case DoAbort(t) => t in s.tasks && s.tasks[t].status.Created? && !Live(s, t)
    case DoFinish(t) => t in s.tasks && s.tasks[t].status.Running?
    case DoRaise(t) => t in s.tasks && s.tasks[t].status.Running?
    case DoCallBack(t) => t in s.tasks && s.tasks[t].status.Finished? && !s.tasks[t].calledBack
    case DoTeardown(ws) => ws in s.open
  }

  lemma ObjectsExist(s: Loop, t: nat)
    requires Shape(s) && t in s.tasks
    ensures s.tasks[t].setId in s.sets && (s.tasks[t].work.ChangeRun? ==> s.tasks[t].work.dict in s.dicts)
  {
    assert TaskPlaced(s, t);
  }

  function Apply(s: Loop, step: Step): Loop
    requires Shape(s) && Possible(s, step)
  {
    match step
    case DoOpen(ws) => Open(s, ws)
    case DoChange(ws, e, v) => Change(s, ws, e, v)
    case DoOther(ws) => OwnWork(s, ws, OtherRun)
    case DoBegin(t) => Begin(s, t)
    case DoAbort(t) => Abort(s, t)
    case DoFinish(t) => ObjectsExist(s, t); Finish(s, t)
    case DoRaise(t) => ObjectsExist(s, t); Raise(s, t)
    case DoCallBack(t) => ObjectsExist(s, t); CallBack(s, t)
    case DoTeardown(ws) => Teardown(s, ws)
  }

  lemma StepKeeps(s: Loop, step: Step)
    requires Valid(s) && Possible(s, step)
    ensures Valid(Apply(s, step))
  {
    match step
    case DoOpen(ws) => OpenKeeps(s, ws);
    case DoChange(ws, e, v) => ChangeKeeps(s, ws, e, v);
    case DoOther(ws) => OtherKeeps(s, ws);
    case DoBegin(t) => BeginKeeps(s, t);
    case DoAbort(t) => AbortKeeps(s, t);
    case DoFinish(t) => FinishKeeps(s, t);
    case DoRaise(t) => RaiseKeeps(s, t);
    case DoCallBack(t) => CallBackKeeps(s, t);
    case DoTeardown(ws) => TeardownKeeps(s, ws);
  }

  const NOTHING := Loop(0, map[], map[], map[], map[], map[], map[], {}, map[], map[])

  /** The loop takes this step. */
  predicate Takes(s: Loop, step: Step, r: Loop) {
    Shape(s) && Possible(s, step) && r == Apply(s, step)
  }

  /** A run of the event loop, from nothing connected. */
  ghost predicate IsRun(states: seq<Loop>, steps: seq<Step>) {
    && |states| == |steps| + 1 && states[0] == NOTHING
    && forall i :: 0 <= i < |steps| ==> Takes(states[i], steps[i], states[i + 1])
  }

  lemma TakesKeeps(s: Loop, step: Step, r: Loop)
    requires Valid(s) && Takes(s, step, r)
    ensures Valid(r)
  {
    StepKeeps(s, step);
  }

  lemma NothingIsValid()
    ensures Valid(NOTHING)
  {
  }

  /** Whatever order the event loop takes its steps in. */
  lemma {:induction false} EveryInterleaving(states: seq<Loop>, steps: seq<Step>, n: nat)
    requires IsRun(states, steps) && n < |states|
    ensures Valid(states[n])
  {
    if n == 0 {
      NothingIsValid();
    } else {
      EveryInterleaving(states, steps, n - 1);
      TakesKeeps(states[n - 1], steps[n - 1], states[n]);
    }
  }

  predicate StaysClosed(steps: seq<Step>, ws: nat, from: nat) {
    forall i :: from <= i < |steps| ==> steps[i] != DoOpen(ws)
  }

  lemma OpensOnlyByOpening(s: Loop, step: Step, ws: nat)
    requires Shape(s) && Possible(s, step) && ws !in s.open && step != DoOpen(ws)
    ensures ws !in Apply(s, step).open
  {
    match step
    case DoOpen(_) =>
    case DoTeardown(_) =>
    case _ => assert Apply(s, step).open == s.open;
  }

  lemma {:induction false} ClosedStaysClosed(states: seq<Loop>, steps: seq<Step>, ws: nat, from: nat, n: nat)
    requires IsRun(states, steps) && from <= n < |states| && ws !in states[from].open
    requires StaysClosed(steps, ws, from)
    ensures ws !in states[n].open
  {
    if n > from {
      ClosedStaysClosed(states, steps, ws, from, n - 1);
      assert Takes(states[n - 1], steps[n - 1], states[n]);
      OpensOnlyByOpening(states[n - 1], steps[n - 1], ws);
    }
  }

  /** After teardown both of the connection's tables are gone, every interaction it
      still had was cancelled, and whatever its late tasks and callbacks do,
      neither table comes back until the socket's id connects again. */
  lemma TornDownForGood(states: seq<Loop>, steps: seq<Step>, ws: nat, at: nat, n: nat)
    requires IsRun(states, steps) && at < |steps| && steps[at] == DoTeardown(ws)
    requires at < n < |states| && StaysClosed(steps, ws, at)
    ensures ws !in states[n].uiChanges && ws !in states[n].running
    ensures forall t <- states[at].tasks ::
              Live(states[at], t) && states[at].tasks[t].ws == ws && !states[at].tasks[t].calledBack ==>
                t in states[at + 1].cancelled
  {
    EveryInterleaving(states, steps, at);
    EveryInterleaving(states, steps, n);
    assert Takes(states[at], steps[at], states[at + 1]);
    ClosedStaysClosed(states, steps, ws, at + 1, n);
    forall t <- states[at].tasks
      ensures Live(states[at], t) && states[at].tasks[t].ws == ws && !states[at].tasks[t].calledBack ==>
                t in states[at + 1].cancelled
    {
      assert TaskPlaced(states[at], t);
    }
  }

  /** The connection open on `x` finds the same tables, holding the same. */
  predicate SameTables(s: Loop, r: Loop, x: nat) {
    && (x in r.uiChanges <==> x in s.uiChanges)
    && (x in s.uiChanges ==> r.uiChanges[x] == s.uiChanges[x])
    && (x in s.uiChanges && s.uiChanges[x] in s.dicts ==>
          s.uiChanges[x] in r.dicts && r.dicts[s.uiChanges[x]] == s.dicts[s.uiChanges[x]])
    && (x in r.running <==> x in s.running)
    && (x in s.running ==> r.running[x] == s.running[x])
    && (x in s.running && s.running[x] in s.sets ==>
          s.running[x] in r.sets && r.sets[s.running[x]] == s.sets[s.running[x]])
  }

  lemma ClosedOwnsNothing(s: Loop, t: nat, x: nat)
    requires Shape(s) && t in s.tasks && !Live(s, t) && x in s.open
    ensures x in s.uiChanges && s.tasks[t].work.ChangeRun? ==> s.uiChanges[x] != s.tasks[t].work.dict
    ensures x in s.running ==> s.running[x] != s.tasks[t].setId
  {
    assert TaskPlaced(s, t);
  }

  lemma LateLeaveTouchesNothing(s: Loop, t: nat, c: Control, x: nat)
    requires Shape(s) && t in s.tasks && !Live(s, t) && x in s.open
    requires s.tasks[t].work.ChangeRun? && s.tasks[t].work.dict in s.dicts
    ensures SameTables(s, Logged(Leave(s, t), t, c), x)
  {
    ClosedOwnsNothing(s, t, x);
  }

  lemma LateAdvanceTouchesNothing(s: Loop, t: nat, c: Control, x: nat)
    requires Shape(s) && t in s.tasks && !Live(s, t) && x in s.open
    requires s.tasks[t].work.ChangeRun? && s.tasks[t].work.dict in s.dicts
    requires s.tasks[t].work.elem in s.dicts[s.tasks[t].work.dict].waiting
    requires s.dicts[s.tasks[t].work.dict].waiting[s.tasks[t].work.elem].Some?
    ensures SameTables(s, Logged(Advanced(s, t), t, c), x)
  {
    ClosedOwnsNothing(s, t, x);
  }

  lemma LateFinishTouchesNothing(s: Loop, t: nat, x: nat)
    requires Shape(s) && t in s.tasks && !Live(s, t) && x in s.open
    requires s.tasks[t].work.ChangeRun? ==> s.tasks[t].work.dict in s.dicts
    ensures SameTables(s, Finish(s, t), x)
  {
    var task := s.tasks[t];
    if task.work.ChangeRun? {
      var c := ControlOf(s, task.conn, task.work.elem);
      if task.work.elem in s.dicts[task.work.dict].waiting && s.dicts[task.work.dict].waiting[task.work.elem].Some? {
        LateAdvanceTouchesNothing(s, t, if c.received != [] then c.Advance() else c, x);
      } else {
        LateLeaveTouchesNothing(s, t, c.Settle(), x);
      }
    }
  }

  lemma LateCallBackTouchesNothing(s: Loop, t: nat, x: nat)
    requires Shape(s) && t in s.tasks && !Live(s, t) && x in s.open && s.tasks[t].setId in s.sets
    ensures SameTables(s, CallBack(s, t), x)
  {
    ClosedOwnsNothing(s, t, x);
  }

  lemma LateBeginTouchesNothing(s: Loop, t: nat, x: nat)
    requires t in s.tasks && x in s.open
    ensures SameTables(s, Begin(s, t), x) && SameTables(s, Abort(s, t), x)
  {
  }

  /** A task whose connection has closed leaves every open connection's tables as
      they are, the tables of one that has taken over its socket's id included. */
  lemma LateStepsTouchNothing(s: Loop, step: Step, x: nat)
    requires Shape(s) && Possible(s, step) && x in s.open
    requires step.DoBegin? || step.DoAbort? || step.DoFinish? || step.DoRaise? || step.DoCallBack?
    requires !Live(s, step.task)
    ensures SameTables(s, Apply(s, step), x)
  {
    var t := step.task;
    ObjectsExist(s, t);
    match step
    case DoBegin(_) => LateBeginTouchesNothing(s, t, x);
    case DoAbort(_) => LateBeginTouchesNothing(s, t, x);
    case DoFinish(_) => LateFinishTouchesNothing(s, t, x);
    case DoCallBack(_) => LateCallBackTouchesNothing(s, t, x);
    case DoRaise(_) =>
      if s.tasks[t].work.ChangeRun? {
        LateLeaveTouchesNothing(s, t, ControlOf(s, s.tasks[t].conn, s.tasks[t].work.elem).Fail(), x);
      }
  }
}
