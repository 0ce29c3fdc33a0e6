/** The safety net under a change of who can connect: a marker on disk that
    takes the change back unless the Programmer is opened through it in time. */
module SafetyNet {
  import opened Text
  import opened ConfigTree
  import opened SystemConfig
  import opened Listen
  import opened ReachDevices
  import opened Settling

  const DEADLINE_SECONDS := 600.0

  /** A choice as the marker keeps it. */
  datatype ChoiceRecord = ChoiceRecord(mode: Mode, adapter: AdapterIdentity)

  datatype Marker = Marker(
    previous: ChoiceRecord, choice: ChoiceRecord, armedAt: real,
    listeningSince: Option<real>, deadlineSeconds: real)

  function RecordOf(c: ListenChoice): ChoiceRecord {
    ChoiceRecord(c.mode, c.adapter)
  }

  predicate SameChoice(running: ListenChoice, stored: ChoiceRecord) {
    RecordOf(running) == stored
  }

  /** What a start makes of the marker once its sockets are bound. */
  function Noted(marker: Option<Marker>, running: ListenChoice, now: real): Option<Marker> {
    if marker.None? then None
    else if running.heldBy.Some? || !SameChoice(running, marker.value.choice) then None
    else if marker.value.listeningSince.None? then Some(marker.value.(listeningSince := Some(now)))
    else marker
  }

  /** `due`: the deadline has passed unconfirmed. */
  predicate Due(marker: Option<Marker>, now: real) {
    marker.Some? && marker.value.listeningSince.Some?
    && now >= marker.value.listeningSince.value + marker.value.deadlineSeconds
  }

  /** The configuration with the previous choice written back, before a save. */
  function Reverted(c: Config, previous: ChoiceRecord): Outcome<Config> {
    var c1 :- Set(c, "network", MODE_KEY, Str(ModeText(previous.mode)));
    var c2 :- Set(c1, "network", ADAPTER_KEY, IdentityJson(previous.adapter));
    RefreshListenMirror(c2)
  }

  /** The persisted layer holds this choice as a revert writes it. */
  predicate WroteBack(c: Config, choice: ChoiceRecord) {
    && StoredNetwork(c, MODE_KEY) == Str(ModeText(choice.mode))
    && StoredNetwork(c, ADAPTER_KEY) == IdentityJson(choice.adapter)
  }

  // ---------------------------------------------------------------------
  // The net, with everything that happened to it
  // ---------------------------------------------------------------------

  datatype Event =
    | Armed(previous: ChoiceRecord, choice: ChoiceRecord, at: real)
    | Cleared
    | Started(running: ListenChoice, at: real)
    | ConfirmAsked(running: ListenChoice)
    | Ticked(at: real, reverted: bool, writes: nat)

  predicate Runs(e: Event, choice: ChoiceRecord) {
    e.Started? && e.running.heldBy.None? && SameChoice(e.running, choice)
  }

  /** A change armed at `a`, and since then no start, no other change and nothing
      cleared: whatever else happened, it is still to be started on. */
  predicate Waiting(log: seq<Event>, a: nat) {
    && a < |log| && log[a].Armed?
    && forall i :: a < i < |log| ==> log[i].ConfirmAsked? || log[i].Ticked?
  }

  /** Leaves a running clock as it is: a start on the same choice, a confirmation
      through another one, a tick that did not take the marker away. */
  predicate LetsRun(e: Event, choice: ChoiceRecord) {
    || Runs(e, choice)
    || (e.ConfirmAsked? && !SameChoice(e.running, choice))
    || (e.Ticked? && !(e.reverted && e.writes >= 3))
  }

  /** A change armed at `a`, first started on at `s`, and since then neither
      confirmed, taken back nor left. */
  predicate Counting(log: seq<Event>, a: nat, s: nat) {
    && a < s < |log| && Waiting(log[..s], a) && Runs(log[s], log[a].choice)
    && forall i :: s < i < |log| ==> LetsRun(log[i], log[a].choice)
  }

  function MarkerOf(e: Event, since: Option<real>): Marker
    requires e.Armed?
  {
    Marker(e.previous, e.choice, e.at, since, DEADLINE_SECONDS)
  }

  /** The marker is there exactly while a change waits or runs, and says which. */
  ghost predicate Tells(marker: Option<Marker>, log: seq<Event>) {
    && (forall a: nat :: Waiting(log, a) ==> marker == Some(MarkerOf(log[a], None)))
    && (forall a: nat, s: nat :: Counting(log, a, s) ==> marker == Some(MarkerOf(log[a], Some(log[s].at))))
    && (marker.Some? ==> (exists a: nat :: Waiting(log, a)) || exists a: nat, s: nat :: Counting(log, a, s))
  }

  class SafetyNet {
    var marker: Option<Marker>
    var notice: bool
    ghost var log: seq<Event>

    ghost predicate Valid()
      reads this
    {
      Tells(marker, log)
    }

    constructor ()
      ensures Valid() && marker == None && log == []
    {
      marker, notice, log := None, false, [];
    }

    method Arm(previous: ListenChoice, choice: ListenChoice, now: real)
      modifies this
      ensures Valid() && notice == old(notice)
      ensures log == old(log) + [Armed(RecordOf(previous), RecordOf(choice), now)]
      ensures marker == Some(Marker(RecordOf(previous), RecordOf(choice), now, None, DEADLINE_SECONDS))
    {
      marker := Some(Marker(RecordOf(previous), RecordOf(choice), now, None, DEADLINE_SECONDS));
      AfterArmed(log, Armed(RecordOf(previous), RecordOf(choice), now));
      log := log + [Armed(RecordOf(previous), RecordOf(choice), now)];
    }

    method Clear()
      modifies this
      ensures Valid() && marker == None && log == old(log) + [Cleared] && notice == old(notice)
    {
      marker := None;
      AfterCleared(log);
      log := log + [Cleared];
    }

    /** `note_listening`: the first start on a waiting change starts its clock, a
        later one on the same change leaves the clock where it was, and any other
        start takes the marker away. */
    method NoteListening(running: ListenChoice, now: real)
      requires Valid()
      modifies this
      ensures Valid() && log == old(log) + [Started(running, now)] && notice == old(notice)
      ensures marker == Noted(old(marker), running, now)
      ensures forall a: nat :: Waiting(old(log), a) && Runs(Started(running, now), old(log)[a].choice) ==>
                marker == Some(MarkerOf(old(log)[a], Some(now)))
      ensures forall a: nat, s: nat :: Counting(old(log), a, s) && Runs(Started(running, now), old(log)[a].choice) ==>
                marker == Some(MarkerOf(old(log)[a], Some(old(log)[s].at)))
      ensures (forall a: nat :: Waiting(old(log), a) ==> !Runs(Started(running, now), old(log)[a].choice))
              && (forall a: nat, s: nat :: Counting(old(log), a, s) ==> !Runs(Started(running, now), old(log)[a].choice)) ==>
                marker == None
    {
      AfterStarted(marker, log, running, now);
      log := log + [Started(running, now)];
      if marker.None? { return; }
      var m := marker.value;
      if running.heldBy.Some? || !SameChoice(running, m.choice) {
        marker := None;
      } else if m.listeningSince.None? {
        marker := Some(m.(listeningSince := Some(now)));
      }
    }

    /** `confirm`: true when it kept the new choice, which is when the change runs and
        this server runs its choice. */
    method Confirm(running: ListenChoice) returns (kept: bool)
      requires Valid()
      modifies this
      ensures Valid() && log == old(log) + [ConfirmAsked(running)] && notice == old(notice)
      ensures kept <==> exists a: nat, s: nat :: Counting(old(log), a, s) && SameChoice(running, old(log)[a].choice)
      ensures marker == if kept then None else old(marker)
    {
      AfterConfirmAsked(marker, log, running);
      log := log + [ConfirmAsked(running)];
      kept := marker.Some? && marker.value.listeningSince.Some? && SameChoice(running, marker.value.choice);
      if kept { marker := None; }
    }

    /** `revert`, cut short after `writes` of its three disk writes: the
        configuration (which a failing disk refuses), the notice, the marker. */
    method Revert(cfg: SystemConfigFile, writes: nat, saveOk: bool) returns (ok: bool)
      requires marker.Some?
      modifies this`marker, this`notice, cfg
      ensures ok == Reverted(old(cfg.View()), old(marker).value.previous).Ok?
      ensures !ok ==> cfg.disk == old(cfg.disk) && marker == old(marker) && notice == old(notice)
      ensures ok ==>
                && marker == (if writes >= 3 then None else old(marker))
                && notice == (if writes >= 2 then true else old(notice))
                && var c := Reverted(old(cfg.View()), old(marker).value.previous).value;
                   cfg.View() == if writes >= 1 && saveOk then Save(c) else c
    {
      var previous := marker.value.previous;
      ok := cfg.SetValue("network", MODE_KEY, Str(ModeText(previous.mode)));
      if !ok { return; }
      ok := cfg.SetValue("network", ADAPTER_KEY, IdentityJson(previous.adapter));
      if !ok { return; }
      var mode := ModeOf(cfg.StoredValue("network", MODE_KEY));
      if mode.Some? && cfg.StoredValue("network", MIRROR_KEY) != Str(MirrorFor(mode.value)) {
        ok := cfg.PersistDefaultValue("network", MIRROR_KEY, Str(MirrorFor(mode.value)));
        if !ok { return; }
      }
      if writes >= 1 { cfg.SaveFile(saveOk); }
      if writes >= 2 { notice := true; }
      if writes >= 3 { marker := None; }
    }

    /** `tick`. Where the configuration can be written, the change is taken back
        exactly when it runs and the deadline has passed since its first start; then
        the configuration holds the choice the change was made from. */
    method Tick(cfg: SystemConfigFile, now: real, writes: nat, saveOk: bool) returns (reverted: bool)
      requires Valid()
      modifies this, cfg
      ensures Valid()
      ensures reverted ==>
                exists a: nat, s: nat :: Counting(old(log), a, s) && now >= old(log)[s].at + DEADLINE_SECONDS
      ensures forall a: nat, s: nat :: Counting(old(log), a, s) && now >= old(log)[s].at + DEADLINE_SECONDS ==>
                && reverted == Reverted(old(cfg.View()), old(log)[a].previous).Ok?
                && (NetworkOpen(old(cfg.View())) ==> reverted && WroteBack(cfg.View(), old(log)[a].previous))
                && (reverted ==> marker == (if writes >= 3 then None else old(marker)))
                && (reverted ==> notice == (writes >= 2 || old(notice)))
                && (!reverted ==> cfg.disk == old(cfg.disk))
      ensures !reverted ==> marker == old(marker) && notice == old(notice)
      ensures (forall a: nat, s: nat :: Counting(old(log), a, s) ==> now < old(log)[s].at + DEADLINE_SECONDS) ==>
                cfg.View() == old(cfg.View())
      ensures log == old(log) + [Ticked(now, reverted, writes)]
    {
      ghost var noted := marker;
      reverted := false;
      if marker.Some? && marker.value.listeningSince.Some?
         && now >= marker.value.listeningSince.value + marker.value.deadlineSeconds {
        if NetworkOpen(cfg.View()) { RevertedStores(cfg.View(), marker.value.previous); }
        reverted := Revert(cfg, writes, saveOk);
      }
      AfterTicked(noted, log, now, reverted, writes);
      log := log + [Ticked(now, reverted, writes)];
    }
  }

  // ---------------------------------------------------------------------
  // The marker and what happened, one event at a time
  // ---------------------------------------------------------------------

  /** What a change that waited or ran makes of one more event. */
  lemma OneMore(log: seq<Event>, e: Event)
    ensures var after := log + [e];
            && (forall a: nat :: Waiting(after, a) <==>
                  (Waiting(log, a) && (e.ConfirmAsked? || e.Ticked?)) || (a == |log| && e.Armed?))
            && (forall a: nat, s: nat :: Counting(after, a, s) <==>
                  || (Counting(log, a, s) && LetsRun(e, log[a].choice))
                  || (s == |log| && Waiting(log, a) && Runs(e, log[a].choice)))
  {
    var after := log + [e];
    forall a: nat ensures Waiting(after, a) <==>
                  (Waiting(log, a) && (e.ConfirmAsked? || e.Ticked?)) || (a == |log| && e.Armed?)
    {
      OneMoreWaiting(log, e, a);
    }
    forall a: nat, s: nat ensures Counting(after, a, s) <==>
                  || (Counting(log, a, s) && LetsRun(e, log[a].choice))
                  || (s == |log| && Waiting(log, a) && Runs(e, log[a].choice))
    {
      OneMoreCounting(log, e, a, s);
    }
  }

  lemma OneMoreWaiting(log: seq<Event>, e: Event, a: nat)
    ensures Waiting(log + [e], a) <==>
              (Waiting(log, a) && (e.ConfirmAsked? || e.Ticked?)) || (a == |log| && e.Armed?)
  {
    var after := log + [e];
    assert forall i :: 0 <= i < |log| ==> after[i] == log[i];
    assert after[|log|] == e;
  }

  lemma OneMoreCounting(log: seq<Event>, e: Event, a: nat, s: nat)
    ensures Counting(log + [e], a, s) <==>
              || (Counting(log, a, s) && LetsRun(e, log[a].choice))
              || (s == |log| && Waiting(log, a) && Runs(e, log[a].choice))
  {
    var after := log + [e];
    assert forall i :: 0 <= i < |log| ==> after[i] == log[i];
    assert after[|log|] == e;
    if s <= |log| {
      assert after[..s] == log[..s];
      assert log[..|log|] == log;
    }
  }

  lemma AfterArmed(log: seq<Event>, e: Event)
    requires e.Armed?
    ensures Tells(Some(MarkerOf(e, None)), log + [e])
  {
    OneMore(log, e);
    assert Waiting(log + [e], |log|);
  }

  lemma AfterCleared(log: seq<Event>)
    ensures Tells(None, log + [Cleared])
  {
    OneMore(log, Cleared);
  }

  lemma AfterStarted(marker: Option<Marker>, log: seq<Event>, running: ListenChoice, now: real)
    requires Tells(marker, log)
    ensures Tells(Noted(marker, running, now), log + [Started(running, now)])
  {
    var e := Started(running, now);
    OneMore(log, e);
    if a: nat :| Waiting(log, a) && Runs(e, log[a].choice) {
      assert Counting(log + [e], a, |log|);
    }
    if a: nat, s: nat :| Counting(log, a, s) && Runs(e, log[a].choice) {
      assert Counting(log + [e], a, s);
    }
  }

  lemma AfterConfirmAsked(marker: Option<Marker>, log: seq<Event>, running: ListenChoice)
    requires Tells(marker, log)
    ensures var kept := marker.Some? && marker.value.listeningSince.Some? && SameChoice(running, marker.value.choice);
            Tells(if kept then None else marker, log + [ConfirmAsked(running)])
  {
    OneMore(log, ConfirmAsked(running));
  }

  lemma AfterTicked(marker: Option<Marker>, log: seq<Event>, now: real, reverted: bool, writes: nat)
    requires Tells(marker, log) && (reverted ==> marker.Some? && marker.value.listeningSince.Some?)
    ensures Tells(if reverted && writes >= 3 then None else marker, log + [Ticked(now, reverted, writes)])
  {
    OneMore(log, Ticked(now, reverted, writes));
  }

  // ---------------------------------------------------------------------
  // What the next start runs
  // ---------------------------------------------------------------------

  /** The persisted layer holds this choice. */
  predicate StoresChoice(c: Config, choice: ChoiceRecord) {
    && StoredNetwork(c, MODE_KEY) == Str(ModeText(choice.mode))
    && (choice.mode == OneAdapter ==> CleanIdentity(StoredNetwork(c, ADAPTER_KEY)) == choice.adapter)
  }

  predicate ChoiceUnheld(c: Config) {
    ("network", MODE_KEY) !in c.held && ("network", ADAPTER_KEY) !in c.held
  }

  lemma KeepKeepsChoice(c: Config, key: string, value: Json)
    requires NetworkOpen(c) && key !in {MODE_KEY, ADAPTER_KEY}
    ensures FromConfig(Keep(c, key, value).value) == FromConfig(c)
  {
    KeepWrites(c, key, value);
  }

  /** Settling a configuration that has a choice leaves the choice as it is. */
  lemma SettleKeepsChoice(c: Config, adapters: seq<Adapter>, deployment: string)
    requires NetworkOpen(c) && ModeOf(StoredNetwork(c, MODE_KEY)).Some?
    ensures Settle(c, adapters, deployment).Ok?
    ensures FromConfig(Settle(c, adapters, deployment).value) == FromConfig(c)
  {
    SettleSettles(c, adapters, deployment);
    SettleChoiceSettles(c, adapters, deployment);
    var m := ModeOf(StoredNetwork(c, MODE_KEY)).value;
    KeepKeepsChoice(c, MIRROR_KEY, Str(MirrorFor(m)));
    var c1 := SettleChoice(c, adapters, deployment).value;
    var converted := ConvertControlInterface(LastAddress(c1), adapters);
    KeepWrites(c1, KEY, converted);
    KeepKeepsChoice(c1, KEY, converted);
    var c2 := ConvertReach(c1, adapters).value;
    var identity := CleanIdentity(StoredNetwork(c2, KEY));
    var mirror := if identity == map[] then ""
                  else if IsLiteral(identity) then identity["address"]
                  else ResolveReach(identity, adapters, LastAddress(c2)).address;
    KeepKeepsChoice(c2, CONTROL_INTERFACE, Str(mirror));
  }

  /** A start on a file that holds a choice the environment does not hold runs
      exactly that choice. */
  lemma StartRunsStoredChoice(
    build: Build, env: Environment, disk: DiskFile, choice: ChoiceRecord, adapters: seq<Adapter>, deployment: string)
    requires build.Valid() && Load(build, env, disk).Ok?
    requires CleanChoice(choice.mode, choice.adapter)
    requires var c := Load(build, env, disk).value; NetworkOpen(c) && ChoiceUnheld(c) && StoresChoice(c, choice)
    ensures var s := Settle(Load(build, env, disk).value, adapters, deployment);
            s.Ok? && FromConfig(s.value) == Ok(ListenChoice(choice.mode, choice.adapter, None))
  {
    var c := Load(build, env, disk).value;
    LoadLayers(build, env, disk);
    UnheldKeysRead(c, env, "network", MODE_KEY, Null);
    UnheldKeysRead(c, env, "network", ADAPTER_KEY, Null);
    ModeTexts(choice.mode);
    SettleKeepsChoice(c, adapters, deployment);
  }

  lemma SetWrites(c: Config, key: string, value: Json)
    requires NetworkOpen(c)
    ensures var r := Set(c, "network", key, value);
            && r.Ok? && NetworkOpen(r.value) && r.value.disk == c.disk
            && r.value.fileData == Obj(c.fileData.fields["network" := Obj(c.fileData.fields["network"].fields[key := value])])
            && StoredNetwork(r.value, key) == value
            && forall k :: k != key ==> StoredNetwork(r.value, k) == StoredNetwork(c, k)
  {
  }

  /** The choice written back is the one the persisted layer then holds, with the
      mirror an earlier release reads for it. */
  lemma RevertedStores(c: Config, previous: ChoiceRecord)
    requires NetworkOpen(c)
    ensures var r := Reverted(c, previous);
            && r.Ok? && NetworkOpen(r.value) && WroteBack(r.value, previous)
            && StoredNetwork(r.value, MIRROR_KEY) == Str(if previous.mode == ThisComputer then "127.0.0.1" else "0.0.0.0")
  {
    SetWrites(c, MODE_KEY, Str(ModeText(previous.mode)));
    var c1 := Set(c, "network", MODE_KEY, Str(ModeText(previous.mode))).value;
    SetWrites(c1, ADAPTER_KEY, IdentityJson(previous.adapter));
    var c2 := Set(c1, "network", ADAPTER_KEY, IdentityJson(previous.adapter)).value;
    ModeTexts(previous.mode);
    KeepWrites(c2, MIRROR_KEY, Str(MirrorFor(previous.mode)));
  }

  /** Writing a choice back, saving and loading again gives that choice: the
      marker's record, the configuration and the file agree on it. */
  lemma RevertedIsStored(build: Build, env: Environment, c: Config, previous: ChoiceRecord)
    requires build.Valid() && ShipsSettledKeys(build.release) && NetworkOpen(c)
    requires CleanChoice(previous.mode, previous.adapter)
    ensures var r := Reverted(c, previous);
            && r.Ok? && NetworkOpen(r.value)
            && var l := Load(build, env, Save(r.value).disk);
               l.Ok? ==> NetworkOpen(l.value) && StoresChoice(l.value, previous)
  {
    var release := build.release;
    RevertedStores(c, previous);
    ModeTexts(previous.mode);
    var c3 := Reverted(c, previous).value;
    SettledKeyPersists(release, c3.fileData, MODE_KEY);
    SettledKeyPersists(release, c3.fileData, ADAPTER_KEY);
    CleanIdentityRoundTrip(previous.adapter);
    assert RawOf(Save(c3).disk) == c3.fileData;
    LoadLayers(build, env, Save(c3).disk);
  }

  /** Which of a revert's writes happened before it was cut short. */
  datatype Cut = Cut(writes: nat, saveOk: bool) {
    predicate Wrote() { writes >= 1 && saveOk }
  }

  function DiskAfter(c: Config, previous: ChoiceRecord, cut: Cut): DiskFile {
    if cut.Wrote() && Reverted(c, previous).Ok? then Save(Reverted(c, previous).value).disk else c.disk
  }

  function MarkerAfter(m: Marker, cut: Cut): Option<Marker> {
    if cut.writes >= 3 then None else Some(m)
  }

  /** The next start: its choice, and what it makes of the marker. */
  ghost predicate NextStart(
    build: Build, env: Environment, disk: DiskFile, adapters: seq<Adapter>, deployment: string, running: ListenChoice)
    requires build.release.Valid()
  {
    var l := Load(build, env, disk);
    && l.Ok? && NetworkOpen(l.value) && ChoiceUnheld(l.value)
    && Settle(l.value, adapters, deployment).Ok?
    && FromConfig(Settle(l.value, adapters, deployment).value) == Ok(running)
  }

  /** A revert cut short between any two of its writes is safe. Before the
      configuration is written, the next start runs the new choice with the clock
      where it was, so it is due at every later time; once it is written, the
      next start runs exactly the previous choice and the marker goes. The one
      way to lose both is a configuration write that fails while the later two go
      through: then the net is gone and the new choice stays. */
  lemma RevertIsCrashSafe(
    build: Build, env: Environment, c: Config, m: Marker, cut: Cut,
    adapters: seq<Adapter>, deployment: string, running: ListenChoice, dueAt: real, now: real)
    requires build.Valid() && ShipsSettledKeys(build.release)
    requires NetworkOpen(c)
    requires CleanChoice(m.previous.mode, m.previous.adapter) && CleanChoice(m.choice.mode, m.choice.adapter)
    requires m.previous != m.choice && Due(Some(m), dueAt) && dueAt <= now
    requires NextStart(build, env, DiskAfter(c, m.previous, cut), adapters, deployment, running)
    requires !cut.Wrote() ==> StoresChoice(Load(build, env, c.disk).value, m.choice)
    ensures var next := Noted(MarkerAfter(m, cut), running, now);
            if cut.Wrote() then RecordOf(running) == m.previous && next == None
            else RecordOf(running) == m.choice && next == MarkerAfter(m, cut) && (cut.writes < 3 <==> Due(next, now))
  {
    if cut.Wrote() {
      RevertedIsStored(build, env, c, m.previous);
      StartRunsStoredChoice(build, env, DiskAfter(c, m.previous, cut), m.previous, adapters, deployment);
    } else {
      StartRunsStoredChoice(build, env, c.disk, m.choice, adapters, deployment);
    }
  }
}
