/** A revert cut short, from the file a server started on, through whatever was changed
    while it ran, to the start after the crash: nothing is assumed of either start but
    what can be read off the file and the environment. */
module SafetyNetStarts {
  import opened Text
  import opened ConfigTree
  import opened SystemConfig
  import opened Listen
  import opened ReachDevices
  import opened Settling
  import opened NonInterference
  import opened SafetyNet

  // ---------------------------------------------------------------------
  // What the environment does not hold
  // ---------------------------------------------------------------------

  /** No variable holds the choice: none of the table's, and not the bind variable. */
  predicate ChoiceIsOwn(table: seq<Override>, env: Environment) {
    && BIND_VARIABLE !in env
    && forall o <- table :: o.section == "network" ==> o.key != MODE_KEY && o.key != ADAPTER_KEY
  }

  lemma {:induction false} HeldFromTable(table: seq<Override>, env: Environment, l: Layer)
    ensures var r := ApplyOverrides(table, env, l);
            r.Ok? ==> forall key <- r.value.held :: key in l.held || exists o <- table :: (o.section, o.key) == key
  {
    if table != [] {
      var o := table[|table| - 1];
      assert o in table;
      HeldFromTable(table[..|table| - 1], env, l);
    }
  }

  lemma ChoiceStaysUnheld(build: Build, env: Environment, disk: DiskFile)
    requires build.release.Valid() && ChoiceIsOwn(build.overrides, env)
    ensures var l := Load(build, env, disk); l.Ok? ==> ChoiceUnheld(l.value)
  {
    HeldFromTable(build.overrides, env, Layer(build.release.Persist(RawOf(disk)), map[]));
  }

  // ---------------------------------------------------------------------
  // What every operation keeps
  // ---------------------------------------------------------------------

  /** The `network` section of the persisted layer, of the file as it was read and of
      the file on disk is an object. */
  ghost predicate NetworkKept(build: Build, c: Config)
    requires build.release.Valid()
  {
    && SectionIsObject(c.fileData, "network") && SectionOpen(c.rawFile, "network")
    && SectionIsObject(build.release.Persist(RawOf(c.disk)), "network")
  }

  ghost predicate Sound(build: Build, env: Environment, c: Config)
    requires build.release.Valid()
  {
    Running(build, env, c) && NetworkKept(build, c)
  }

  lemma KeptIsOpen(build: Build, env: Environment, c: Config)
    requires build.release.Valid() && Sound(build, env, c)
    ensures NetworkOpen(c)
  {
  }

  lemma SavedIsKept(build: Build, c: Config, takes: bool)
    requires build.release.Valid() && NetworkKept(build, c)
    ensures NetworkKept(build, SaveTo(c, takes))
  {
    PersistAt(build.release, c.fileData, "network");
  }

  lemma LoadedIsSound(build: Build, env: Environment, disk: DiskFile)
    requires build.Valid() && SectionIsObject(build.release.Persist(RawOf(disk)), "network")
    ensures var l := Load(build, env, disk); l.Ok? ==> Sound(build, env, l.value) && l.value.disk == disk
  {
    LoadStep(build, env, disk);
    LoadLayers(build, env, disk);
    PersistAt(build.release, RawOf(disk), "network");
  }

  lemma PutKeepsNetwork(j: Json, s: string, k: string, v: Json)
    requires Put(j, s, k, v).Ok?
    ensures SectionIsObject(j, "network") ==> SectionIsObject(Put(j, s, k, v).value, "network")
    ensures SectionOpen(j, "network") ==> SectionOpen(Put(j, s, k, v).value, "network")
  {
  }

  lemma SettledIsKept(build: Build, env: Environment, c: Config, adapters: seq<Adapter>, deployment: string)
    requires build.release.Valid() && Sound(build, env, c)
    ensures SettleChoice(c, adapters, deployment).Ok? && NetworkKept(build, SettleChoice(c, adapters, deployment).value)
    ensures SettleReach(c, adapters).Ok? && NetworkKept(build, SettleReach(c, adapters).value)
  {
    KeptIsOpen(build, env, c);
    SettleChoiceSettles(c, adapters, deployment);
    ReachStepMirror(c, Restarted(adapters));
  }

  lemma ChangeIsKept(build: Build, env: Environment, hasher: Hasher, op: Op, c: Config)
    requires build.Valid() && Sound(build, env, c)
    requires op.SetKey? || op.PersistKey? || op.ConvertSecret?
    ensures var r := Step(build, env, hasher, op, c); r.Ok? ==> NetworkKept(build, r.value)
  {
    match op
    case SetKey(s, k, v) =>
      SetStep(build, env, c, s, k, v);
      if Set(c, s, k, v).Ok? { PutKeepsNetwork(c.fileData, s, k, v); }
    case PersistKey(s, k, v) =>
      PersistStep(build, env, c, s, k, v);
      if PersistDefault(c, s, k, v).Ok? {
        PutKeepsNetwork(c.fileData, s, k, v);
        PutKeepsNetwork(c.rawFile, s, k, v);
      }
    case ConvertSecret(w, takes) =>
      var stored := Stored(c, "auth", w.Field(), Str(""));
      ConvertStep(build, env, hasher, c, w, takes);
      if stored.Str? && stored.s != "" && !hasher.looksHashed(stored.s) {
        var v := Str(hasher.hash(stored.s));
        PutIs(c.fileData, "auth", w.Field(), v);
        PutKeepsNetwork(c.fileData, "auth", w.Field(), v);
        var r := ConvertStoredSecret(c, w, hasher, env, takes);
        SavedIsKept(build, r.(disk := c.disk), takes);
      }
  }

  /** No operation takes away what a start needs. */
  lemma StepIsSound(build: Build, env: Environment, hasher: Hasher, op: Op, c: Config)
    requires build.Valid() && Sound(build, env, c)
    ensures var r := Step(build, env, hasher, op, c); r.Ok? ==> Sound(build, env, r.value)
  {
    StepTwins(build, env, env, hasher, op, c, c);
    match op
    case Reload => LoadedIsSound(build, env, c.disk);
    case SaveNow(takes) => SavedIsKept(build, c, takes);
    case SettleListen(a, d) => SettledIsKept(build, env, c, a, d);
    case SettleDevices(a) => SettledIsKept(build, env, c, a, "");
    case _ => ChangeIsKept(build, env, hasher, op, c);
  }

  lemma {:induction false} RunIsSound(build: Build, env: Environment, hasher: Hasher, ops: seq<Op>, c: Config)
    requires build.Valid() && Sound(build, env, c)
    ensures var r := End(build, env, hasher, ops, c); r.Ok? ==> Sound(build, env, r.value)
    decreases |ops|
  {
    if ops != [] {
      StepIsSound(build, env, hasher, ops[0], c);
      var d := Step(build, env, hasher, ops[0], c);
      if d.Ok? {
        RunIsSound(build, env, hasher, ops[1..], d.value);
      }
    }
  }

  // ---------------------------------------------------------------------
  // A start on what is left
  // ---------------------------------------------------------------------

  /** The choice a start on this file runs. */
  function StartChoice(
    build: Build, env: Environment, disk: DiskFile, adapters: seq<Adapter>, deployment: string): Outcome<ListenChoice>
    requires build.release.Valid()
  {
    var c :- Load(build, env, disk);
    var s :- Settle(c, adapters, deployment);
    FromConfig(s)
  }

  lemma OpenConfigReads(c: Config)
    requires NetworkOpen(c)
    ensures FromConfig(c).Ok?
  {
  }

  /** A start completes on any file that loads, with an object in `network`, in any
      environment that holds nothing of the choice. */
  lemma OpenFileRuns(build: Build, env: Environment, disk: DiskFile, adapters: seq<Adapter>, deployment: string)
    requires build.Valid() && ChoiceIsOwn(build.overrides, env)
    requires Load(build, env, disk).Ok? && SectionIsObject(build.release.Persist(RawOf(disk)), "network")
    ensures var r := StartChoice(build, env, disk, adapters, deployment);
            r.Ok? && NextStart(build, env, disk, adapters, deployment, r.value)
  {
    var c := Load(build, env, disk).value;
    LoadedIsSound(build, env, disk);
    KeptIsOpen(build, env, c);
    ChoiceStaysUnheld(build, env, disk);
    SettleSettles(c, adapters, deployment);
    OpenConfigReads(Settle(c, adapters, deployment).value);
  }

  lemma RevertedKeepsRunning(build: Build, env: Environment, c: Config, previous: ChoiceRecord)
    requires build.Valid() && Running(build, env, c)
    ensures Reverted(c, previous).Ok? ==> Running(build, env, Save(Reverted(c, previous).value))
  {
    SetStep(build, env, c, "network", MODE_KEY, Str(ModeText(previous.mode)));
    var c1 := Set(c, "network", MODE_KEY, Str(ModeText(previous.mode)));
    if c1.Ok? {
      SetStep(build, env, c1.value, "network", ADAPTER_KEY, IdentityJson(previous.adapter));
      var c2 := Set(c1.value, "network", ADAPTER_KEY, IdentityJson(previous.adapter));
      if c2.Ok? {
        RefreshTwins(build, env, env, c2.value, c2.value);
        if RefreshListenMirror(c2.value).Ok? {
          SaveKeepsRunning(build, env, RefreshListenMirror(c2.value).value);
        }
      }
    }
  }

  /** Whatever the cut, the file it leaves loads again, with an object in `network`. */
  lemma CutLeavesAnOpenFile(build: Build, env: Environment, c: Config, previous: ChoiceRecord, cut: Cut)
    requires build.Valid() && ShipsSettledKeys(build.release) && Sound(build, env, c)
    requires CleanChoice(previous.mode, previous.adapter)
    ensures var after := DiskAfter(c, previous, cut);
            Load(build, env, after).Ok? && SectionIsObject(build.release.Persist(RawOf(after)), "network")
  {
    var after := DiskAfter(c, previous, cut);
    KeptIsOpen(build, env, c);
    LoadCompletesExactly(build, env, after);
    if cut.Wrote() {
      RevertedIsStored(build, env, c, previous);
      RevertedKeepsRunning(build, env, c, previous);
      PersistAt(build.release, RawOf(after), "network");
    }
  }

  /** The file's persisted layer holds this choice. */
  predicate FileStores(build: Build, disk: DiskFile, choice: ChoiceRecord)
    requires build.release.Valid()
  {
    StoresChoice(Config(EMPTY, build.release.Persist(RawOf(disk)), EMPTY, map[], disk), choice)
  }

  /** A server loaded a file, and then anything was changed, settled or saved. With the
      new choice on disk its revert runs, and is cut short between any two of its
      writes. The start after that either is still due to revert, or runs exactly the
      previous choice with the marker gone, unless and only unless the disk refused the
      configuration and took the rest. */
  lemma ARevertSurvivesACrash(
    build: Build, env: Environment, disk: DiskFile, hasher: Hasher, ops: seq<Op>,
    m: Marker, cut: Cut, later: seq<Adapter>, deployment: string, dueAt: real, now: real)
    requires build.Valid() && ShipsSettledKeys(build.release) && ChoiceIsOwn(build.overrides, env)
    requires Load(build, env, disk).Ok? && SectionIsObject(build.release.Persist(RawOf(disk)), "network")
    requires End(build, env, hasher, ops, Load(build, env, disk).value).Ok?
    requires FileStores(build, End(build, env, hasher, ops, Load(build, env, disk).value).value.disk, m.choice)
    requires CleanChoice(m.previous.mode, m.previous.adapter) && CleanChoice(m.choice.mode, m.choice.adapter)
    requires m.previous != m.choice && Due(Some(m), dueAt) && dueAt <= now
    ensures var c := End(build, env, hasher, ops, Load(build, env, disk).value).value;
            var r := StartChoice(build, env, DiskAfter(c, m.previous, cut), later, deployment);
            r.Ok? &&
            var next := Noted(MarkerAfter(m, cut), r.value, now);
            && (RecordOf(r.value) == if cut.Wrote() then m.previous else m.choice)
            && ((Due(next, now) || (RecordOf(r.value) == m.previous && next == None))
                <==> !(cut.writes >= 3 && !cut.saveOk))
  {
    LoadedIsSound(build, env, disk);
    RunIsSound(build, env, hasher, ops, Load(build, env, disk).value);
    var c := End(build, env, hasher, ops, Load(build, env, disk).value).value;
    KeptIsOpen(build, env, c);
    var after := DiskAfter(c, m.previous, cut);
    CutLeavesAnOpenFile(build, env, c, m.previous, cut);
    OpenFileRuns(build, env, after, later, deployment);
    LoadLayers(build, env, c.disk);
    LoadCompletesExactly(build, env, c.disk);
    RevertIsCrashSafe(build, env, c, m, cut, later, deployment,
                      StartChoice(build, env, after, later, deployment).value, dueAt, now);
  }
}
