/** The environment cannot influence what is saved: two runs of the same
    operations from the same system.json, under any two environments, write the
    same files. */
module NonInterference {
  import opened Text
  import opened ConfigTree
  import opened SystemConfig
  import opened Listen
  import opened ReachDevices
  import opened Settling

  datatype Op =
    | Reload
    | SetKey(section: string, key: string, value: Json)
    | PersistKey(section: string, key: string, value: Json)
    | ConvertSecret(which: Secret, takes: bool)
    | SaveNow(takes: bool)
    | SettleListen(adapters: seq<Adapter>, deployment: string)
    | SettleDevices(adapters: seq<Adapter>)

  function Step(build: Build, env: Environment, hasher: Hasher, op: Op, c: Config): Outcome<Config>
    requires build.release.Valid()
  {
    match op
    case Reload => Load(build, env, c.disk)
    case SetKey(s, k, v) => Set(c, s, k, v)
    case PersistKey(s, k, v) => PersistDefault(c, s, k, v)
    case ConvertSecret(w, takes) => Ok(ConvertStoredSecret(c, w, hasher, env, takes))
    case SaveNow(takes) => Ok(SaveTo(c, takes))
    case SettleListen(a, d) => SettleChoice(c, a, d)
    case SettleDevices(a) => SettleReach(c, a)
  }

  /** The file after each operation of a run; a crash ends the run. */
  function Files(build: Build, env: Environment, hasher: Hasher, ops: seq<Op>, c: Config): seq<DiskFile>
    requires build.release.Valid()
    decreases |ops|
  {
    if ops == [] then []
    else
      match Step(build, env, hasher, ops[0], c)
      case Crash => []
      case Ok(d) => [d.disk] + Files(build, env, hasher, ops[1..], d)
  }

  /** Where a run ends, if it does not crash. */
  function End(build: Build, env: Environment, hasher: Hasher, ops: seq<Op>, c: Config): Outcome<Config>
    requires build.release.Valid()
    decreases |ops|
  {
    if ops == [] then Ok(c)
    else
      var d :- Step(build, env, hasher, ops[0], c);
      End(build, env, hasher, ops[1..], d)
  }

  // ---------------------------------------------------------------------
  // When loading fails
  // ---------------------------------------------------------------------

  /** The environment writes this key. */
  predicate Writes(env: Environment, o: Override) {
    o.variable in env && ParseEnvValue(env[o.variable], o.kind).Some?
  }

  /** Every section this environment writes into is an object. */
  ghost predicate EnvOpen(table: seq<Override>, env: Environment, j: Json) {
    && (BIND_VARIABLE in env || CONTROL_INTERFACE_VARIABLE in env ==> SectionIsObject(j, "network"))
    && forall o <- table :: Writes(env, o) ==> SectionIsObject(j, o.section)
  }

  /** Every section any environment may write into is an object. */
  ghost predicate OverridesOpen(table: seq<Override>, j: Json) {
    SectionIsObject(j, "network") && forall o <- table :: SectionIsObject(j, o.section)
  }

  lemma WriteIntoKeepsSections(j: Json, section: string, key: string, value: Json)
    ensures var r := WriteInto(j, section, key, value);
            r.Ok? <==> SectionIsObject(j, section)
    ensures var r := WriteInto(j, section, key, value);
            r.Ok? ==> r.value.Obj? && forall s :: SectionIsObject(r.value, s) <==> SectionIsObject(j, s)
  {
  }

  lemma {:induction false} OverridesComplete(table: seq<Override>, env: Environment, l: Layer)
    ensures var r := ApplyOverrides(table, env, l);
            && (r.Ok? <==> forall o <- table :: Writes(env, o) ==> SectionIsObject(l.data, o.section))
            && (r.Ok? ==> forall s :: SectionIsObject(r.value.data, s) <==> SectionIsObject(l.data, s))
  {
    if table != [] {
      var front, o := table[..|table| - 1], table[|table| - 1];
      assert o in table && forall x <- table :: x in front || x == o;
      assert forall x <- front :: x in table;
      OverridesComplete(front, env, l);
      var m := ApplyOverrides(front, env, l);
      if m.Ok? && Writes(env, o) {
        WriteIntoKeepsSections(m.value.data, o.section, o.key, ParseEnvValue(env[o.variable], o.kind).value);
      }
    }
  }

  /** A file loads exactly when each section the environment writes into is an object
      once the file is over the defaults. */
  lemma LoadCompletesExactly(build: Build, env: Environment, disk: DiskFile)
    requires build.release.Valid()
    ensures Load(build, env, disk).Ok? <==> EnvOpen(build.overrides, env, build.release.Persist(RawOf(disk)))
  {
    var l0 := Layer(build.release.Persist(RawOf(disk)), map[]);
    OverridesComplete(build.overrides, env, l0);
    var l1 := ApplyOverrides(build.overrides, env, l0);
    if l1.Ok? && BIND_VARIABLE in env {
      var (mode, _) := ParseBindVariable(env[BIND_VARIABLE]);
      WriteIntoKeepsSections(l1.value.data, "network", "accept_connections_from", Str(mode));
    }
  }

  lemma ParsesAnyKind(kind: EnvType)
    ensures ParseEnvValue("1", kind).Some?
  {
    PrintIntParses(1);
    assert PrintInt(1) == "1";
  }

  /** So it loads under every environment exactly when every section a variable can
      write into is one; otherwise some single variable makes the load fail. */
  lemma LoadCompletesInEveryEnvironment(build: Build, disk: DiskFile)
    requires build.release.Valid()
    ensures (forall env: Environment :: Load(build, env, disk).Ok?)
            <==> OverridesOpen(build.overrides, build.release.Persist(RawOf(disk)))
  {
    var j := build.release.Persist(RawOf(disk));
    forall env: Environment
      ensures Load(build, env, disk).Ok? <==> EnvOpen(build.overrides, env, j)
    {
      LoadCompletesExactly(build, env, disk);
    }
    if !SectionIsObject(j, "network") {
      var env: Environment := map[BIND_VARIABLE := "1"];
      assert !EnvOpen(build.overrides, env, j);
    } else if o :| o in build.overrides && !SectionIsObject(j, o.section) {
      var env: Environment := map[o.variable := "1"];
      ParsesAnyKind(o.kind);
      assert Writes(env, o) && !EnvOpen(build.overrides, env, j);
    }
  }

  // ---------------------------------------------------------------------
  // One step of two runs
  // ---------------------------------------------------------------------

  /** What the environment must not touch. */
  ghost predicate SamePersisted(c: Config, d: Config) {
    c.fileData == d.fileData && c.rawFile == d.rawFile && c.disk == d.disk
  }

  /** A state either run can be in. */
  ghost predicate Running(build: Build, env: Environment, c: Config)
    requires build.release.Valid()
  {
    && WellLayered(c, env)
    && EnvOpen(build.overrides, env, c.fileData)
    && EnvOpen(build.overrides, env, build.release.Persist(RawOf(c.disk)))
  }

  lemma PutParity(data: Json, file: Json, held: map<Key, string>, s: string, k: string, v: Json)
    requires LayersAgree(data, file, held)
    ensures Put(data, s, k, v).Ok? <==> Put(file, s, k, v).Ok?
    ensures Put(file, s, k, v).Ok? <==> SectionOpen(file, s)
  {
  }

  function Section(j: Json, s: string): map<string, Json>
    requires SectionOpen(j, s)
  {
    if s in j.fields then j.fields[s].fields else map[]
  }

  lemma PutIs(j: Json, s: string, k: string, v: Json)
    requires SectionOpen(j, s)
    ensures Put(j, s, k, v) == Ok(Obj(j.fields[s := Obj(Section(j, s)[k := v])]))
  {
    var section := Obj(Section(j, s)[k := v]);
    assert j.fields[s := EMPTY][s := section] == j.fields[s := section];
  }

  lemma SectionsBoth(data: Json, file: Json, held: map<Key, string>, s: string, k: string, v: Json)
    requires LayersAgree(data, file, held) && SectionOpen(file, s)
    ensures SectionOpen(data, s)
    ensures SectionAgrees(s, Section(data, s)[k := v], Section(file, s)[k := v], held)
  {
    assert SectionAgrees(s, Section(data, s), Section(file, s), held);
  }

  lemma PutBoth(data: Json, file: Json, held: map<Key, string>, s: string, k: string, v: Json)
    requires LayersAgree(data, file, held) && SectionOpen(file, s)
    ensures SectionOpen(data, s) && Put(data, s, k, v).Ok? && Put(file, s, k, v).Ok?
    ensures LayersAgree(Put(data, s, k, v).value, Put(file, s, k, v).value, held)
  {
    PutIs(data, s, k, v);
    PutIs(file, s, k, v);
    SectionsBoth(data, file, held, s, k, v);
    var d, f := Put(data, s, k, v).value, Put(file, s, k, v).value;
    assert d.fields.Keys == data.fields.Keys + {s} && f.fields.Keys == file.fields.Keys + {s};
    forall t <- f.fields
      ensures if f.fields[t].Obj? then d.fields[t].Obj? && SectionAgrees(t, d.fields[t].fields, f.fields[t].fields, held)
              else d.fields[t] == f.fields[t]
    {
      if t != s {
        assert f.fields[t] == file.fields[t] && d.fields[t] == data.fields[t];
      }
    }
  }

  lemma PutUnderHeld(data: Json, file: Json, held: map<Key, string>, s: string, k: string, v: Json)
    requires LayersAgree(data, file, held) && SectionOpen(file, s) && (s, k) in held
    ensures LayersAgree(data, Put(file, s, k, v).value, held)
  {
    PutIs(file, s, k, v);
    assert s in file.fields;
    assert SectionAgrees(s, Section(data, s), Section(file, s), held);
    assert SectionAgrees(s, Section(data, s), Section(file, s)[k := v], held);
  }

  lemma PutKeepsSections(table: seq<Override>, env: Environment, j: Json, s: string, k: string, v: Json)
    requires EnvOpen(table, env, j) && Put(j, s, k, v).Ok?
    ensures EnvOpen(table, env, Put(j, s, k, v).value)
  {
  }

  lemma SaveKeepsRunning(build: Build, env: Environment, c: Config)
    requires build.release.Valid() && Running(build, env, c)
    ensures Running(build, env, Save(c))
  {
    forall s | SectionIsObject(c.fileData, s) ensures SectionIsObject(build.release.Persist(c.fileData), s) {
      PersistAt(build.release, c.fileData, s);
    }
  }

  lemma SetStep(build: Build, env: Environment, c: Config, s: string, k: string, v: Json)
    requires build.release.Valid() && Running(build, env, c)
    ensures Set(c, s, k, v).Ok? <==> SectionOpen(c.fileData, s)
    ensures var r := Set(c, s, k, v);
            r.Ok? ==>
              && Running(build, env, r.value)
              && r.value.fileData == Put(c.fileData, s, k, v).value
              && r.value.rawFile == c.rawFile && r.value.disk == c.disk
  {
    PutParity(c.data, c.fileData, c.held, s, k, v);
    if SectionOpen(c.fileData, s) {
      PutBoth(c.data, c.fileData, c.held, s, k, v);
      PutKeepsSections(build.overrides, env, c.fileData, s, k, v);
    }
  }

  lemma PersistStep(build: Build, env: Environment, c: Config, s: string, k: string, v: Json)
    requires build.release.Valid() && Running(build, env, c)
    ensures PersistDefault(c, s, k, v).Ok? <==> SectionOpen(c.fileData, s) && SectionOpen(c.rawFile, s)
    ensures var r := PersistDefault(c, s, k, v);
            r.Ok? ==>
              && Running(build, env, r.value)
              && r.value.fileData == Put(c.fileData, s, k, v).value
              && r.value.rawFile == Put(c.rawFile, s, k, v).value && r.value.disk == c.disk
  {
    PutParity(c.data, c.fileData, c.held, s, k, v);
    if SectionOpen(c.fileData, s) && SectionOpen(c.rawFile, s) {
      PutIs(c.rawFile, s, k, v);
      PutKeepsSections(build.overrides, env, c.fileData, s, k, v);
      PutBoth(c.data, c.fileData, c.held, s, k, v);
      if (s, k) in c.held {
        PutUnderHeld(c.data, c.fileData, c.held, s, k, v);
      }
    }
  }

  lemma ConvertStep(build: Build, env: Environment, hasher: Hasher, c: Config, which: Secret, takes: bool)
    requires build.release.Valid() && Running(build, env, c)
    ensures var r := ConvertStoredSecret(c, which, hasher, env, takes);
            && Running(build, env, r) && r.rawFile == c.rawFile
            && var stored := Stored(c, "auth", which.Field(), Str(""));
               if stored.Str? && stored.s != "" && !hasher.looksHashed(stored.s) then
                 && r.fileData == Put(c.fileData, "auth", which.Field(), Str(hasher.hash(stored.s))).value
                 && r.disk == (if takes then Content(r.fileData) else c.disk)
               else r == c
  {
    var k := which.Field();
    var stored := Stored(c, "auth", k, Str(""));
    if stored.Str? && stored.s != "" && !hasher.looksHashed(stored.s) {
      var v := Str(hasher.hash(stored.s));
      PutIs(c.fileData, "auth", k, v);
      PutKeepsSections(build.overrides, env, c.fileData, "auth", k, v);
      var file := Put(c.fileData, "auth", k, v).value;
      var r := ConvertStoredSecret(c, which, hasher, env, takes);
      if which.Variable() in env && env[which.Variable()] != "" {
        PutUnderHeld(c.data, c.fileData, c.held, "auth", k, v);
        assert r == SaveTo(c.(fileData := file), takes);
        SaveKeepsRunning(build, env, c.(fileData := file));
      } else {
        PutBoth(c.data, c.fileData, c.held, "auth", k, v);
        PutIs(c.data, "auth", k, v);
        var d := c.(fileData := file, data := Put(c.data, "auth", k, v).value);
        assert r == SaveTo(d, takes);
        SaveKeepsRunning(build, env, d);
      }
    }
  }

  lemma LoadStep(build: Build, env: Environment, disk: DiskFile)
    requires build.Valid()
    ensures Load(build, env, disk).Ok? <==> EnvOpen(build.overrides, env, build.release.Persist(RawOf(disk)))
    ensures Load(build, env, disk).Ok? ==> Running(build, env, Load(build, env, disk).value)
  {
    LoadCompletesExactly(build, env, disk);
    LoadLayers(build, env, disk);
  }

  // ---------------------------------------------------------------------
  // Two runs
  // ---------------------------------------------------------------------

  /** Two states one environment apart, from which a step behaves alike. */
  ghost predicate Twins(build: Build, env: Environment, env': Environment, c: Config, c': Config)
    requires build.release.Valid()
  {
    Running(build, env, c) && Running(build, env', c') && SamePersisted(c, c')
  }

  ghost predicate TwinOutcomes(
    build: Build, env: Environment, env': Environment, r: Outcome<Config>, r': Outcome<Config>)
    requires build.release.Valid()
  {
    (r.Ok? <==> r'.Ok?) && (r.Ok? ==> Twins(build, env, env', r.value, r'.value))
  }

  lemma KeepTwins(build: Build, env: Environment, env': Environment, c: Config, c': Config, key: string, v: Json)
    requires build.release.Valid() && Twins(build, env, env', c, c')
    ensures TwinOutcomes(build, env, env', Keep(c, key, v), Keep(c', key, v))
  {
    PersistStep(build, env, c, "network", key, v);
    PersistStep(build, env', c', "network", key, v);
  }

  lemma StoredTwins(build: Build, env: Environment, env': Environment, c: Config, c': Config)
    requires build.release.Valid() && Twins(build, env, env', c, c')
    ensures forall k :: StoredNetwork(c, k) == StoredNetwork(c', k)
    ensures LastAddress(c) == LastAddress(c')
  {
  }

  lemma RefreshTwins(build: Build, env: Environment, env': Environment, c: Config, c': Config)
    requires build.release.Valid() && Twins(build, env, env', c, c')
    ensures TwinOutcomes(build, env, env', RefreshListenMirror(c), RefreshListenMirror(c'))
  {
    StoredTwins(build, env, env', c, c');
    var m := ModeOf(StoredNetwork(c, MODE_KEY));
    if m.Some? {
      KeepTwins(build, env, env', c, c', MIRROR_KEY, Str(MirrorFor(m.value)));
    }
  }

  lemma SettleChoiceTwins(
    build: Build, env: Environment, env': Environment, c: Config, c': Config,
    adapters: seq<Adapter>, deployment: string)
    requires build.release.Valid() && Twins(build, env, env', c, c')
    ensures TwinOutcomes(build, env, env', SettleChoice(c, adapters, deployment), SettleChoice(c', adapters, deployment))
  {
    StoredTwins(build, env, env', c, c');
    if ModeOf(StoredNetwork(c, MODE_KEY)).Some? {
      RefreshTwins(build, env, env', c, c');
    } else {
      var (mode, identity) := DefaultChoice(c, adapters, deployment);
      KeepTwins(build, env, env', c, c', MODE_KEY, Str(ModeText(mode)));
      var d, d' := Keep(c, MODE_KEY, Str(ModeText(mode))), Keep(c', MODE_KEY, Str(ModeText(mode)));
      if d.Ok? {
        KeepTwins(build, env, env', d.value, d'.value, ADAPTER_KEY, identity);
        var e, e' := Keep(d.value, ADAPTER_KEY, identity), Keep(d'.value, ADAPTER_KEY, identity);
        if e.Ok? {
          RefreshTwins(build, env, env', e.value, e'.value);
        }
      }
    }
  }

  lemma ReachMirrorTwins(
    build: Build, env: Environment, env': Environment, c: Config, c': Config, adapters: seq<Adapter>)
    requires build.release.Valid() && Twins(build, env, env', c, c')
    ensures TwinOutcomes(build, env, env', KeepReachMirror(c, adapters), KeepReachMirror(c', adapters))
  {
    StoredTwins(build, env, env', c, c');
    var identity := CleanIdentity(StoredNetwork(c, KEY));
    var mirror := if identity == map[] then ""
                  else if IsLiteral(identity) then identity["address"]
                  else ResolveReach(identity, adapters, LastAddress(c)).address;
    KeepTwins(build, env, env', c, c', CONTROL_INTERFACE, Str(mirror));
  }

  lemma SettleReachTwins(
    build: Build, env: Environment, env': Environment, c: Config, c': Config, adapters: seq<Adapter>)
    requires build.release.Valid() && Twins(build, env, env', c, c')
    ensures TwinOutcomes(build, env, env', SettleReach(c, adapters), SettleReach(c', adapters))
  {
    StoredTwins(build, env, env', c, c');
    KeepTwins(build, env, env', c, c', KEY, ConvertControlInterface(LastAddress(c), adapters));
    var d, d' := ConvertReach(c, adapters), ConvertReach(c', adapters);
    if d.Ok? {
      ReachMirrorTwins(build, env, env', d.value, d'.value, adapters);
    }
  }

  lemma ReloadTwins(build: Build, env: Environment, env': Environment, c: Config, c': Config)
    requires build.Valid() && Twins(build, env, env', c, c')
    ensures TwinOutcomes(build, env, env', Load(build, env, c.disk), Load(build, env', c'.disk))
  {
    LoadStep(build, env, c.disk);
    LoadStep(build, env', c'.disk);
    LoadLayers(build, env, c.disk);
    LoadLayers(build, env', c'.disk);
  }

  lemma PutTwins(build: Build, env: Environment, env': Environment, c: Config, c': Config, s: string, k: string, v: Json)
    requires build.Valid() && Twins(build, env, env', c, c')
    ensures TwinOutcomes(build, env, env', Set(c, s, k, v), Set(c', s, k, v))
    ensures TwinOutcomes(build, env, env', PersistDefault(c, s, k, v), PersistDefault(c', s, k, v))
  {
    SetStep(build, env, c, s, k, v);
    SetStep(build, env', c', s, k, v);
    PersistStep(build, env, c, s, k, v);
    PersistStep(build, env', c', s, k, v);
  }

  lemma ConvertTwins(
    build: Build, env: Environment, env': Environment, hasher: Hasher, c: Config, c': Config, w: Secret, takes: bool)
    requires build.Valid() && Twins(build, env, env', c, c')
    ensures Twins(build, env, env', ConvertStoredSecret(c, w, hasher, env, takes),
                  ConvertStoredSecret(c', w, hasher, env', takes))
  {
    ConvertStep(build, env, hasher, c, w, takes);
    ConvertStep(build, env', hasher, c', w, takes);
  }

  lemma SaveTwins(build: Build, env: Environment, env': Environment, c: Config, c': Config)
    requires build.Valid() && Twins(build, env, env', c, c')
    ensures Twins(build, env, env', Save(c), Save(c'))
  {
    SaveKeepsRunning(build, env, c);
    SaveKeepsRunning(build, env', c');
  }

  /** No operation tells the two environments apart. */
  lemma StepTwins(
    build: Build, env: Environment, env': Environment, hasher: Hasher, op: Op, c: Config, c': Config)
    requires build.Valid() && Twins(build, env, env', c, c')
    ensures TwinOutcomes(build, env, env', Step(build, env, hasher, op, c), Step(build, env', hasher, op, c'))
  {
    match op
    case Reload =>
      ReloadTwins(build, env, env', c, c');
    case SetKey(s, k, v) =>
      PutTwins(build, env, env', c, c', s, k, v);
    case PersistKey(s, k, v) =>
      PutTwins(build, env, env', c, c', s, k, v);
    case ConvertSecret(w, takes) =>
      ConvertTwins(build, env, env', hasher, c, c', w, takes);
    case SaveNow(_) =>
      SaveTwins(build, env, env', c, c');
    case SettleListen(a, d) =>
      SettleChoiceTwins(build, env, env', c, c', a, d);
    case SettleDevices(a) =>
      SettleReachTwins(build, env, env', c, c', a);
  }

  lemma {:induction false} RunTwins(
    build: Build, env: Environment, env': Environment, hasher: Hasher, ops: seq<Op>, c: Config, c': Config)
    requires build.Valid() && Twins(build, env, env', c, c')
    ensures Files(build, env, hasher, ops, c) == Files(build, env', hasher, ops, c')
    ensures TwinOutcomes(build, env, env', End(build, env, hasher, ops, c), End(build, env', hasher, ops, c'))
    decreases |ops|
  {
    if ops != [] {
      StepTwins(build, env, env', hasher, ops[0], c, c');
      var d, d' := Step(build, env, hasher, ops[0], c), Step(build, env', hasher, ops[0], c');
      if d.Ok? {
        RunTwins(build, env, env', hasher, ops[1..], d.value, d'.value);
      }
    }
  }

  /** Two environments, one file that loads under both, one sequence of operations: the
      same files are written, one after the other, and the run fails in both or in
      neither. Where it does not fail, each key no variable holds reads the same from
      the effective view as from what would be saved. */
  lemma EnvironmentNeverReachesTheFile(
    build: Build, env: Environment, env': Environment, hasher: Hasher, disk: DiskFile, ops: seq<Op>)
    requires build.Valid() && Load(build, env, disk).Ok? && Load(build, env', disk).Ok?
    ensures var c, c' := Load(build, env, disk), Load(build, env', disk);
            && Files(build, env, hasher, ops, c.value) == Files(build, env', hasher, ops, c'.value)
            && var e, e' := End(build, env, hasher, ops, c.value), End(build, env', hasher, ops, c'.value);
               && (e.Ok? <==> e'.Ok?)
               && (e.Ok? ==>
                     && e.value.fileData == e'.value.fileData
                     && forall s, k, default | (s, k) !in e.value.held && SectionOpen(e.value.fileData, s) ::
                          Get(e.value, s, k, default) == Ok(Stored(e.value, s, k, default)))
  {
    LoadStep(build, env, disk);
    LoadStep(build, env', disk);
    LoadLayers(build, env, disk);
    LoadLayers(build, env', disk);
    var c, c' := Load(build, env, disk).value, Load(build, env', disk).value;
    RunTwins(build, env, env', hasher, ops, c, c');
    var e := End(build, env, hasher, ops, c);
    if e.Ok? {
      forall s, k, default | (s, k) !in e.value.held && SectionOpen(e.value.fileData, s)
        ensures Get(e.value, s, k, default) == Ok(Stored(e.value, s, k, default))
      {
        UnheldKeysRead(e.value, env, s, k, default);
      }
    }
  }
}
