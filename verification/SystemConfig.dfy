/** The layered configuration: shipped defaults, then system.json, then the
    environment. The environment is layered on the runtime view only; `save`
    writes the layer beneath it. */
module SystemConfig {
  import opened Text
  import opened ConfigTree

  type Key = (string, string)

  /** `Crash` is the TypeError or KeyError Python raises when a section it
      writes into is not an object (or, for the environment, is not there). */
  datatype Outcome<+T> = Ok(value: T) | Crash {
    predicate IsFailure() { Crash? }

    function PropagateFailure<U>(): Outcome<U>
      requires Crash?
    {
      Crash
    }

    function Extract(): T
      requires Ok?
    {
      value
    }
  }

  /** system.json: not there, not readable as JSON, or a JSON value. */
  datatype DiskFile = Absent | Unreadable | Content(json: Json)

  datatype EnvType = AsInt | AsBool | AsList | AsText
  datatype Override = Override(section: string, key: string, variable: string, kind: EnvType)

  /** Hashing a stored secret, and recognising one already hashed. */
  datatype Hasher = Hasher(hash: string -> string, looksHashed: string -> bool)

  type Environment = map<string, string>

  const BIND_VARIABLE := "OPENAVC_BIND"
  const CONTROL_INTERFACE_VARIABLE := "OPENAVC_CONTROL_INTERFACE"

  const AUTH_OVERRIDES: seq<Override> := [
    Override("auth", "programmer_password", "OPENAVC_PROGRAMMER_PASSWORD", AsText),
    Override("auth", "api_key", "OPENAVC_API_KEY", AsText),
    Override("auth", "programmer_username", "OPENAVC_PROGRAMMER_USERNAME", AsText),
    Override("auth", "allow_anonymous", "OPENAVC_ALLOW_ANONYMOUS", AsText)
  ]

  const NETWORK_OVERRIDES: seq<Override> := [
    Override("network", "http_port", "OPENAVC_PORT", AsInt),
    Override("network", "bind_address", BIND_VARIABLE, AsText),
    Override("network", "control_interface", CONTROL_INTERFACE_VARIABLE, AsText),
    Override("network", "trust_forwarded_for", "OPENAVC_TRUST_FORWARDED_FOR", AsBool),
    Override("network", "trusted_proxies", "OPENAVC_TRUSTED_PROXIES", AsList),
    Override("network", "port80_redirect", "OPENAVC_PORT80_REDIRECT", AsBool)
  ]

  const LOGGING_OVERRIDES: seq<Override> := [
    Override("logging", "level", "OPENAVC_LOG_LEVEL", AsText)
  ]

  const UPDATES_OVERRIDES: seq<Override> := [
    Override("updates", "check_enabled", "OPENAVC_UPDATE_CHECK", AsBool),
    Override("updates", "channel", "OPENAVC_UPDATE_CHANNEL", AsText)
  ]

  const CLOUD_OVERRIDES: seq<Override> := [
    Override("cloud", "enabled", "OPENAVC_CLOUD_ENABLED", AsBool),
    Override("cloud", "endpoint", "OPENAVC_CLOUD_ENDPOINT", AsText),
    Override("cloud", "system_key", "OPENAVC_CLOUD_SYSTEM_KEY", AsText),
    Override("cloud", "system_id", "OPENAVC_CLOUD_SYSTEM_ID", AsText)
  ]

  const DISCOVERY_OVERRIDES: seq<Override> := [
    Override("discovery", "advertise", "OPENAVC_MDNS_ADVERTISE", AsBool)
  ]

  const PANELS_OVERRIDES: seq<Override> := [
    Override("panels", "access", "OPENAVC_PANEL_ACCESS", AsText)
  ]

  const SIMULATION_OVERRIDES: seq<Override> := [
    Override("simulation", "ui_port", "OPENAVC_SIMULATOR_UI_PORT", AsInt),
    Override("simulation", "device_port_base", "OPENAVC_SIMULATOR_DEVICE_PORT_BASE", AsInt)
  ]

  const TLS_OVERRIDES: seq<Override> := [
    Override("tls", "enabled", "OPENAVC_TLS_ENABLED", AsBool),
    Override("tls", "port", "OPENAVC_TLS_PORT", AsInt),
    Override("tls", "auto_generate", "OPENAVC_TLS_AUTO_GENERATE", AsBool),
    Override("tls", "cert_file", "OPENAVC_TLS_CERT_FILE", AsText),
    Override("tls", "key_file", "OPENAVC_TLS_KEY_FILE", AsText),
    Override("tls", "redirect_http", "OPENAVC_TLS_REDIRECT_HTTP", AsBool),
    Override("tls", "cloud_cert", "OPENAVC_TLS_CLOUD_CERT", AsBool)
  ]

  const FIRST_OVERRIDES: seq<Override> := AUTH_OVERRIDES + NETWORK_OVERRIDES + LOGGING_OVERRIDES
  const SECOND_OVERRIDES: seq<Override> := UPDATES_OVERRIDES + CLOUD_OVERRIDES + DISCOVERY_OVERRIDES
  const THIRD_OVERRIDES: seq<Override> := PANELS_OVERRIDES + SIMULATION_OVERRIDES + TLS_OVERRIDES

  const ENV_OVERRIDES: seq<Override> := FIRST_OVERRIDES + SECOND_OVERRIDES + THIRD_OVERRIDES

  /** A release with the variables it reads. */
  datatype Build = Build(release: Release, overrides: seq<Override>) {
    ghost predicate Valid() {
      && release.Valid()
      && NamesVariables(overrides)
      && forall w: Secret :: Override("auth", w.Field(), w.Variable(), AsText) in overrides
    }
  }

  ghost predicate NamesVariables(table: seq<Override>) {
    forall o <- table :: o.variable != ""
  }

  const ANY_SPELLINGS: set<string> := {"", "0.0.0.0", "::", "[::]", "*"}
  const LOOPBACK_SPELLINGS: set<string> := {"127.0.0.1", "::1", "[::1]", "localhost"}

  // ---------------------------------------------------------------------
  // Reading the environment
  // ---------------------------------------------------------------------

  function SplitCommas(s: string): (r: seq<string>)
    ensures r != []
  {
    if s == "" then [""]
    else
      var rest := SplitCommas(s[1..]);
      if s[0] == ',' then [""] + rest else [[s[0]] + rest[0]] + rest[1..]
  }

  function ParseEnvValue(raw: string, kind: EnvType): Option<Json> {
    match kind
    case AsBool => Some(Bool(Lower(raw) in {"true", "1", "yes"}))
    case AsInt =>
      (match ParseInt(raw)
       case None => None
       case Some(n) => Some(Int(n)))
    case AsList => Some(Other(raw, exists item <- SplitCommas(raw) :: Strip(item) != ""))
    case AsText => Some(Str(raw))
  }

  function IdentityOfAddress(address: string): Json {
    Obj(map["address" := Str(address)])
  }

  /** `OPENAVC_BIND` as the mode and the adapter identity it stands for. */
  function ParseBindVariable(raw: string): (string, Json) {
    var value := Strip(raw);
    if value in ANY_SPELLINGS then ("any", EMPTY)
    else if Lower(value) in LOOPBACK_SPELLINGS then ("this_computer", EMPTY)
    else ("adapter", IdentityOfAddress(Trim(value, IsBracket)))
  }

  function ParseControlInterfaceVariable(raw: string): Json {
    var value := Trim(Strip(raw), IsBracket);
    if value != "" then IdentityOfAddress(value) else EMPTY
  }

  // ---------------------------------------------------------------------
  // The state and its operations, as functions of the state before
  // ---------------------------------------------------------------------

  /** `_data`, `_file_data`, `_raw_file`, `_env_held`, and the file itself. */
  datatype Config = Config(
    data: Json, fileData: Json, rawFile: Json, held: map<Key, string>, disk: DiskFile)

  datatype Layer = Layer(data: Json, held: map<Key, string>)

  /** Write into a section that has to be there already. */
  function WriteInto(j: Json, section: string, key: string, value: Json): Outcome<Json> {
    if j.Obj? && section in j.fields && j.fields[section].Obj? then
      Ok(Obj(j.fields[section := Obj(j.fields[section].fields[key := value])]))
    else Crash
  }

  /** Write into a section, creating it when it is missing. */
  function Put(j: Json, section: string, key: string, value: Json): Outcome<Json> {
    if !j.Obj? then Crash
    else if section !in j.fields then WriteInto(Obj(j.fields[section := EMPTY]), section, key, value)
    else WriteInto(j, section, key, value)
  }

  function Hold(l: Layer, section: string, key: string, value: Json, variable: string): Outcome<Layer> {
    var d :- WriteInto(l.data, section, key, value);
    Ok(Layer(d, l.held[(section, key) := variable]))
  }

  function ApplyOverride(o: Override, env: Environment, l: Layer): Outcome<Layer> {
    if o.variable !in env then Ok(l)
    else
      match ParseEnvValue(env[o.variable], o.kind)
      case None => Ok(l)
      case Some(v) => Hold(l, o.section, o.key, v, o.variable)
  }

  function ApplyOverrides(table: seq<Override>, env: Environment, l: Layer): Outcome<Layer> {
    if table == [] then Ok(l)
    else
      var m :- ApplyOverrides(table[..|table| - 1], env, l);
      ApplyOverride(table[|table| - 1], env, m)
  }

  function ApplyBind(env: Environment, l: Layer): Outcome<Layer> {
    if BIND_VARIABLE !in env then Ok(l)
    else
      var (mode, adapter) := ParseBindVariable(env[BIND_VARIABLE]);
      var m :- Hold(l, "network", "accept_connections_from", Str(mode), BIND_VARIABLE);
      Hold(m, "network", "accept_connections_adapter", adapter, BIND_VARIABLE)
  }

  function ApplyControlInterface(env: Environment, l: Layer): Outcome<Layer> {
    if CONTROL_INTERFACE_VARIABLE !in env then Ok(l)
    else Hold(l, "network", "reach_devices_through",
              ParseControlInterfaceVariable(env[CONTROL_INTERFACE_VARIABLE]), CONTROL_INTERFACE_VARIABLE)
  }

  function ApplyEnvironment(table: seq<Override>, env: Environment, l: Layer): Outcome<Layer> {
    var m :- ApplyOverrides(table, env, l);
    var n :- ApplyBind(env, m);
    ApplyControlInterface(env, n)
  }

  /** What the file itself said: nothing when it is missing, unreadable or not
      an object. */
  function RawOf(disk: DiskFile): (r: Json)
    ensures r.Obj?
  {
    if disk.Content? && disk.json.Obj? then disk.json else EMPTY
  }

  function Load(build: Build, env: Environment, disk: DiskFile): Outcome<Config>
    requires build.release.Valid()
  {
    var persisted := build.release.Persist(RawOf(disk));
    var l :- ApplyEnvironment(build.overrides, env, Layer(persisted, map[]));
    Ok(Config(l.data, persisted, RawOf(disk), l.held, disk))
  }

  function Set(c: Config, section: string, key: string, value: Json): Outcome<Config> {
    var d :- Put(c.data, section, key, value);
    var f :- Put(c.fileData, section, key, value);
    Ok(c.(data := d, fileData := f))
  }

  function PersistDefault(c: Config, section: string, key: string, value: Json): Outcome<Config> {
    var f :- Put(c.fileData, section, key, value);
    var r :- Put(c.rawFile, section, key, value);
    if (section, key) in c.held && c.held[(section, key)] != "" then Ok(c.(fileData := f, rawFile := r))
    else
      var d :- Put(c.data, section, key, value);
      Ok(c.(data := d, fileData := f, rawFile := r))
  }

  function Save(c: Config): Config {
    c.(disk := Content(c.fileData))
  }

  /** `save` where the disk may refuse the write, which `save` only logs. */
  function SaveTo(c: Config, takes: bool): Config {
    if takes then Save(c) else c
  }

  /** `get`: from the effective view. A section that is not an object has no
      `.get` to ask. */
  function Get(c: Config, section: string, key: string, default: Json): Outcome<Json> {
    if !c.data.Obj? then Crash
    else if section !in c.data.fields then Ok(default)
    else if !c.data.fields[section].Obj? then Crash
    else if key in c.data.fields[section].fields then Ok(c.data.fields[section].fields[key])
    else Ok(default)
  }

  /** `stored`: from the layer `save` writes. */
  function Stored(c: Config, section: string, key: string, default: Json): Json {
    if c.fileData.Obj? && section in c.fileData.fields && c.fileData.fields[section].Obj?
       && key in c.fileData.fields[section].fields
    then c.fileData.fields[section].fields[key]
    else default
  }

  datatype Secret = ProgrammerPassword | ApiKey {
    function Field(): string {
      if this == ProgrammerPassword then "programmer_password" else "api_key"
    }
    function Variable(): string {
      if this == ProgrammerPassword then "OPENAVC_PROGRAMMER_PASSWORD" else "OPENAVC_API_KEY"
    }
  }

  /** `_convert_stored_secret`: a secret stored as typed becomes its digest in
      the file layer, and in the runtime view unless the environment has one. */
  function ConvertStoredSecret(c: Config, which: Secret, hasher: Hasher, env: Environment, takes: bool): Config {
    var stored := Stored(c, "auth", which.Field(), Str(""));
    if !stored.Str? || stored.s == "" || hasher.looksHashed(stored.s) then c
    else
      var hashed := Str(hasher.hash(stored.s));
      var file := WriteInto(c.fileData, "auth", which.Field(), hashed);
      var held := which.Variable() in env && env[which.Variable()] != "";
      var data := if held then Crash else WriteInto(c.data, "auth", which.Field(), hashed);
      SaveTo(c.(fileData := if file.Ok? then file.value else c.fileData,
                data := if data.Ok? then data.value else c.data), takes)
  }

  // ---------------------------------------------------------------------
  // The object
  // ---------------------------------------------------------------------

  class SystemConfigFile {
    const build: Build
    var data: Json
    var fileData: Json
    var rawFile: Json
    var envHeld: map<Key, string>
    var disk: DiskFile

    ghost function View(): Config
      reads this
    {
      Config(data, fileData, rawFile, envHeld, disk)
    }

    constructor (build: Build, disk: DiskFile)
      ensures this.build == build && this.disk == disk
    {
      this.build := build;
      this.disk := disk;
      data, fileData, rawFile, envHeld := EMPTY, EMPTY, EMPTY, map[];
    }

    /** The file over the defaults, without what this release retired, and the
        snapshot of it that `SaveFile` writes. */
    method ReadFile()
      requires build.release.Valid()
      modifies this`data, this`fileData, this`rawFile, this`envHeld
      ensures fileData == data == build.release.Persist(RawOf(disk))
      ensures rawFile == RawOf(disk) && envHeld == map[]
    {
      data, rawFile := build.release.defaults, EMPTY;
      if disk.Content? && disk.json.Obj? {
        rawFile := disk.json;
        data := Merge(data, disk.json);
      } else {
        assert Merge(data, EMPTY).fields == data.fields;
      }
      data := DropKeys(data, build.release.removed);
      fileData, envHeld := data, map[];
    }

    method LayOverrides(env: Environment) returns (ok: bool)
      modifies this`data, this`envHeld
      ensures ok == ApplyOverrides(build.overrides, env, old(Layer(data, envHeld))).Ok?
      ensures ok ==> Layer(data, envHeld) == ApplyOverrides(build.overrides, env, old(Layer(data, envHeld))).value
    {
      ghost var start := Layer(data, envHeld);
      var table := build.overrides;
      for i := 0 to |table|
        invariant ApplyOverrides(table[..i], env, start) == Ok(Layer(data, envHeld))
      {
        var o := table[i];
        assert table[..i + 1][..i] == table[..i];
        if o.variable in env {
          var parsed := ParseEnvValue(env[o.variable], o.kind);
          if parsed.Some? {
            var written := WriteInto(data, o.section, o.key, parsed.value);
            if written.Crash? {
              ApplyOverridesCrash(table, i + 1, env, start);
              return false;
            }
            data, envHeld := written.value, envHeld[(o.section, o.key) := o.variable];
          }
        }
      }
      assert table[..|table|] == table;
      ok := true;
    }

    method HoldKey(section: string, key: string, value: Json, variable: string) returns (ok: bool)
      modifies this`data, this`envHeld
      ensures ok == Hold(old(Layer(data, envHeld)), section, key, value, variable).Ok?
      ensures ok ==> Layer(data, envHeld) == Hold(old(Layer(data, envHeld)), section, key, value, variable).value
    {
      var d := WriteInto(data, section, key, value);
      if d.Crash? { return false; }
      data, envHeld := d.value, envHeld[(section, key) := variable];
      ok := true;
    }

    method LoadFile(env: Environment) returns (ok: bool)
      requires build.release.Valid()
      modifies this`data, this`fileData, this`rawFile, this`envHeld
      ensures ok == Load(build, env, disk).Ok?
      ensures ok ==> View() == Load(build, env, disk).value
    {
      ReadFile();
      ok := LayOverrides(env);
      if ok && BIND_VARIABLE in env {
        var (mode, adapter) := ParseBindVariable(env[BIND_VARIABLE]);
        ok := HoldKey("network", "accept_connections_from", Str(mode), BIND_VARIABLE);
        if ok {
          ok := HoldKey("network", "accept_connections_adapter", adapter, BIND_VARIABLE);
        }
      }
      if ok && CONTROL_INTERFACE_VARIABLE in env {
        ok := HoldKey("network", "reach_devices_through",
                      ParseControlInterfaceVariable(env[CONTROL_INTERFACE_VARIABLE]), CONTROL_INTERFACE_VARIABLE);
      }
    }

    method SetValue(section: string, key: string, value: Json) returns (ok: bool)
      modifies this`data, this`fileData
      ensures ok == Set(old(View()), section, key, value).Ok?
      ensures ok ==> View() == Set(old(View()), section, key, value).value
    {
      var d := Put(data, section, key, value);
      if d.Crash? { return false; }
      data := d.value;
      var f := Put(fileData, section, key, value);
      if f.Crash? { return false; }
      fileData := f.value;
      ok := true;
    }

    method PersistDefaultValue(section: string, key: string, value: Json) returns (ok: bool)
      modifies this`data, this`fileData, this`rawFile
      ensures ok == PersistDefault(old(View()), section, key, value).Ok?
      ensures ok ==> View() == PersistDefault(old(View()), section, key, value).value
    {
      var f := Put(fileData, section, key, value);
      if f.Crash? { return false; }
      fileData := f.value;
      var r := Put(rawFile, section, key, value);
      if r.Crash? { return false; }
      rawFile := r.value;
      if (section, key) in envHeld && envHeld[(section, key)] != "" { return true; }
      var d := Put(data, section, key, value);
      if d.Crash? { return false; }
      data := d.value;
      ok := true;
    }

    /** `stored(section, key)`. */
    function StoredValue(section: string, key: string): Json
      reads this
    {
      Stored(Config(data, fileData, rawFile, envHeld, disk), section, key, Null)
    }

    /** `save`: the persisted layer, and nothing else, or where the disk refuses it
        nothing at all. */
    method SaveFile(takes: bool)
      modifies this`disk
      ensures View() == SaveTo(old(View()), takes)
    {
      if takes { disk := Content(fileData); }
    }

    method ConvertSecret(which: Secret, hasher: Hasher, env: Environment, takes: bool) returns (converted: bool)
      modifies this
      ensures View() == ConvertStoredSecret(old(View()), which, hasher, env, takes)
      ensures converted ==>
                Stored(View(), "auth", which.Field(), Str("")).Str? && (takes ==> disk == Content(fileData))
      ensures !converted ==> View() == old(View())
    {
      var stored := Stored(Config(data, fileData, rawFile, envHeld, disk), "auth", which.Field(), Str(""));
      if !stored.Str? || stored.s == "" || hasher.looksHashed(stored.s) { return false; }
      var hashed := Str(hasher.hash(stored.s));
      fileData := WriteInto(fileData, "auth", which.Field(), hashed).value;
      if !(which.Variable() in env && env[which.Variable()] != "") {
        var d := WriteInto(data, "auth", which.Field(), hashed);
        if d.Ok? { data := d.value; }
      }
      SaveFile(takes);
      converted := true;
    }
  }

  lemma {:induction false} ApplyOverridesCrash(table: seq<Override>, n: nat, env: Environment, l: Layer)
    requires n <= |table| && ApplyOverrides(table[..n], env, l) == Crash
    ensures ApplyOverrides(table, env, l) == Crash
    decreases |table| - n
  {
    if n < |table| {
      assert table[..n + 1][..n] == table[..n];
      ApplyOverridesCrash(table, n + 1, env, l);
    } else {
      assert table[..n] == table;
    }
  }

  // ---------------------------------------------------------------------
  // The two layers
  // ---------------------------------------------------------------------

  /** The runtime view differs from the persisted layer at held keys only. */
  ghost predicate LayersAgree(data: Json, file: Json, held: map<Key, string>) {
    && data.Obj? && file.Obj?
    && data.fields.Keys == file.fields.Keys
    && (forall key <- held :: key.0 in file.fields)
    && forall s <- file.fields ::
         if file.fields[s].Obj? then
           data.fields[s].Obj? && SectionAgrees(s, data.fields[s].fields, file.fields[s].fields, held)
         else data.fields[s] == file.fields[s]
  }

  ghost predicate SectionAgrees(
    s: string, data: map<string, Json>, file: map<string, Json>, held: map<Key, string>)
  {
    forall k :: (s, k) !in held ==> (k in data <==> k in file) && (k in file ==> data[k] == file[k])
  }

  /** What every operation keeps. A variable's name is never empty, and a
      secret's variable, when it is set, holds that secret. */
  ghost predicate WellLayered(c: Config, env: Environment) {
    && LayersAgree(c.data, c.fileData, c.held)
    && c.rawFile.Obj?
    && (forall key <- c.held :: c.held[key] != "")
    && (forall w: Secret :: w.Variable() in env ==> ("auth", w.Field()) in c.held)
  }

  lemma HoldKeepsLayers(l: Layer, file: Json, s: string, k: string, v: Json, variable: string)
    requires LayersAgree(l.data, file, l.held) && variable != ""
    requires forall key <- l.held :: l.held[key] != ""
    ensures var h := Hold(l, s, k, v, variable);
            h.Ok? ==>
              && LayersAgree(h.value.data, file, h.value.held)
              && l.held.Keys <= h.value.held.Keys && (s, k) in h.value.held
              && forall key <- h.value.held :: h.value.held[key] != ""
  {
  }

  /** Which keys the table makes the environment hold. */
  ghost predicate HoldsTable(table: seq<Override>, env: Environment, held: map<Key, string>) {
    forall o <- table :: o.variable in env && o.kind == AsText ==> (o.section, o.key) in held
  }

  lemma {:induction false} OverridesKeepLayers(table: seq<Override>, env: Environment, l: Layer, file: Json)
    requires LayersAgree(l.data, file, l.held) && NamesVariables(table)
    requires forall key <- l.held :: l.held[key] != ""
    ensures var r := ApplyOverrides(table, env, l);
            r.Ok? ==>
              && LayersAgree(r.value.data, file, r.value.held)
              && l.held.Keys <= r.value.held.Keys
              && HoldsTable(table, env, r.value.held)
              && forall key <- r.value.held :: r.value.held[key] != ""
  {
    if table != [] && ApplyOverrides(table, env, l).Ok? {
      var front, o := table[..|table| - 1], table[|table| - 1];
      assert o in table;
      OverridesKeepLayers(front, env, l, file);
      var m := ApplyOverrides(front, env, l).value;
      if o.variable in env {
        var parsed := ParseEnvValue(env[o.variable], o.kind);
        if parsed.Some? {
          HoldKeepsLayers(m, file, o.section, o.key, parsed.value, o.variable);
        }
      }
      forall x <- table
        ensures x.variable in env && x.kind == AsText ==>
                  (x.section, x.key) in ApplyOverrides(table, env, l).value.held
      {
        assert x in front || x == o;
      }
    }
  }

  /** The shipped table is one every result below applies to. */
  lemma ShippedTable(release: Release)
    requires release.Valid()
    ensures Build(release, ENV_OVERRIDES).Valid()
  {
    NamesFirst();
    NamesSecond();
    NamesThird();
    NamesBoth(FIRST_OVERRIDES, SECOND_OVERRIDES);
    NamesBoth(FIRST_OVERRIDES + SECOND_OVERRIDES, THIRD_OVERRIDES);
    forall w: Secret ensures Override("auth", w.Field(), w.Variable(), AsText) in ENV_OVERRIDES {
      SecretIsRead(w);
    }
  }

  lemma SecretIsRead(w: Secret)
    ensures Override("auth", w.Field(), w.Variable(), AsText) in ENV_OVERRIDES
  {
    var o := Override("auth", w.Field(), w.Variable(), AsText);
    assert o in AUTH_OVERRIDES by {
      assert AUTH_OVERRIDES[0] in AUTH_OVERRIDES && AUTH_OVERRIDES[1] in AUTH_OVERRIDES;
    }
    InSum(o, AUTH_OVERRIDES, NETWORK_OVERRIDES);
    InSum(o, AUTH_OVERRIDES + NETWORK_OVERRIDES, LOGGING_OVERRIDES);
    InSum(o, FIRST_OVERRIDES, SECOND_OVERRIDES);
    InSum(o, FIRST_OVERRIDES + SECOND_OVERRIDES, THIRD_OVERRIDES);
  }

  lemma InSum(o: Override, a: seq<Override>, b: seq<Override>)
    requires o in a
    ensures o in a + b
  {
  }

  lemma NamesBoth(a: seq<Override>, b: seq<Override>)
    requires NamesVariables(a) && NamesVariables(b)
    ensures NamesVariables(a + b)
  {
  }

  lemma NamesFirst()
    ensures NamesVariables(FIRST_OVERRIDES)
  {
    assert NamesVariables(AUTH_OVERRIDES) && NamesVariables(NETWORK_OVERRIDES) && NamesVariables(LOGGING_OVERRIDES);
    NamesBoth(AUTH_OVERRIDES, NETWORK_OVERRIDES);
    NamesBoth(AUTH_OVERRIDES + NETWORK_OVERRIDES, LOGGING_OVERRIDES);
  }

  lemma NamesSecond()
    ensures NamesVariables(SECOND_OVERRIDES)
  {
    assert NamesVariables(UPDATES_OVERRIDES) && NamesVariables(CLOUD_OVERRIDES) && NamesVariables(DISCOVERY_OVERRIDES);
    NamesBoth(UPDATES_OVERRIDES, CLOUD_OVERRIDES);
    NamesBoth(UPDATES_OVERRIDES + CLOUD_OVERRIDES, DISCOVERY_OVERRIDES);
  }

  lemma NamesThird()
    ensures NamesVariables(THIRD_OVERRIDES)
  {
    assert NamesVariables(PANELS_OVERRIDES) && NamesVariables(SIMULATION_OVERRIDES) && NamesVariables(TLS_OVERRIDES);
    NamesBoth(PANELS_OVERRIDES, SIMULATION_OVERRIDES);
    NamesBoth(PANELS_OVERRIDES + SIMULATION_OVERRIDES, TLS_OVERRIDES);
  }

  /** Loading leaves the environment out of the persisted layer, and each key no
      variable holds reads the same in both layers. */
  lemma LoadLayers(build: Build, env: Environment, disk: DiskFile)
    requires build.Valid()
    ensures var r := Load(build, env, disk);
            r.Ok? ==>
              && WellLayered(r.value, env)
              && r.value.fileData == build.release.Persist(RawOf(disk))
              && r.value.rawFile == RawOf(disk) && r.value.disk == disk
  {
    var file := build.release.Persist(RawOf(disk));
    var l0 := Layer(file, map[]);
    OverridesKeepLayers(build.overrides, env, l0, file);
    if Load(build, env, disk).Ok? {
      var l1 := ApplyOverrides(build.overrides, env, l0).value;
      var l2 := ApplyBind(env, l1).value;
      if BIND_VARIABLE in env {
        var (mode, adapter) := ParseBindVariable(env[BIND_VARIABLE]);
        HoldKeepsLayers(l1, file, "network", "accept_connections_from", Str(mode), BIND_VARIABLE);
        var h := Hold(l1, "network", "accept_connections_from", Str(mode), BIND_VARIABLE).value;
        HoldKeepsLayers(h, file, "network", "accept_connections_adapter", adapter, BIND_VARIABLE);
      }
      if CONTROL_INTERFACE_VARIABLE in env {
        HoldKeepsLayers(l2, file, "network", "reach_devices_through",
                        ParseControlInterfaceVariable(env[CONTROL_INTERFACE_VARIABLE]), CONTROL_INTERFACE_VARIABLE);
      }
      forall w: Secret | w.Variable() in env
        ensures ("auth", w.Field()) in l1.held
      {
        assert Override("auth", w.Field(), w.Variable(), AsText) in build.overrides;
      }
    }
  }

  /** A setting that was set reads back from both layers, held or not. */
  lemma SetReadsBack(c: Config, s: string, k: string, v: Json, default: Json)
    requires Set(c, s, k, v).Ok?
    ensures var r := Set(c, s, k, v).value;
            && Get(r, s, k, default) == Ok(v) && Stored(r, s, k, default) == v
            && r.rawFile == c.rawFile && r.held == c.held && r.disk == c.disk
  {
  }

  /** Every other setting reads as before. */
  lemma SetLeavesOthers(c: Config, s: string, k: string, v: Json, t: string, other: string, default: Json)
    requires Set(c, s, k, v).Ok? && (t, other) != (s, k)
    ensures var r := Set(c, s, k, v).value;
            Stored(r, t, other, default) == Stored(c, t, other, default) && Get(r, t, other, default) == Get(c, t, other, default)
  {
  }

  /** A default that is kept reads back from what would be saved, and from the effective
      view unless a variable holds it; then that view does not move. */
  lemma PersistedReadsBack(c: Config, s: string, k: string, v: Json, default: Json)
    requires PersistDefault(c, s, k, v).Ok?
    ensures var r := PersistDefault(c, s, k, v).value;
            && Stored(r, s, k, default) == v && r.held == c.held && r.disk == c.disk
            && r.rawFile.Obj? && s in r.rawFile.fields && r.rawFile.fields[s].Obj? && k in r.rawFile.fields[s].fields
            && r.rawFile.fields[s].fields[k] == v
            && (if (s, k) in c.held && c.held[(s, k)] != "" then r.data == c.data else Get(r, s, k, default) == Ok(v))
  {
  }

  /** A key no variable holds: what the server runs with is what it would save. */
  lemma UnheldKeysRead(c: Config, env: Environment, s: string, k: string, default: Json)
    requires WellLayered(c, env) && (s, k) !in c.held
    requires s in c.fileData.fields ==> c.fileData.fields[s].Obj?
    ensures Get(c, s, k, default) == Ok(Stored(c, s, k, default))
  {
  }
}
