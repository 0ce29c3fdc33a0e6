/** Settling both network choices on a system that has none, and keeping their
    rollback mirrors current: what a start does to the configuration. */
module Settling {
  import opened Text
  import opened ConfigTree
  import opened SystemConfig
  import opened Listen
  import opened ReachDevices

  const INSTALLED_TYPES: set<string> :=
    {"windows_installer", "linux_package", "macos_app", "docker", "android_appliance"}

  function StoredNetwork(c: Config, key: string): Json {
    Stored(c, "network", key, Null)
  }

  /** Write a value a start settled. */
  function Keep(c: Config, key: string, value: Json): Outcome<Config> {
    PersistDefault(c, "network", key, value)
  }

  // ---------------------------------------------------------------------
  // Accept connections from
  // ---------------------------------------------------------------------

  /** `convert_bind_address`: what a from-source `bind_address` meant. */
  function ConvertBindAddress(value: Json, adapters: seq<Adapter>): (Mode, Json) {
    if value.Null? then (ThisComputer, EMPTY)
    else
      var text := Strip(Printed(value));
      if text in ANY_SPELLINGS then (Any, EMPTY)
      else if Lower(text) in LOOPBACK_SPELLINGS then (ThisComputer, EMPTY)
      else
        var address := Trim(text, IsBracket);
        match FirstHolding(address, adapters)
        case Some(i) => (OneAdapter, adapters[i].Identity())
        case None => (OneAdapter, IdentityOfAddress(address))
  }

  function MirrorFor(m: Mode): string {
    if m == ThisComputer then LOOPBACK else WILDCARD
  }

  /** `listen.refresh_mirror`. */
  function RefreshListenMirror(c: Config): Outcome<Config> {
    match ModeOf(StoredNetwork(c, MODE_KEY))
    case None => Ok(c)
    case Some(m) =>
      if StoredNetwork(c, MIRROR_KEY) != Str(MirrorFor(m)) then Keep(c, MIRROR_KEY, Str(MirrorFor(m))) else Ok(c)
  }

  function DefaultChoice(c: Config, adapters: seq<Adapter>, deployment: string): (Mode, Json) {
    if deployment in INSTALLED_TYPES then (Any, EMPTY)
    else ConvertBindAddress(StoredNetwork(c, MIRROR_KEY), adapters)
  }

  /** `settle_choice`. */
  function SettleChoice(c: Config, adapters: seq<Adapter>, deployment: string): Outcome<Config> {
    if ModeOf(StoredNetwork(c, MODE_KEY)).Some? then RefreshListenMirror(c)
    else
      var (mode, identity) := DefaultChoice(c, adapters, deployment);
      var c1 :- Keep(c, MODE_KEY, Str(ModeText(mode)));
      var c2 :- Keep(c1, ADAPTER_KEY, identity);
      RefreshListenMirror(c2)
  }

  // ---------------------------------------------------------------------
  // Reach devices through
  // ---------------------------------------------------------------------

  /** `_last`: the address the stored choice resolved to before. */
  function LastAddress(c: Config): string {
    Strip(TextOf(StoredNetwork(c, CONTROL_INTERFACE)))
  }

  function ConvertControlInterface(text: string, adapters: seq<Adapter>): Json {
    if text == "" then EMPTY
    else
      match FirstHolding(text, adapters)
      case Some(i) => adapters[i].Identity()
      case None => IdentityOfAddress(text)
  }

  /** `reach_devices.refresh_mirror`. */
  function RefreshReachMirror(c: Config, adapters: seq<Adapter>): Outcome<Config> {
    var identity := CleanIdentity(StoredNetwork(c, KEY));
    var value := if identity != map[] then ResolveReach(identity, adapters, LastAddress(c)).address else "";
    if StoredNetwork(c, CONTROL_INTERFACE) != Str(value) then Keep(c, CONTROL_INTERFACE, Str(value)) else Ok(c)
  }

  function ConvertReach(c: Config, adapters: seq<Adapter>): Outcome<Config> {
    if StoredNetwork(c, KEY).Obj? then Ok(c)
    else Keep(c, KEY, ConvertControlInterface(LastAddress(c), adapters))
  }

  function KeepReachMirror(c: Config, adapters: seq<Adapter>): Outcome<Config> {
    var identity := CleanIdentity(StoredNetwork(c, KEY));
    if identity != map[] && !IsLiteral(identity) then RefreshReachMirror(c, adapters)
    else if IsLiteral(identity) && StoredNetwork(c, CONTROL_INTERFACE) != Str(identity["address"]) then
      Keep(c, CONTROL_INTERFACE, Str(identity["address"]))
    else if identity == map[] && Truthy(StoredNetwork(c, CONTROL_INTERFACE)) then
      Keep(c, CONTROL_INTERFACE, Str(""))
    else Ok(c)
  }

  /** `reach_devices.settle`. */
  function SettleReach(c: Config, adapters: seq<Adapter>): Outcome<Config> {
    var c1 :- ConvertReach(c, adapters);
    KeepReachMirror(c1, adapters)
  }

  /** What one `start` makes of the configuration. */
  function Settle(c: Config, adapters: seq<Adapter>, deployment: string): Outcome<Config> {
    var c1 :- SettleChoice(c, adapters, deployment);
    SettleReach(c1, adapters)
  }

  /** The five keys settling writes. */
  function SettledKeys(c: Config): seq<Json> {
    [StoredNetwork(c, MODE_KEY), StoredNetwork(c, ADAPTER_KEY), StoredNetwork(c, MIRROR_KEY),
     StoredNetwork(c, KEY), StoredNetwork(c, CONTROL_INTERFACE)]
  }

  // ---------------------------------------------------------------------
  // When nothing can go wrong on the way
  // ---------------------------------------------------------------------

  /** The network section is an object wherever it is kept. */
  predicate NetworkOpen(c: Config) {
    SectionOpen(c.data, "network") && SectionIsObject(c.fileData, "network") && SectionOpen(c.rawFile, "network")
  }

  lemma KeepWrites(c: Config, key: string, value: Json)
    requires NetworkOpen(c)
    ensures var r := Keep(c, key, value);
            && r.Ok? && NetworkOpen(r.value)
            && r.value.disk == c.disk && r.value.held == c.held
            && r.value.fileData == Obj(c.fileData.fields["network" := Obj(c.fileData.fields["network"].fields[key := value])])
            && StoredNetwork(r.value, key) == value
            && forall k :: k != key ==>
                 StoredNetwork(r.value, k) == StoredNetwork(c, k)
                 && Get(r.value, "network", k, Null) == Get(c, "network", k, Null)
  {
  }

  lemma ModeTexts(m: Mode)
    ensures ModeOf(Str(ModeText(m))) == Some(m)
  {
    match m
    case Any =>
    case OneAdapter => assert ModeText(m)[1] != "any"[1];
    case ThisComputer => assert ModeText(m)[0] != "any"[0];
  }

  // ---------------------------------------------------------------------
  // The fixpoint
  // ---------------------------------------------------------------------

  /** A stored state neither half of a start changes: a choice, and the address an
      earlier release binds for it. */
  predicate ListenSettled(c: Config) {
    var m := ModeOf(StoredNetwork(c, MODE_KEY));
    m.Some? && StoredNetwork(c, MIRROR_KEY) == Str(if m == Some(ThisComputer) then "127.0.0.1" else "0.0.0.0")
  }

  predicate ReachSettled(c: Config, adapters: seq<Adapter>) {
    var identity := CleanIdentity(StoredNetwork(c, KEY));
    && StoredNetwork(c, KEY).Obj?
    && (identity == map[] ==> !Truthy(StoredNetwork(c, CONTROL_INTERFACE)))
    && (identity != map[] ==>
          StoredNetwork(c, CONTROL_INTERFACE) == Str(ResolveReach(identity, adapters, LastAddress(c)).address))
  }

  lemma SettleChoiceSettles(c: Config, adapters: seq<Adapter>, deployment: string)
    requires NetworkOpen(c)
    ensures var r := SettleChoice(c, adapters, deployment);
            && r.Ok? && NetworkOpen(r.value) && ListenSettled(r.value) && r.value.disk == c.disk
            && (ModeOf(StoredNetwork(c, MODE_KEY)).Some? ==>
                  StoredNetwork(r.value, MODE_KEY) == StoredNetwork(c, MODE_KEY)
                  && StoredNetwork(r.value, ADAPTER_KEY) == StoredNetwork(c, ADAPTER_KEY))
            && forall k :: k !in {MODE_KEY, ADAPTER_KEY, MIRROR_KEY} ==>
                             StoredNetwork(r.value, k) == StoredNetwork(c, k)
  {
    var c2 := c;
    if ModeOf(StoredNetwork(c, MODE_KEY)).None? {
      var (mode, identity) := DefaultChoice(c, adapters, deployment);
      ModeTexts(mode);
      KeepWrites(c, MODE_KEY, Str(ModeText(mode)));
      var c1 := Keep(c, MODE_KEY, Str(ModeText(mode))).value;
      KeepWrites(c1, ADAPTER_KEY, identity);
      c2 := Keep(c1, ADAPTER_KEY, identity).value;
    }
    var m := ModeOf(StoredNetwork(c2, MODE_KEY)).value;
    KeepWrites(c2, MIRROR_KEY, Str(MirrorFor(m)));
  }

  /** Resolving against the address just kept gives that address again. */
  lemma ResolveAgain(identity: AdapterIdentity, adapters: seq<Adapter>, j: Json)
    ensures var first := ResolveReach(identity, adapters, Strip(TextOf(j))).address;
            ResolveReach(identity, adapters, Strip(TextOf(Str(first)))).address == first
  {
    TrimIdempotent(TextOf(j), IsSpace);
  }

  lemma CleanIdentityKept(j: Json)
    ensures Cleaned(CleanIdentity(j)) == CleanIdentity(j)
  {
    CleanIdentityIsClean(j);
  }

  lemma LiteralResolvesToItself(identity: AdapterIdentity, adapters: seq<Adapter>, last: string)
    requires IsLiteral(identity) && Cleaned(identity) == identity
    ensures ResolveReach(identity, adapters, last).address == identity["address"]
  {
  }

  lemma ReachMirrorSettles(c: Config, adapters: seq<Adapter>)
    requires NetworkOpen(c) && StoredNetwork(c, KEY).Obj?
    ensures var r := KeepReachMirror(c, adapters);
            && r.Ok? && NetworkOpen(r.value) && ReachSettled(r.value, adapters)
            && r.value.disk == c.disk
            && StoredNetwork(r.value, KEY) == StoredNetwork(c, KEY)
            && forall k :: k != CONTROL_INTERFACE ==> StoredNetwork(r.value, k) == StoredNetwork(c, k)
  {
    var stored := StoredNetwork(c, KEY);
    var identity := CleanIdentity(stored);
    CleanIdentityKept(stored);
    if identity == map[] {
      KeepWrites(c, CONTROL_INTERFACE, Str(""));
    } else if IsLiteral(identity) {
      KeepWrites(c, CONTROL_INTERFACE, Str(identity["address"]));
      LiteralResolvesToItself(identity, adapters, LastAddress(KeepReachMirror(c, adapters).value));
    } else {
      var value := ResolveReach(identity, adapters, LastAddress(c)).address;
      KeepWrites(c, CONTROL_INTERFACE, Str(value));
      ResolveAgain(identity, adapters, StoredNetwork(c, CONTROL_INTERFACE));
    }
  }

  // ---------------------------------------------------------------------
  // The mirror through a history of choices and starts
  // ---------------------------------------------------------------------

  /** A choice saved in Settings, or a start, with the adapters present then. */
  datatype ReachEvent = Chosen(identity: AdapterIdentity, adapters: seq<Adapter>) | Restarted(adapters: seq<Adapter>)

  function ReachStep(c: Config, e: ReachEvent): Outcome<Config> {
    match e
    case Chosen(identity, adapters) =>
      var c1 :- Set(c, "network", KEY, IdentityJson(identity));
      RefreshReachMirror(c1, adapters)
    case Restarted(adapters) => SettleReach(c, adapters)
  }

  function ReachRun(c: Config, events: seq<ReachEvent>): Outcome<Config> {
    if events == [] then Ok(c)
    else
      var d :- ReachRun(c, events[..|events| - 1]);
      ReachStep(d, events[|events| - 1])
  }

  /** What each event read: the choice it left in the file, and the adapters. */
  function ReadingsOf(c: Config, events: seq<ReachEvent>): seq<Reading> {
    if events == [] then []
    else
      var last := events[|events| - 1];
      var d := ReachRun(c, events);
      ReadingsOf(c, events[..|events| - 1])
      + [Reading(if d.Ok? then CleanIdentity(StoredNetwork(d.value, KEY)) else map[], last.adapters)]
  }

  lemma EmptyResolvesToNothing(adapters: seq<Adapter>, last: string)
    ensures ResolveReach(map[], adapters, last).address == ""
  {
  }

  lemma RefreshedMirror(c: Config, adapters: seq<Adapter>)
    requires NetworkOpen(c)
    ensures var r := RefreshReachMirror(c, adapters);
            var identity := CleanIdentity(StoredNetwork(c, KEY));
            && r.Ok? && NetworkOpen(r.value) && r.value.disk == c.disk && StoredNetwork(r.value, KEY) == StoredNetwork(c, KEY)
            && LastAddress(r.value) == Strip(ResolveReach(identity, adapters, LastAddress(c)).address)
  {
    var identity := CleanIdentity(StoredNetwork(c, KEY));
    var value := if identity != map[] then ResolveReach(identity, adapters, LastAddress(c)).address else "";
    EmptyResolvesToNothing(adapters, LastAddress(c));
    KeepWrites(c, CONTROL_INTERFACE, Str(value));
  }

  lemma KeptMirror(c: Config, adapters: seq<Adapter>)
    requires NetworkOpen(c)
    ensures var r := KeepReachMirror(c, adapters);
            var identity := CleanIdentity(StoredNetwork(c, KEY));
            && r.Ok? && NetworkOpen(r.value) && r.value.disk == c.disk && StoredNetwork(r.value, KEY) == StoredNetwork(c, KEY)
            && LastAddress(r.value) == Strip(ResolveReach(identity, adapters, LastAddress(c)).address)
  {
    var identity := CleanIdentity(StoredNetwork(c, KEY));
    CleanIdentityKept(StoredNetwork(c, KEY));
    if identity == map[] {
      EmptyResolvesToNothing(adapters, LastAddress(c));
      KeepWrites(c, CONTROL_INTERFACE, Str(""));
    } else if IsLiteral(identity) {
      LiteralResolvesToItself(identity, adapters, LastAddress(c));
      KeepWrites(c, CONTROL_INTERFACE, Str(identity["address"]));
    } else {
      RefreshedMirror(c, adapters);
    }
  }

  lemma ReachStepMirror(c: Config, e: ReachEvent)
    requires NetworkOpen(c)
    ensures var r := ReachStep(c, e);
            && r.Ok? && NetworkOpen(r.value) && r.value.disk == c.disk
            && LastAddress(r.value) ==
               Strip(ResolveReach(CleanIdentity(StoredNetwork(r.value, KEY)), e.adapters, LastAddress(c)).address)
  {
    match e
    case Chosen(identity, adapters) =>
      SetKeepsOpen(c, KEY, IdentityJson(identity));
      RefreshedMirror(Set(c, "network", KEY, IdentityJson(identity)).value, adapters);
    case Restarted(adapters) =>
      KeepWrites(c, KEY, ConvertControlInterface(LastAddress(c), adapters));
      KeptMirror(ConvertReach(c, adapters).value, adapters);
  }

  lemma SetKeepsOpen(c: Config, key: string, value: Json)
    requires NetworkOpen(c)
    ensures var r := Set(c, "network", key, value);
            && r.Ok? && NetworkOpen(r.value) && r.value.disk == c.disk
            && forall k :: k != key ==> StoredNetwork(r.value, k) == StoredNetwork(c, k)
  {
  }

  /** Through any choices saved and any starts, the mirror in the file is the one
      `ReachDevices.MirrorProvenance` speaks of. */
  lemma {:induction false} FileMirrorFollows(c: Config, events: seq<ReachEvent>)
    requires NetworkOpen(c)
    ensures var r := ReachRun(c, events);
            && r.Ok? && NetworkOpen(r.value)
            && LastAddress(r.value) == MirrorAfter(LastAddress(c), ReadingsOf(c, events))
            && Provenance(LastAddress(c), ReadingsOf(c, events), LastAddress(r.value))
  {
    MirrorProvenance(LastAddress(c), ReadingsOf(c, events));
    if events == [] {
      TrimIdempotent(TextOf(StoredNetwork(c, CONTROL_INTERFACE)), IsSpace);
    } else {
      var front := events[..|events| - 1];
      FileMirrorFollows(c, front);
      ReachStepMirror(ReachRun(c, front).value, events[|events| - 1]);
      var readings := ReadingsOf(c, events);
      assert readings[..|readings| - 1] == ReadingsOf(c, front);
    }
  }

  /** A start leaves every choice and mirror where the next start on the same
      adapters would leave it. */
  lemma SettleSettles(c: Config, adapters: seq<Adapter>, deployment: string)
    requires NetworkOpen(c)
    ensures var r := Settle(c, adapters, deployment);
            && r.Ok? && NetworkOpen(r.value) && r.value.disk == c.disk
            && ListenSettled(r.value) && ReachSettled(r.value, adapters)
  {
    SettleChoiceSettles(c, adapters, deployment);
    var c1 := SettleChoice(c, adapters, deployment).value;
    var c2 := ConvertReach(c1, adapters).value;
    if !StoredNetwork(c1, KEY).Obj? {
      var identity := ConvertControlInterface(LastAddress(c1), adapters);
      KeepWrites(c1, KEY, identity);
    }
    ReachMirrorSettles(c2, adapters);
  }

  lemma SettledIsFixed(c: Config, adapters: seq<Adapter>, deployment: string)
    requires ListenSettled(c) && ReachSettled(c, adapters)
    ensures Settle(c, adapters, deployment) == Ok(c)
  {
    var identity := CleanIdentity(StoredNetwork(c, KEY));
    CleanIdentityKept(StoredNetwork(c, KEY));
    if IsLiteral(identity) {
      LiteralResolvesToItself(identity, adapters, LastAddress(c));
    }
  }

  // ---------------------------------------------------------------------
  // Save and reload
  // ---------------------------------------------------------------------

  const SETTLED: set<string> := {MODE_KEY, ADAPTER_KEY, MIRROR_KEY, KEY, CONTROL_INTERFACE}

  /** What the shipped defaults say about the settled keys: none is retired, and
      both adapter identities default to nothing that could be merged into one. */
  ghost predicate ShipsSettledKeys(r: Release) {
    && r.Valid() && SectionIsObject(r.defaults, "network")
    && (forall k <- SETTLED :: ("network", k) !in r.removed)
    && forall k <- SETTLED :: k in r.defaults.fields["network"].fields ==>
                                var d := r.defaults.fields["network"].fields[k];
                                d.Obj? ==> d == EMPTY
  }

  const REMOVED_KEYS: KeySet := {("auth", "panel_lock_code"), ("isc", "auth_key"), ("isc", "discovery_enabled")}

  const NETWORK_DEFAULTS: map<string, Json> := map[
    "http_port" := Int(8080),
    MODE_KEY := Str(""),
    ADAPTER_KEY := EMPTY,
    MIRROR_KEY := Str(LOOPBACK),
    KEY := Null,
    CONTROL_INTERFACE := Str(""),
    "trust_forwarded_for" := Bool(false),
    "trusted_proxies" := Other("[]", false),
    "port80_redirect" := Bool(false),
    "backend_module" := Str("")
  ]

  /** The shipped network section is one these results apply to. */
  lemma ShippedNetworkSection(r: Release)
    requires r.Valid() && r.removed == REMOVED_KEYS
    requires "network" in r.defaults.fields && r.defaults.fields["network"] == Obj(NETWORK_DEFAULTS)
    ensures ShipsSettledKeys(r)
  {
    assert "network"[0] != "auth"[0] && "network"[0] != "isc"[0];
  }

  lemma MergeIntoEmpty(v: Json)
    ensures Merge(EMPTY, v) == v
  {
    if v.Obj? {
      assert Merge(EMPTY, v).fields == v.fields;
    }
  }

  lemma SectionKeepsWrite(s: string, d: Json, f: map<string, Json>, removed: KeySet, key: string, value: Json)
    requires d.Obj? && (s, key) !in removed
    requires key in d.fields ==> Merge(d.fields[key], value) == value
    requires DropSection(s, Merge(d, Obj(f)), removed) == Obj(f)
    ensures DropSection(s, Merge(d, Obj(f[key := value])), removed) == Obj(f[key := value])
  {
    var before, after := Merge(d, Obj(f)), Merge(d, Obj(f[key := value]));
    assert DropSection(s, before, removed).fields == f;
    forall k | k in after.fields && (s, k) !in removed && k != key
      ensures k in f && after.fields[k] == f[k]
    {
      assert k in before.fields && after.fields[k] == before.fields[k];
    }
    forall k | k in f ensures k in after.fields && (s, k) !in removed {
      assert k in DropSection(s, before, removed).fields;
    }
    assert DropSection(s, after, removed).fields == f[key := value];
  }

  /** Whatever else the persisted layer holds, a settled key saved in it is there, as it
      was, once it is loaded again. */
  lemma SettledKeyPersists(r: Release, file: Json, key: string)
    requires ShipsSettledKeys(r) && key in SETTLED
    requires SectionIsObject(file, "network") && key in file.fields["network"].fields
    ensures SectionIsObject(r.Persist(file), "network")
    ensures key in r.Persist(file).fields["network"].fields
    ensures r.Persist(file).fields["network"].fields[key] == file.fields["network"].fields[key]
  {
    PersistAt(r, file, "network");
    var d, f := r.defaults.fields["network"], file.fields["network"];
    assert ("network", key) !in r.removed;
    if key in d.fields {
      MergeIntoEmpty(f.fields[key]);
      assert Merge(d.fields[key], f.fields[key]) == f.fields[key];
    }
  }

  /** A value written to a settled key is persisted as it is. */
  lemma PersistKeepsWrite(r: Release, f: Json, key: string, value: Json)
    requires ShipsSettledKeys(r) && key in SETTLED
    requires SectionIsObject(f, "network") && r.Persist(f) == f
    ensures var g := Obj(f.fields["network" := Obj(f.fields["network"].fields[key := value])]);
            r.Persist(g) == g
  {
    var g := Obj(f.fields["network" := Obj(f.fields["network"].fields[key := value])]);
    MergeIntoEmpty(value);
    PersistAt(r, f, "network");
    SectionKeepsWrite("network", r.defaults.fields["network"], f.fields["network"].fields, r.removed, key, value);
    forall s ensures s in r.Persist(g).fields <==> s in g.fields {
      PersistAt(r, f, s);
      PersistAt(r, g, s);
    }
    forall s | s in g.fields ensures r.Persist(g).fields[s] == g.fields[s] {
      PersistAt(r, f, s);
      PersistAt(r, g, s);
    }
    assert r.Persist(g).fields == g.fields;
  }

  predicate Persisted(r: Release, c: Config)
    requires r.Valid()
  {
    c.fileData.Obj? && r.Persist(c.fileData) == c.fileData
  }

  lemma KeepPersisted(r: Release, c: Config, key: string, value: Json)
    requires ShipsSettledKeys(r) && key in SETTLED && NetworkOpen(c) && Persisted(r, c)
    ensures Persisted(r, Keep(c, key, value).value)
  {
    KeepWrites(c, key, value);
    PersistKeepsWrite(r, c.fileData, key, value);
  }

  lemma RefreshListenMirrorPersisted(r: Release, c: Config)
    requires ShipsSettledKeys(r) && NetworkOpen(c) && Persisted(r, c)
    ensures RefreshListenMirror(c).Ok? && Persisted(r, RefreshListenMirror(c).value)
  {
    var m := ModeOf(StoredNetwork(c, MODE_KEY));
    if m.Some? {
      KeepWrites(c, MIRROR_KEY, Str(MirrorFor(m.value)));
      KeepPersisted(r, c, MIRROR_KEY, Str(MirrorFor(m.value)));
    }
  }

  lemma SettleChoicePersisted(r: Release, c: Config, adapters: seq<Adapter>, deployment: string)
    requires ShipsSettledKeys(r) && NetworkOpen(c) && Persisted(r, c)
    ensures SettleChoice(c, adapters, deployment).Ok? && Persisted(r, SettleChoice(c, adapters, deployment).value)
  {
    if ModeOf(StoredNetwork(c, MODE_KEY)).None? {
      var (mode, identity) := DefaultChoice(c, adapters, deployment);
      KeepWrites(c, MODE_KEY, Str(ModeText(mode)));
      KeepPersisted(r, c, MODE_KEY, Str(ModeText(mode)));
      var c1 := Keep(c, MODE_KEY, Str(ModeText(mode))).value;
      KeepWrites(c1, ADAPTER_KEY, identity);
      KeepPersisted(r, c1, ADAPTER_KEY, identity);
      RefreshListenMirrorPersisted(r, Keep(c1, ADAPTER_KEY, identity).value);
    } else {
      RefreshListenMirrorPersisted(r, c);
    }
  }

  lemma ConvertReachPersisted(r: Release, c: Config, adapters: seq<Adapter>)
    requires ShipsSettledKeys(r) && NetworkOpen(c) && Persisted(r, c)
    ensures var c1 := ConvertReach(c, adapters); c1.Ok? && NetworkOpen(c1.value) && Persisted(r, c1.value)
  {
    var converted := ConvertControlInterface(LastAddress(c), adapters);
    KeepWrites(c, KEY, converted);
    KeepPersisted(r, c, KEY, converted);
  }

  lemma KeepReachMirrorPersisted(r: Release, c: Config, adapters: seq<Adapter>)
    requires ShipsSettledKeys(r) && NetworkOpen(c) && Persisted(r, c)
    ensures KeepReachMirror(c, adapters).Ok? && Persisted(r, KeepReachMirror(c, adapters).value)
  {
    var identity := CleanIdentity(StoredNetwork(c, KEY));
    var mirror := if identity == map[] then ""
                  else if IsLiteral(identity) then identity["address"]
                  else ResolveReach(identity, adapters, LastAddress(c)).address;
    KeepWrites(c, CONTROL_INTERFACE, Str(mirror));
    KeepPersisted(r, c, CONTROL_INTERFACE, Str(mirror));
  }

  lemma SettleReachPersisted(r: Release, c: Config, adapters: seq<Adapter>)
    requires ShipsSettledKeys(r) && NetworkOpen(c) && Persisted(r, c)
    ensures SettleReach(c, adapters).Ok? && Persisted(r, SettleReach(c, adapters).value)
  {
    ConvertReachPersisted(r, c, adapters);
    KeepReachMirrorPersisted(r, ConvertReach(c, adapters).value, adapters);
  }

  lemma SettlePersisted(r: Release, c: Config, adapters: seq<Adapter>, deployment: string)
    requires ShipsSettledKeys(r) && NetworkOpen(c) && Persisted(r, c)
    ensures Settle(c, adapters, deployment).Ok? && Persisted(r, Settle(c, adapters, deployment).value)
  {
    SettleChoiceSettles(c, adapters, deployment);
    SettleChoicePersisted(r, c, adapters, deployment);
    SettleReachPersisted(r, SettleChoice(c, adapters, deployment).value, adapters);
  }

  /** A settled state survives being saved and loaded again, whatever the
      environment is then. */
  lemma ReloadStaysSettled(
    build: Build, later: Environment, c: Config, adapters: seq<Adapter>, deployment: string)
    requires build.Valid() && Persisted(build.release, c)
    requires ListenSettled(c) && ReachSettled(c, adapters)
    ensures var r := Load(build, later, Save(c).disk);
            r.Ok? ==> r.value.fileData == c.fileData && Settle(r.value, adapters, deployment) == r
  {
    LoadLayers(build, later, Save(c).disk);
    var r := Load(build, later, Save(c).disk);
    if r.Ok? {
      assert r.value.fileData == c.fileData;
      assert forall k :: StoredNetwork(r.value, k) == StoredNetwork(c, k);
      assert LastAddress(r.value) == LastAddress(c);
      SettledIsFixed(r.value, adapters, deployment);
    }
  }

  /** One start is enough. A second one on the same adapters changes nothing at
      all, in the same process or after a save and a reload under any
      environment, so there is nothing for `save_settled` to write. */
  lemma OneStartIsEnough(
    build: Build, env: Environment, later: Environment, disk: DiskFile,
    adapters: seq<Adapter>, deployment: string)
    requires build.Valid() && ShipsSettledKeys(build.release)
    requires Load(build, env, disk).Ok? && NetworkOpen(Load(build, env, disk).value)
    ensures var r := Settle(Load(build, env, disk).value, adapters, deployment);
            && r.Ok? && r.value.disk == disk
            && Settle(r.value, adapters, deployment) == r
            && var reloaded := Load(build, later, Save(r.value).disk);
               reloaded.Ok? ==>
                 reloaded.value.fileData == r.value.fileData && Settle(reloaded.value, adapters, deployment) == reloaded
  {
    var c := Load(build, env, disk).value;
    LoadLayers(build, env, disk);
    PersistFixpoint(build.release, RawOf(disk));
    SettleSettles(c, adapters, deployment);
    SettlePersisted(build.release, c, adapters, deployment);
    var c1 := Settle(c, adapters, deployment).value;
    SettledIsFixed(c1, adapters, deployment);
    ReloadStaysSettled(build, later, c1, adapters, deployment);
  }

  /** A start fails exactly when system.json holds something that is not an
      object where the network section belongs. */
  lemma StartNeedsNetworkSection(
    build: Build, env: Environment, disk: DiskFile, adapters: seq<Adapter>, deployment: string)
    requires build.Valid() && SectionIsObject(build.release.defaults, "network")
    requires Load(build, env, disk).Ok?
    ensures Settle(Load(build, env, disk).value, adapters, deployment).Ok? <==> SectionOpen(RawOf(disk), "network")
  {
    var c := Load(build, env, disk).value;
    LoadLayers(build, env, disk);
    PersistAt(build.release, RawOf(disk), "network");
    if SectionOpen(RawOf(disk), "network") {
      assert SectionIsObject(c.fileData, "network");
      SettleSettles(c, adapters, deployment);
    } else {
      assert !c.fileData.fields["network"].Obj?;
    }
  }
}
