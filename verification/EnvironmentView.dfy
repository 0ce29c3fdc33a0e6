/** What a set variable makes the server run with: the effective view of a loaded
    configuration, read off the text of the variable. */
module EnvironmentView {
  import opened Text
  import opened ConfigTree
  import opened SystemConfig
  import opened Listen
  import opened ReachDevices
  import opened Settling

  // ---------------------------------------------------------------------
  // The table's rows
  // ---------------------------------------------------------------------

  /** No two rows write one key: the table is keyed by section and key. */
  ghost predicate DistinctRows(table: seq<Override>) {
    forall i, j :: 0 <= i < j < |table| ==> (table[i].section, table[i].key) != (table[j].section, table[j].key)
  }

  function At(j: Json, s: string, k: string): Option<Json> {
    if j.Obj? && s in j.fields && j.fields[s].Obj? && k in j.fields[s].fields then Some(j.fields[s].fields[k]) else None
  }

  /** The text names an item between its commas. */
  predicate NamesAnItem(raw: string) {
    exists i :: 0 <= i < |raw| && raw[i] != ',' && !IsSpace(raw[i])
  }

  /** What a row's variable says in its own kind; none for a whole number that is not
      one. */
  ghost predicate Says(kind: EnvType, raw: string, v: Option<Json>) {
    match kind
    case AsBool => v == Some(Bool(Lower(raw) == "true" || Lower(raw) == "1" || Lower(raw) == "yes"))
    case AsInt => if IsNumeral(Strip(raw)) then v == Some(Int(NumeralValue(Strip(raw)))) else v == None
    case AsList => v == Some(Other(raw, NamesAnItem(raw)))
    case AsText => v == Some(Str(raw))
  }

  lemma {:induction false} ItemsNamed(raw: string)
    ensures NamesAnItem(raw) <==> exists item <- SplitCommas(raw) :: !AllSpace(item)
  {
    var items := SplitCommas(raw);
    if raw == "" {
      assert items == [""];
    } else {
      var tail, rest := raw[1..], SplitCommas(raw[1..]);
      ItemsNamed(tail);
      assert NamesAnItem(raw) <==> (raw[0] != ',' && !IsSpace(raw[0])) || NamesAnItem(tail) by {
        if i :| 0 <= i < |raw| && raw[i] != ',' && !IsSpace(raw[i]) && i > 0 {
          assert tail[i - 1] == raw[i];
        }
        if i :| 0 <= i < |tail| && tail[i] != ',' && !IsSpace(tail[i]) {
          assert raw[i + 1] == tail[i];
        }
      }
      if raw[0] == ',' {
        assert items == [""] + rest && forall item <- rest :: item in items;
      } else {
        var first := [raw[0]] + rest[0];
        assert items == [first] + rest[1..] && first in items;
        assert AllSpace(first) <==> IsSpace(raw[0]) && AllSpace(rest[0]) by {
          assert first[0] == raw[0] && forall i :: 0 <= i < |rest[0]| ==> first[i + 1] == rest[0][i];
        }
        assert forall item <- rest :: item == rest[0] || item in rest[1..];
        assert forall item <- rest[1..] :: item in rest && item in items;
      }
    }
  }

  lemma ParsedSays(raw: string, kind: EnvType)
    ensures Says(kind, raw, ParseEnvValue(raw, kind))
  {
    match kind
    case AsInt => ParseIntExactly(raw);
    case AsList =>
      ItemsNamed(raw);
      forall item <- SplitCommas(raw) ensures Strip(item) != "" <==> !AllSpace(item) {
        StripEmpty(item);
      }
    case _ =>
  }

  /** A key no row writes here is as it was. */
  lemma {:induction false} Untouched(table: seq<Override>, env: Environment, l: Layer, s: string, k: string)
    requires ApplyOverrides(table, env, l).Ok?
    requires forall o <- table :: (o.section, o.key) == (s, k) ==>
               o.variable !in env || ParseEnvValue(env[o.variable], o.kind).None?
    ensures var r := ApplyOverrides(table, env, l).value;
            At(r.data, s, k) == At(l.data, s, k) && ((s, k) in r.held <==> (s, k) in l.held)
  {
    if table != [] {
      var front, o := table[..|table| - 1], table[|table| - 1];
      assert o in table && forall x <- front :: x in table;
      Untouched(front, env, l, s, k);
    }
  }

  lemma {:induction false} RowReads(table: seq<Override>, env: Environment, l: Layer, i: nat)
    requires i < |table| && DistinctRows(table) && ApplyOverrides(table, env, l).Ok?
    requires table[i].variable in env && ParseEnvValue(env[table[i].variable], table[i].kind).Some?
    ensures var o, r := table[i], ApplyOverrides(table, env, l).value;
            && At(r.data, o.section, o.key) == ParseEnvValue(env[o.variable], o.kind)
            && (o.section, o.key) in r.held && r.held[(o.section, o.key)] == o.variable
  {
    var front, last := table[..|table| - 1], table[|table| - 1];
    if i < |table| - 1 {
      assert front[i] == table[i] && (last.section, last.key) != (table[i].section, table[i].key);
      RowReads(front, env, l, i);
    }
  }

  /** The three keys the bind and control-interface variables write after the table. */
  predicate ChoiceKey(s: string, k: string) {
    s == "network" && (k == MODE_KEY || k == ADAPTER_KEY || k == KEY)
  }

  lemma BindLeaves(env: Environment, l: Layer, s: string, k: string)
    requires !ChoiceKey(s, k)
    ensures var r := ApplyBind(env, l);
            r.Ok? ==> At(r.value.data, s, k) == At(l.data, s, k)
                      && ((s, k) in r.value.held <==> (s, k) in l.held)
                      && ((s, k) in l.held ==> r.value.held[(s, k)] == l.held[(s, k)])
  {
  }

  lemma ControlLeaves(env: Environment, l: Layer, s: string, k: string)
    requires (s, k) != ("network", KEY)
    ensures var r := ApplyControlInterface(env, l);
            r.Ok? ==> At(r.value.data, s, k) == At(l.data, s, k)
                      && ((s, k) in r.value.held <==> (s, k) in l.held)
                      && ((s, k) in l.held ==> r.value.held[(s, k)] == l.held[(s, k)])
  {
  }

  /** A loaded configuration reads a row's key as its variable says: a flag true for
      three words and no other, the whole number written, the text as it is. Where the
      variable is not set, or is no number where one belongs, it reads what the file and
      the defaults say; the key is held exactly where the variable is read. */
  lemma TableRowReads(build: Build, env: Environment, disk: DiskFile, i: nat, default: Json)
    requires build.Valid() && DistinctRows(build.overrides) && i < |build.overrides|
    requires !ChoiceKey(build.overrides[i].section, build.overrides[i].key)
    requires Load(build, env, disk).Ok?
    requires SectionIsObject(build.release.Persist(RawOf(disk)), build.overrides[i].section)
    ensures var o, c := build.overrides[i], Load(build, env, disk).value;
            var seen := Get(c, o.section, o.key, default);
            if o.variable !in env || (o.kind == AsInt && !IsNumeral(Strip(env[o.variable]))) then
              && (o.section, o.key) !in c.held
              && seen == Ok(Stored(c, o.section, o.key, default))
            else
              && seen.Ok? && Says(o.kind, env[o.variable], Some(seen.value))
              && (o.section, o.key) in c.held && c.held[(o.section, o.key)] == o.variable
  {
    var o, c := build.overrides[i], Load(build, env, disk).value;
    var l0 := Layer(build.release.Persist(RawOf(disk)), map[]);
    var l1 := ApplyOverrides(build.overrides, env, l0).value;
    var l2 := ApplyBind(env, l1).value;
    LoadLayers(build, env, disk);
    BindLeaves(env, l1, o.section, o.key);
    ControlLeaves(env, l2, o.section, o.key);
    if o.variable in env {
      ParsedSays(env[o.variable], o.kind);
    }
    if o.variable !in env || (o.kind == AsInt && !IsNumeral(Strip(env[o.variable]))) {
      forall x <- build.overrides | (x.section, x.key) == (o.section, o.key)
        ensures x.variable !in env || ParseEnvValue(env[x.variable], x.kind).None?
      {
        OneRow(build.overrides, i, x);
      }
      Untouched(build.overrides, env, l0, o.section, o.key);
      UnheldKeysRead(c, env, o.section, o.key, default);
    } else {
      RowReads(build.overrides, env, l0, i);
      assert At(c.data, o.section, o.key).Some?;
    }
  }

  lemma OneRow(table: seq<Override>, i: nat, x: Override)
    requires DistinctRows(table) && i < |table| && x in table && (x.section, x.key) == (table[i].section, table[i].key)
    ensures x == table[i]
  {
    var j :| 0 <= j < |table| && table[j] == x;
  }

  ghost predicate InSections(table: seq<Override>, sections: set<string>) {
    forall o <- table :: o.section in sections
  }

  ghost predicate OwnRows(table: seq<Override>, sections: set<string>) {
    DistinctRows(table) && InSections(table, sections) && forall o <- table :: !ChoiceKey(o.section, o.key)
  }

  lemma RowsJoin(a: seq<Override>, b: seq<Override>, s: set<string>, t: set<string>)
    requires OwnRows(a, s) && OwnRows(b, t) && s !! t
    ensures OwnRows(a + b, s + t)
  {
    var both := a + b;
    forall i, j | 0 <= i < j < |both| ensures (both[i].section, both[i].key) != (both[j].section, both[j].key) {
      if i < |a| <= j {
        assert both[i] in a && both[j] in b;
      }
    }
  }

  lemma NetworkRows()
    ensures OwnRows(NETWORK_OVERRIDES, {"network"})
  {
    var t := NETWORK_OVERRIDES;
    assert t[0].key[0] == 'h' && t[1].key[0] == 'b' && t[2].key[0] == 'c' && t[5].key[0] == 'p';
    assert t[3].key[0] == t[4].key[0] == 't' && t[3].key[5] == '_' && t[4].key[5] == 'e';
    assert MODE_KEY[0] == ADAPTER_KEY[0] == 'a' && KEY[0] == 'r';
  }

  lemma AuthRows()
    ensures OwnRows(AUTH_OVERRIDES, {"auth"})
  {
    var t := AUTH_OVERRIDES;
    assert t[0].key[11] == 'p' && t[2].key[11] == 'u';
    assert t[0].key[0] == t[2].key[0] == 'p' && t[1].key[1] == 'p' && t[3].key[1] == 'l';
    assert t[1].key[0] == t[3].key[0] == 'a';
    assert "auth"[0] != "network"[0];
  }

  lemma OtherRows()
    ensures OwnRows(LOGGING_OVERRIDES, {"logging"}) && OwnRows(UPDATES_OVERRIDES, {"updates"})
    ensures OwnRows(DISCOVERY_OVERRIDES, {"discovery"}) && OwnRows(PANELS_OVERRIDES, {"panels"})
    ensures OwnRows(SIMULATION_OVERRIDES, {"simulation"})
  {
    assert "logging"[0] != "network"[0] && "updates"[0] != "network"[0] && "discovery"[0] != "network"[0];
    assert "panels"[0] != "network"[0] && "simulation"[0] != "network"[0];
    assert UPDATES_OVERRIDES[0].key[1] == 'h' && UPDATES_OVERRIDES[1].key[2] == 'a';
    assert SIMULATION_OVERRIDES[0].key[0] == 'u' && SIMULATION_OVERRIDES[1].key[0] == 'd';
  }

  lemma CloudRows()
    ensures OwnRows(CLOUD_OVERRIDES, {"cloud"})
  {
    var t := CLOUD_OVERRIDES;
    assert "cloud"[0] != "network"[0];
    assert t[0].key[1] == t[1].key[1] == 'n' && t[0].key[2] == 'a' && t[1].key[2] == 'd';
    assert t[2].key[7] == 'k' && t[3].key[7] == 'i' && t[2].key[0] == t[3].key[0] == 's';
  }

  lemma TlsRows()
    ensures OwnRows(TLS_OVERRIDES, {"tls"})
  {
    var t := TLS_OVERRIDES;
    assert "tls"[0] != "network"[0];
    assert t[0].key[0] == 'e' && t[1].key[0] == 'p' && t[2].key[0] == 'a' && t[4].key[0] == 'k' && t[5].key[0] == 'r';
    assert t[3].key[0] == t[6].key[0] == 'c' && t[3].key[1] == 'e' && t[6].key[1] == 'l';
  }

  const FIRST_SECTIONS: set<string> := {"auth", "network", "logging"}
  const SECOND_SECTIONS: set<string> := {"updates", "cloud", "discovery"}
  const THIRD_SECTIONS: set<string> := {"panels", "simulation", "tls"}

  lemma SectionsApart()
    ensures FIRST_SECTIONS !! SECOND_SECTIONS && (FIRST_SECTIONS + SECOND_SECTIONS) !! THIRD_SECTIONS
  {
    assert forall s <- FIRST_SECTIONS :: s[0] == 'a' || s[0] == 'n' || s[0] == 'l';
    assert forall s <- SECOND_SECTIONS :: s[0] == 'u' || s[0] == 'c' || s[0] == 'd';
    assert forall s <- THIRD_SECTIONS :: s[0] == 'p' || s[0] == 's' || s[0] == 't';
  }

  lemma ThreeJoin(a: seq<Override>, b: seq<Override>, c: seq<Override>, s: string, t: string, u: string)
    requires OwnRows(a, {s}) && OwnRows(b, {t}) && OwnRows(c, {u}) && s != t && s != u && t != u
    ensures OwnRows(a + b + c, {s, t, u})
  {
    RowsJoin(a, b, {s}, {t});
    RowsJoin(a + b, c, {s} + {t}, {u});
    assert {s} + {t} + {u} == {s, t, u};
  }

  lemma FirstRows()
    ensures OwnRows(FIRST_OVERRIDES, FIRST_SECTIONS)
  {
    AuthRows();
    NetworkRows();
    OtherRows();
    assert "auth"[0] != "network"[0] && "auth"[0] != "logging"[0] && "network"[0] != "logging"[0];
    ThreeJoin(AUTH_OVERRIDES, NETWORK_OVERRIDES, LOGGING_OVERRIDES, "auth", "network", "logging");
  }

  lemma SecondRows()
    ensures OwnRows(SECOND_OVERRIDES, SECOND_SECTIONS)
  {
    OtherRows();
    CloudRows();
    assert "updates"[0] != "cloud"[0] && "updates"[0] != "discovery"[0] && "cloud"[0] != "discovery"[0];
    ThreeJoin(UPDATES_OVERRIDES, CLOUD_OVERRIDES, DISCOVERY_OVERRIDES, "updates", "cloud", "discovery");
  }

  lemma ThirdRows()
    ensures OwnRows(THIRD_OVERRIDES, THIRD_SECTIONS)
  {
    OtherRows();
    TlsRows();
    assert "panels"[0] != "simulation"[0] && "panels"[0] != "tls"[0] && "simulation"[0] != "tls"[0];
    ThreeJoin(PANELS_OVERRIDES, SIMULATION_OVERRIDES, TLS_OVERRIDES, "panels", "simulation", "tls");
  }

  /** The shipped table is one `TableRowReads` applies to, row by row. */
  lemma ShippedRows()
    ensures DistinctRows(ENV_OVERRIDES) && forall o <- ENV_OVERRIDES :: !ChoiceKey(o.section, o.key)
  {
    FirstRows();
    SecondRows();
    ThirdRows();
    SectionsApart();
    RowsJoin(FIRST_OVERRIDES, SECOND_OVERRIDES, FIRST_SECTIONS, SECOND_SECTIONS);
    RowsJoin(FIRST_OVERRIDES + SECOND_OVERRIDES, THIRD_OVERRIDES, FIRST_SECTIONS + SECOND_SECTIONS, THIRD_SECTIONS);
  }

  // ---------------------------------------------------------------------
  // Accept connections from, held by its variable
  // ---------------------------------------------------------------------

  predicate HoldsChoice(c: Config) {
    && ("network", MODE_KEY) in c.held && c.held[("network", MODE_KEY)] != ""
    && ("network", ADAPTER_KEY) in c.held && c.held[("network", ADAPTER_KEY)] != ""
  }

  lemma KeepLeavesHeld(c: Config, key: string, value: Json)
    requires NetworkOpen(c) && HoldsChoice(c)
    ensures var r := Keep(c, key, value);
            && r.Ok? && NetworkOpen(r.value) && HoldsChoice(r.value)
            && FromConfig(r.value) == FromConfig(c)
  {
    KeepWrites(c, key, value);
  }

  lemma SettleChoiceLeavesHeld(c: Config, adapters: seq<Adapter>, deployment: string)
    requires NetworkOpen(c) && HoldsChoice(c)
    ensures var r := SettleChoice(c, adapters, deployment);
            r.Ok? && NetworkOpen(r.value) && HoldsChoice(r.value) && FromConfig(r.value) == FromConfig(c)
  {
    var c2 := c;
    if ModeOf(StoredNetwork(c, MODE_KEY)).None? {
      var (mode, identity) := DefaultChoice(c, adapters, deployment);
      KeepLeavesHeld(c, MODE_KEY, Str(ModeText(mode)));
      var c1 := Keep(c, MODE_KEY, Str(ModeText(mode))).value;
      KeepLeavesHeld(c1, ADAPTER_KEY, identity);
      c2 := Keep(c1, ADAPTER_KEY, identity).value;
    }
    var m := ModeOf(StoredNetwork(c2, MODE_KEY));
    if m.Some? {
      KeepLeavesHeld(c2, MIRROR_KEY, Str(MirrorFor(m.value)));
    }
  }

  /** A start settles the file beneath a held choice and runs the held one. */
  lemma SettleLeavesHeld(c: Config, adapters: seq<Adapter>, deployment: string)
    requires NetworkOpen(c) && HoldsChoice(c)
    ensures var r := Settle(c, adapters, deployment); r.Ok? && FromConfig(r.value) == FromConfig(c)
  {
    SettleChoiceLeavesHeld(c, adapters, deployment);
    var c1 := SettleChoice(c, adapters, deployment).value;
    KeepLeavesHeld(c1, KEY, ConvertControlInterface(LastAddress(c1), adapters));
    var c2 := ConvertReach(c1, adapters).value;
    var identity := CleanIdentity(StoredNetwork(c2, KEY));
    var mirror := if identity == map[] then ""
                  else if IsLiteral(identity) then identity["address"]
                  else ResolveReach(identity, adapters, LastAddress(c2)).address;
    KeepLeavesHeld(c2, CONTROL_INTERFACE, Str(mirror));
  }

  predicate AnySpelling(text: string) {
    text == "" || text == "0.0.0.0" || text == "::" || text == "[::]" || text == "*"
  }

  predicate LoopbackSpelling(text: string) {
    var t := Lower(text);
    t == "127.0.0.1" || t == "::1" || t == "[::1]" || t == "localhost"
  }

  /** The choice a bind address stands for, in a variable's text. */
  ghost predicate ChoiceOfText(text: string, mode: Mode, adapter: AdapterIdentity) {
    if AnySpelling(text) then mode == Any
    else if LoopbackSpelling(text) then mode == ThisComputer
    else
      var address := Trim(text, IsBracket);
      mode == OneAdapter && adapter == if address == "" then map[] else map["address" := address]
  }

  lemma ParsedBind(raw: string)
    ensures var (mode, adapter) := ParseBindVariable(raw);
            exists m :: mode == ModeText(m) && ChoiceOfText(Strip(raw), m, CleanIdentity(adapter))
  {
    var (mode, adapter) := ParseBindVariable(raw);
    AddressIdentity(Trim(Strip(raw), IsBracket));
    assert ModeText(Any) == "any" && ModeText(ThisComputer) == "this_computer" && ModeText(OneAdapter) == "adapter";
    if Strip(raw) in ANY_SPELLINGS {
      assert ChoiceOfText(Strip(raw), Any, CleanIdentity(adapter));
    } else if Lower(Strip(raw)) in LOOPBACK_SPELLINGS {
      assert ChoiceOfText(Strip(raw), ThisComputer, CleanIdentity(adapter));
    } else {
      assert ChoiceOfText(Strip(raw), OneAdapter, CleanIdentity(adapter));
    }
  }

  lemma ChoiceReads(c: Config, m: Mode, adapter: Json)
    requires At(c.data, "network", MODE_KEY) == Some(Str(ModeText(m))) && At(c.data, "network", ADAPTER_KEY) == Some(adapter)
    requires ("network", MODE_KEY) in c.held
    ensures FromConfig(c) == Ok(ListenChoice(m, if m == OneAdapter then CleanIdentity(adapter) else map[],
                                             Some(c.held[("network", MODE_KEY)])))
  {
    ModeTexts(m);
  }

  /** The choice a loaded configuration has where the bind variable is set. */
  lemma BindVariableReads(build: Build, env: Environment, disk: DiskFile)
    requires build.Valid() && Load(build, env, disk).Ok? && BIND_VARIABLE in env
    ensures var c := Load(build, env, disk).value;
            && HoldsChoice(c) && FromConfig(c).Ok?
            && FromConfig(c).value.heldBy == Some("OPENAVC_BIND")
            && ChoiceOfText(Strip(env[BIND_VARIABLE]), FromConfig(c).value.mode, FromConfig(c).value.adapter)
  {
    var c := Load(build, env, disk).value;
    var l0 := Layer(build.release.Persist(RawOf(disk)), map[]);
    var l1 := ApplyOverrides(build.overrides, env, l0).value;
    var l2 := ApplyBind(env, l1).value;
    ControlLeaves(env, l2, "network", MODE_KEY);
    ControlLeaves(env, l2, "network", ADAPTER_KEY);
    BindWrites(env, l1);
    ParsedBind(env[BIND_VARIABLE]);
    var (mode, adapter) := ParseBindVariable(env[BIND_VARIABLE]);
    var m :| mode == ModeText(m) && ChoiceOfText(Strip(env[BIND_VARIABLE]), m, CleanIdentity(adapter));
    ChoiceReads(c, m, adapter);
  }

  lemma LoadedIsOpen(build: Build, env: Environment, disk: DiskFile)
    requires build.Valid() && Load(build, env, disk).Ok? && SectionOpen(RawOf(disk), "network")
    requires SectionIsObject(build.release.defaults, "network")
    ensures NetworkOpen(Load(build, env, disk).value)
  {
    LoadLayers(build, env, disk);
    PersistAt(build.release, RawOf(disk), "network");
  }

  lemma BindWrites(env: Environment, l: Layer)
    requires BIND_VARIABLE in env && ApplyBind(env, l).Ok?
    ensures var (mode, adapter), r := ParseBindVariable(env[BIND_VARIABLE]), ApplyBind(env, l).value;
            && At(r.data, "network", MODE_KEY) == Some(Str(mode))
            && At(r.data, "network", ADAPTER_KEY) == Some(adapter)
            && ("network", MODE_KEY) in r.held && r.held[("network", MODE_KEY)] == "OPENAVC_BIND"
            && ("network", ADAPTER_KEY) in r.held && r.held[("network", ADAPTER_KEY)] == "OPENAVC_BIND"
  {
  }

  lemma AddressIdentity(address: string)
    ensures CleanIdentity(IdentityOfAddress(address)) == if address == "" then map[] else map["address" := address]
  {
    var j := IdentityOfAddress(address);
    assert j.fields["address"] == Str(address);
  }

  /** What a start with the bind variable set listens on, whatever the file says: every
      network, this computer only, or the one address and only while the adapter that
      lists it is connected. */
  lemma BindVariableServes(
    build: Build, env: Environment, disk: DiskFile, adapters: seq<Adapter>, deployment: string)
    requires build.Valid() && Load(build, env, disk).Ok? && BIND_VARIABLE in env
    requires SectionIsObject(build.release.defaults, "network") && SectionOpen(RawOf(disk), "network")
    ensures var s, text := Settle(Load(build, env, disk).value, adapters, deployment), Strip(env[BIND_VARIABLE]);
            && s.Ok? && FromConfig(s.value).Ok?
            && var hosts := Resolve(FromConfig(s.value).value, adapters).Hosts();
               if AnySpelling(text) then hosts == ["0.0.0.0"]
               else if LoopbackSpelling(text) then hosts == ["127.0.0.1"]
               else
                 var address := Trim(text, IsBracket);
                 hosts == (if address != "" && ConnectedHolder(address, adapters) then [address] else []) + ["127.0.0.1"]
  {
    var c := Load(build, env, disk).value;
    LoadedIsOpen(build, env, disk);
    BindVariableReads(build, env, disk);
    SettleLeavesHeld(c, adapters, deployment);
    var choice := FromConfig(c).value;
    if choice.mode == OneAdapter {
      LiteralHosts(choice, Trim(Strip(env[BIND_VARIABLE]), IsBracket), adapters);
    }
  }

  /** The first adapter that lists this address is connected. */
  predicate ConnectedHolder(address: string, adapters: seq<Adapter>) {
    exists i :: 0 <= i < |adapters| && address in adapters[i].Ips() && adapters[i].link
                && forall j :: 0 <= j < i ==> address !in adapters[j].Ips()
  }

  lemma HolderIsFirst(address: string, adapters: seq<Adapter>)
    ensures var i := FirstHolding(address, adapters);
            ConnectedHolder(address, adapters) <==> i.Some? && adapters[i.value].link
  {
    var i := FirstHolding(address, adapters);
    if k :| 0 <= k < |adapters| && address in adapters[k].Ips() && adapters[k].link
            && forall j :: 0 <= j < k ==> address !in adapters[j].Ips()
    {
      assert adapters[k] in adapters;
      assert i.Some? && i.value == k;
    }
    if i.Some? && adapters[i.value].link {
      assert address in adapters[i.value].Ips();
      assert forall j :: 0 <= j < i.value ==> address !in adapters[j].Ips();
    }
  }

  lemma LiteralHosts(choice: ListenChoice, address: string, adapters: seq<Adapter>)
    requires choice.mode == OneAdapter
    requires choice.adapter == if address == "" then map[] else map["address" := address]
    ensures Resolve(choice, adapters).Hosts() ==
            (if address != "" && ConnectedHolder(address, adapters) then [address] else []) + ["127.0.0.1"]
  {
    var i := FirstHolding(address, adapters);
    if address == "" {
      assert choice.adapter == map[] && Resolve(choice, adapters).NetworkAddresses() == [];
    } else {
      assert "address" in map["address" := address] && IsLiteral(choice.adapter);
      HolderIsFirst(address, adapters);
      FreshIsNow(choice, adapters);
    }
  }

  // ---------------------------------------------------------------------
  // Reach devices through, held by its variable
  // ---------------------------------------------------------------------

  /** With the control-interface variable set, device traffic is bound to the address
      it names, brackets and space aside, or to none where it names none. */
  lemma ControlInterfaceVariableReads(
    build: Build, env: Environment, disk: DiskFile, adapters: seq<Adapter>, last: string)
    requires build.Valid() && Load(build, env, disk).Ok? && CONTROL_INTERFACE_VARIABLE in env
    ensures var c, address := Load(build, env, disk).value, Trim(Strip(env[CONTROL_INTERFACE_VARIABLE]), IsBracket);
            var seen := Get(c, "network", KEY, Null);
            && seen.Ok? && ("network", KEY) in c.held && c.held[("network", KEY)] == "OPENAVC_CONTROL_INTERFACE"
            && CleanIdentity(seen.value) == (if address == "" then map[] else map["address" := address])
            && ResolveReach(CleanIdentity(seen.value), adapters, last).address == address
  {
    var address := Trim(Strip(env[CONTROL_INTERFACE_VARIABLE]), IsBracket);
    AddressIdentity(address);
    if address != "" {
      var identity: AdapterIdentity := map["address" := address];
      assert Cleaned(identity) == identity && "address" in identity && IsLiteral(identity);
    }
  }
}
