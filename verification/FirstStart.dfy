/** What the first start settles on a system that has no stored choice, and what it then
    listens on: the address an earlier release bound, read as a choice. */
module FirstStart {
  import opened Text
  import opened ConfigTree
  import opened SystemConfig
  import opened Listen
  import opened ReachDevices
  import opened Settling
  import opened EnvironmentView
  import opened SafetyNet

  predicate NoChoice(c: Config) {
    var m := StoredNetwork(c, "accept_connections_from");
    m != Str("any") && m != Str("adapter") && m != Str("this_computer")
  }

  predicate Installed(deployment: string) {
    || deployment == "windows_installer" || deployment == "linux_package" || deployment == "macos_app"
    || deployment == "docker" || deployment == "android_appliance"
  }

  /** The first adapter that lists this address. */
  predicate FirstLists(address: string, adapters: seq<Adapter>, i: nat) {
    && i < |adapters| && address in adapters[i].Ips()
    && forall j :: 0 <= j < i ==> address !in adapters[j].Ips()
  }

  predicate NobodyLists(address: string, adapters: seq<Adapter>) {
    forall a <- adapters :: address !in a.Ips()
  }

  /** The text of the stored address, for a system that has one. */
  function AddressText(c: Config): string {
    Strip(Printed(StoredNetwork(c, "bind_address")))
  }

  /** Nothing, or this computer's own address, was stored. */
  predicate WasLoopback(c: Config) {
    StoredNetwork(c, "bind_address").Null? || (!AnySpelling(AddressText(c)) && LoopbackSpelling(AddressText(c)))
  }

  predicate WasAny(c: Config) {
    !StoredNetwork(c, "bind_address").Null? && AnySpelling(AddressText(c))
  }

  function OldAddress(c: Config): string {
    Trim(AddressText(c), IsBracket)
  }

  // ---------------------------------------------------------------------
  // What is settled
  // ---------------------------------------------------------------------

  lemma FirstIs(address: string, adapters: seq<Adapter>)
    ensures match FirstHolding(address, adapters)
            case Some(i) => FirstLists(address, adapters, i)
            case None => NobodyLists(address, adapters)
  {
  }

  lemma OneFirst(address: string, adapters: seq<Adapter>, i: nat)
    requires FirstLists(address, adapters, i)
    ensures FirstHolding(address, adapters) == Some(i)
  {
    FirstIs(address, adapters);
    assert adapters[i] in adapters;
  }

  /** The choice that is settled, read off the address. */
  ghost predicate Converted(c: Config, adapters: seq<Adapter>, deployment: string, mode: Json, adapter: Json) {
    if Installed(deployment) || WasAny(c) then mode == Str("any") && adapter == Obj(map[])
    else if WasLoopback(c) then mode == Str("this_computer") && adapter == Obj(map[])
    else
      && mode == Str("adapter")
      && (forall i: nat :: FirstLists(OldAddress(c), adapters, i) ==>
            adapter == Obj(map["name" := Str(adapters[i].name), "mac" := Str(adapters[i].mac)]))
      && (NobodyLists(OldAddress(c), adapters) ==> adapter == Obj(map["address" := Str(OldAddress(c))]))
  }

  lemma ConvertedToAdapter(address: string, adapters: seq<Adapter>)
    ensures match FirstHolding(address, adapters)
            case Some(i) => forall j: nat :: FirstLists(address, adapters, j) ==> j == i
            case None => forall j: nat :: !FirstLists(address, adapters, j)
    ensures NobodyLists(address, adapters) <==> FirstHolding(address, adapters).None?
  {
    FirstIs(address, adapters);
    forall j: nat | FirstLists(address, adapters, j)
      ensures FirstHolding(address, adapters) == Some(j) && !NobodyLists(address, adapters)
    {
      OneFirst(address, adapters, j);
    }
  }

  lemma AddressConverts(c: Config, adapters: seq<Adapter>, deployment: string)
    requires !Installed(deployment)
    ensures var (m, identity) := ConvertBindAddress(StoredNetwork(c, MIRROR_KEY), adapters);
            Converted(c, adapters, deployment, Str(ModeText(m)), identity)
  {
    ConvertedToAdapter(OldAddress(c), adapters);
  }

  lemma DefaultConverts(c: Config, adapters: seq<Adapter>, deployment: string)
    ensures var (m, identity) := DefaultChoice(c, adapters, deployment);
            Converted(c, adapters, deployment, Str(ModeText(m)), identity)
  {
    if !Installed(deployment) {
      AddressConverts(c, adapters, deployment);
    }
  }

  /** The configuration once the default is kept, before the mirrors. */
  function Defaulted(c: Config, adapters: seq<Adapter>, deployment: string): Outcome<Config> {
    var (mode, identity) := DefaultChoice(c, adapters, deployment);
    var c1 :- Keep(c, MODE_KEY, Str(ModeText(mode)));
    Keep(c1, ADAPTER_KEY, identity)
  }

  lemma SettleIsDefaulted(c: Config, adapters: seq<Adapter>, deployment: string)
    requires NetworkOpen(c) && NoChoice(c)
    ensures var d := Defaulted(c, adapters, deployment);
            && d.Ok? && NetworkOpen(d.value) && ModeOf(StoredNetwork(d.value, MODE_KEY)).Some?
            && Settle(c, adapters, deployment) == Settle(d.value, adapters, deployment)
            && StoredNetwork(d.value, MODE_KEY) == Str(ModeText(DefaultChoice(c, adapters, deployment).0))
            && StoredNetwork(d.value, ADAPTER_KEY) == DefaultChoice(c, adapters, deployment).1
  {
    var (mode, identity) := DefaultChoice(c, adapters, deployment);
    KeepWrites(c, MODE_KEY, Str(ModeText(mode)));
    var c1 := Keep(c, MODE_KEY, Str(ModeText(mode))).value;
    KeepWrites(c1, ADAPTER_KEY, identity);
    ModeTexts(mode);
  }

  lemma SettleKeepsStored(c: Config, adapters: seq<Adapter>, deployment: string)
    requires NetworkOpen(c) && ModeOf(StoredNetwork(c, MODE_KEY)).Some?
    ensures var r := Settle(c, adapters, deployment);
            && r.Ok?
            && StoredNetwork(r.value, MODE_KEY) == StoredNetwork(c, MODE_KEY)
            && StoredNetwork(r.value, ADAPTER_KEY) == StoredNetwork(c, ADAPTER_KEY)
  {
    SettleChoiceSettles(c, adapters, deployment);
    var c1 := SettleChoice(c, adapters, deployment).value;
    if !StoredNetwork(c1, KEY).Obj? {
      KeepWrites(c1, KEY, ConvertControlInterface(LastAddress(c1), adapters));
    }
    ReachMirrorSettles(ConvertReach(c1, adapters).value, adapters);
  }

  /** The first start on a system without a choice stores: every network on an installed
      system or where the old address meant every network; this computer only where
      there was none or a loopback one; and otherwise one adapter, the first that lists
      the old address, or the address itself where none does. */
  lemma FirstStartSettles(c: Config, adapters: seq<Adapter>, deployment: string)
    requires NetworkOpen(c) && NoChoice(c)
    ensures var s := Settle(c, adapters, deployment);
            s.Ok? && Converted(c, adapters, deployment, StoredNetwork(s.value, "accept_connections_from"),
                               StoredNetwork(s.value, "accept_connections_adapter"))
  {
    DefaultConverts(c, adapters, deployment);
    SettleIsDefaulted(c, adapters, deployment);
    SettleKeepsStored(Defaulted(c, adapters, deployment).value, adapters, deployment);
  }

  // ---------------------------------------------------------------------
  // What it listens on
  // ---------------------------------------------------------------------

  /** An adapter's own identity matches it again: no adapter before it has its MAC, or,
      where it has none, no adapter before it has its name. */
  predicate FindsItself(adapters: seq<Adapter>, i: nat)
    requires i < |adapters|
  {
    var a := adapters[i];
    if NormalizeMac(a.mac) != "" then
      forall j :: 0 <= j < i ==> NormalizeMac(adapters[j].mac) != NormalizeMac(a.mac)
    else
      && Lower(Strip(a.name)) != "" && Lower(Strip(a.name)) == Lower(a.name)
      && forall j :: 0 <= j < i ==> Lower(adapters[j].name) != Lower(a.name)
  }

  function IdentityOf(a: Adapter): AdapterIdentity {
    CleanIdentity(Obj(map["name" := Str(a.name), "mac" := Str(a.mac)]))
  }

  lemma IdentityFields(a: Adapter)
    ensures Field(IdentityOf(a), "name") == a.name && Field(IdentityOf(a), "mac") == a.mac
    ensures Field(IdentityOf(a), "address") == "" && !IsLiteral(IdentityOf(a))
  {
    var j := Obj(map["name" := Str(a.name), "mac" := Str(a.mac)]);
    assert j.fields["name"] == Str(a.name) && j.fields["mac"] == Str(a.mac);
    assert "address" !in j.fields;
  }

  lemma IdentityMatches(adapters: seq<Adapter>, i: nat)
    requires i < |adapters|
    ensures MatchAdapter(IdentityOf(adapters[i]), adapters) == Some(i) <==> FindsItself(adapters, i)
  {
    var a := adapters[i];
    var identity := IdentityOf(a);
    IdentityFields(a);
    MatchAdapterIsFirst(identity, adapters);
    var r := MatchAdapter(identity, adapters);
    assert a in adapters;
    if NormalizeMac(a.mac) != "" {
      assert HasMac(identity, a);
      assert forall j :: 0 <= j < |adapters| ==>
        (HasMac(identity, adapters[j]) <==> NormalizeMac(adapters[j].mac) == NormalizeMac(a.mac));
    } else {
      assert forall x <- adapters :: !HasMac(identity, x) && !HasAddress(identity, x);
      assert forall j :: 0 <= j < |adapters| ==>
        (HasName(identity, adapters[j]) <==> Lower(Strip(a.name)) != "" && Lower(adapters[j].name) == Lower(Strip(a.name)));
      if FindsItself(adapters, i) {
        assert HasName(identity, a);
      }
    }
  }

  lemma KeepReads(c: Config, key: string, value: Json)
    requires NetworkOpen(c) && ("network", key) !in c.held
    ensures Keep(c, key, value).Ok? && Get(Keep(c, key, value).value, "network", key, Null) == Ok(value)
  {
  }

  lemma DefaultRuns(c: Config, adapters: seq<Adapter>, deployment: string)
    requires NetworkOpen(c) && NoChoice(c) && ChoiceUnheld(c)
    ensures var s := Settle(c, adapters, deployment);
            var (m, identity) := DefaultChoice(c, adapters, deployment);
            s.Ok? && FromConfig(s.value) ==
                     Ok(ListenChoice(m, if m == OneAdapter then CleanIdentity(identity) else map[], None))
  {
    var (m, identity) := DefaultChoice(c, adapters, deployment);
    SettleIsDefaulted(c, adapters, deployment);
    var d := Defaulted(c, adapters, deployment).value;
    SettleKeepsChoice(d, adapters, deployment);
    KeepWrites(c, MODE_KEY, Str(ModeText(m)));
    KeepReads(c, MODE_KEY, Str(ModeText(m)));
    var c1 := Keep(c, MODE_KEY, Str(ModeText(m))).value;
    KeepWrites(c1, ADAPTER_KEY, identity);
    KeepReads(c1, ADAPTER_KEY, identity);
    ModeTexts(m);
    assert Get(d, "network", MODE_KEY, Null) == Ok(Str(ModeText(m)));
  }

  /** The adapter a start would listen on for an identity. */
  function OwnHosts(a: Adapter): seq<string> {
    (if a.link then a.Ips() else []) + ["127.0.0.1"]
  }

  lemma AdapterHosts(choice: ListenChoice, adapters: seq<Adapter>, i: nat)
    requires choice.mode == OneAdapter && !IsLiteral(choice.adapter) && MatchAdapter(choice.adapter, adapters) == Some(i)
    ensures Resolve(choice, adapters).Hosts() == OwnHosts(adapters[i])
  {
    FreshIsNow(choice, adapters);
  }

  /** With nothing held by the environment, the first start from source listens where
      the earlier release did: on every network, on this computer only, or on the adapter
      that lists the old address. It is that adapter exactly when the adapter's own
      identity finds it again, which another adapter with the same MAC can prevent. */
  lemma FirstStartServes(c: Config, adapters: seq<Adapter>, deployment: string)
    requires NetworkOpen(c) && NoChoice(c) && ChoiceUnheld(c)
    ensures var s := Settle(c, adapters, deployment);
            && s.Ok? && FromConfig(s.value).Ok?
            && var choice := FromConfig(s.value).value;
               var hosts := Resolve(choice, adapters).Hosts();
               if Installed(deployment) || WasAny(c) then hosts == ["0.0.0.0"]
               else if WasLoopback(c) then hosts == ["127.0.0.1"]
               else
                 && (NobodyLists(OldAddress(c), adapters) ==> hosts == ["127.0.0.1"])
                 && forall i: nat :: FirstLists(OldAddress(c), adapters, i) ==>
                      && (Listen.Chosen(choice, adapters) == Some(i) <==> FindsItself(adapters, i))
                      && (FindsItself(adapters, i) ==> hosts == OwnHosts(adapters[i]))
  {
    DefaultRuns(c, adapters, deployment);
    DefaultConverts(c, adapters, deployment);
    var (m, identity) := DefaultChoice(c, adapters, deployment);
    if m == OneAdapter {
      var choice := FromConfig(Settle(c, adapters, deployment).value).value;
      FirstIs(OldAddress(c), adapters);
      match FirstHolding(OldAddress(c), adapters)
      case None =>
        AddressIdentity(OldAddress(c));
        LiteralHosts(choice, OldAddress(c), adapters);
        assert forall i :: 0 <= i < |adapters| ==> adapters[i] in adapters;
      case Some(k) =>
        forall i: nat | FirstLists(OldAddress(c), adapters, i) ensures i == k {
          OneFirst(OldAddress(c), adapters, i);
        }
        assert choice.adapter == IdentityOf(adapters[k]);
        IdentityFields(adapters[k]);
        IdentityMatches(adapters, k);
        if FindsItself(adapters, k) {
          AdapterHosts(choice, adapters, k);
        }
    }
  }

  lemma EarlierMacMatches(adapters: seq<Adapter>, i: nat, j: nat)
    requires j < i < |adapters|
    requires NormalizeMac(adapters[i].mac) != "" && NormalizeMac(adapters[j].mac) == NormalizeMac(adapters[i].mac)
    requires forall k :: 0 <= k < j ==> NormalizeMac(adapters[k].mac) != NormalizeMac(adapters[i].mac)
    ensures MatchAdapter(IdentityOf(adapters[i]), adapters) == Some(j) && !IsLiteral(IdentityOf(adapters[i]))
  {
    var identity := IdentityOf(adapters[i]);
    IdentityFields(adapters[i]);
    MatchAdapterIsFirst(identity, adapters);
    assert adapters[j] in adapters && HasMac(identity, adapters[j]);
  }

  /** What happens otherwise: of two adapters with one MAC, as an interface and a virtual
      LAN on it have, the second's address is settled as an identity that matches the
      first, and the start listens on the first one's addresses instead. */
  lemma SharedMacServesTheOther(c: Config, adapters: seq<Adapter>, deployment: string, i: nat, j: nat)
    requires NetworkOpen(c) && NoChoice(c) && ChoiceUnheld(c) && !Installed(deployment) && !WasAny(c) && !WasLoopback(c)
    requires j < i && FirstLists(OldAddress(c), adapters, i)
    requires NormalizeMac(adapters[i].mac) != "" && NormalizeMac(adapters[j].mac) == NormalizeMac(adapters[i].mac)
    requires forall k :: 0 <= k < j ==> NormalizeMac(adapters[k].mac) != NormalizeMac(adapters[i].mac)
    ensures var s := Settle(c, adapters, deployment);
            && s.Ok? && FromConfig(s.value).Ok?
            && Resolve(FromConfig(s.value).value, adapters).Hosts() == OwnHosts(adapters[j])
            && OldAddress(c) !in adapters[j].Ips()
  {
    DefaultRuns(c, adapters, deployment);
    DefaultConverts(c, adapters, deployment);
    var choice := FromConfig(Settle(c, adapters, deployment).value).value;
    assert choice.adapter == IdentityOf(adapters[i]);
    EarlierMacMatches(adapters, i, j);
    AdapterHosts(choice, adapters, j);
  }

  // ---------------------------------------------------------------------
  // The device side
  // ---------------------------------------------------------------------

  /** Where no device-side choice is stored, the first start stores the adapter that
      lists the earlier control interface, that address itself where none lists it, and
      no choice at all where there was none; a stored choice stays. */
  lemma FirstStartReaches(c: Config, adapters: seq<Adapter>, deployment: string)
    requires NetworkOpen(c)
    ensures var s, was := Settle(c, adapters, deployment), LastAddress(c);
            && s.Ok?
            && var stored := StoredNetwork(s.value, "reach_devices_through");
               if StoredNetwork(c, "reach_devices_through").Obj? then stored == StoredNetwork(c, "reach_devices_through")
               else if was == "" then stored == Obj(map[])
               else
                 && (forall i: nat :: FirstLists(was, adapters, i) ==>
                       stored == Obj(map["name" := Str(adapters[i].name), "mac" := Str(adapters[i].mac)]))
                 && (NobodyLists(was, adapters) ==> stored == Obj(map["address" := Str(was)]))
  {
    SettleChoiceSettles(c, adapters, deployment);
    var c1 := SettleChoice(c, adapters, deployment).value;
    assert LastAddress(c1) == LastAddress(c);
    if !StoredNetwork(c1, KEY).Obj? {
      KeepWrites(c1, KEY, ConvertControlInterface(LastAddress(c1), adapters));
    }
    ReachMirrorSettles(ConvertReach(c1, adapters).value, adapters);
    FirstIs(LastAddress(c), adapters);
    forall i: nat | FirstLists(LastAddress(c), adapters, i)
      ensures FirstHolding(LastAddress(c), adapters) == Some(i)
    {
      OneFirst(LastAddress(c), adapters, i);
    }
  }
}
