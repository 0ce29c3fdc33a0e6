/** The process side of settling: what a start writes to the configuration, the
    plan it makes current, and the one save it owes. */
module ListenStart {
  import opened Text
  import opened ConfigTree
  import opened SystemConfig
  import opened Listen
  import opened ReachDevices
  import opened Settling

  method KeepValue(cfg: SystemConfigFile, key: string, value: Json) returns (ok: bool)
    modifies cfg
    ensures ok == Keep(old(cfg.View()), key, value).Ok?
    ensures ok ==> cfg.View() == Keep(old(cfg.View()), key, value).value
    ensures cfg.disk == old(cfg.disk)
  {
    ok := cfg.PersistDefaultValue("network", key, value);
  }

  method RefreshListenMirrorOf(cfg: SystemConfigFile) returns (ok: bool)
    modifies cfg
    ensures ok == RefreshListenMirror(old(cfg.View())).Ok?
    ensures ok ==> cfg.View() == RefreshListenMirror(old(cfg.View())).value
    ensures cfg.disk == old(cfg.disk)
  {
    var mode := ModeOf(cfg.StoredValue("network", MODE_KEY));
    if mode.None? { return true; }
    var value := Str(MirrorFor(mode.value));
    if cfg.StoredValue("network", MIRROR_KEY) == value { return true; }
    ok := KeepValue(cfg, MIRROR_KEY, value);
  }

  method SettleChoiceOf(cfg: SystemConfigFile, adapters: seq<Adapter>, deployment: string)
    returns (ok: bool, settled: bool)
    modifies cfg
    ensures ok == SettleChoice(old(cfg.View()), adapters, deployment).Ok?
    ensures ok ==> cfg.View() == SettleChoice(old(cfg.View()), adapters, deployment).value
    ensures ok ==> settled == ModeOf(StoredNetwork(old(cfg.View()), MODE_KEY)).None?
    ensures cfg.disk == old(cfg.disk)
  {
    settled := false;
    if ModeOf(cfg.StoredValue("network", MODE_KEY)).None? {
      var (mode, identity) := if deployment in INSTALLED_TYPES then (Any, EMPTY)
                              else ConvertBindAddress(cfg.StoredValue("network", MIRROR_KEY), adapters);
      ok := KeepValue(cfg, MODE_KEY, Str(ModeText(mode)));
      if !ok { return; }
      ok := KeepValue(cfg, ADAPTER_KEY, identity);
      if !ok { return; }
      settled := true;
    }
    ok := RefreshListenMirrorOf(cfg);
  }

  method SettleReachOf(cfg: SystemConfigFile, adapters: seq<Adapter>) returns (ok: bool)
    modifies cfg
    ensures ok == SettleReach(old(cfg.View()), adapters).Ok?
    ensures ok ==> cfg.View() == SettleReach(old(cfg.View()), adapters).value
    ensures cfg.disk == old(cfg.disk)
  {
    if !cfg.StoredValue("network", KEY).Obj? {
      var text := Strip(TextOf(cfg.StoredValue("network", CONTROL_INTERFACE)));
      ok := KeepValue(cfg, KEY, ConvertControlInterface(text, adapters));
      if !ok { return; }
    }
    var identity := CleanIdentity(cfg.StoredValue("network", KEY));
    var mirror := cfg.StoredValue("network", CONTROL_INTERFACE);
    var value := mirror;
    if identity != map[] && !IsLiteral(identity) {
      value := Str(ResolveReach(identity, adapters, Strip(TextOf(mirror))).address);
    } else if IsLiteral(identity) {
      value := Str(identity["address"]);
    } else if Truthy(mirror) {
      value := Str("");
    }
    if value == mirror { return true; }
    ok := KeepValue(cfg, CONTROL_INTERFACE, value);
  }

  /** `_current` and `_settled_unsaved`, with the configuration they are about. */
  class Process {
    const cfg: SystemConfigFile
    var current: Option<ListenPlan>
    var settledUnsaved: bool

    constructor (cfg: SystemConfigFile)
      ensures this.cfg == cfg && current == None && !settledUnsaved
    {
      this.cfg := cfg;
      current, settledUnsaved := None, false;
    }

    /** `start`: nothing is written to disk. The configuration is settled, the
        plan is the settled choice resolved against the adapters, and a save is
        owed when any of the five keys moved. A failure to settle the
        device-side choice does not stop the start. */
    method Start(adapters: seq<Adapter>, deployment: string) returns (ok: bool)
      modifies this, cfg
      ensures cfg.disk == old(cfg.disk)
      ensures ok ==>
                && (Settle(old(cfg.View()), adapters, deployment).Ok? ==>
                      Settle(old(cfg.View()), adapters, deployment) == Ok(cfg.View()))
                && FromConfig(cfg.View()).Ok?
                && current == Some(Resolve(FromConfig(cfg.View()).value, adapters))
                && settledUnsaved == (old(settledUnsaved) || SettledKeys(cfg.View()) != SettledKeys(old(cfg.View())))
                && var was, moved := old(cfg.View()), cfg.View();
                   settledUnsaved <==>
                     || old(settledUnsaved)
                     || StoredNetwork(moved, "accept_connections_from") != StoredNetwork(was, "accept_connections_from")
                     || StoredNetwork(moved, "accept_connections_adapter") != StoredNetwork(was, "accept_connections_adapter")
                     || StoredNetwork(moved, "bind_address") != StoredNetwork(was, "bind_address")
                     || StoredNetwork(moved, "reach_devices_through") != StoredNetwork(was, "reach_devices_through")
                     || StoredNetwork(moved, "control_interface") != StoredNetwork(was, "control_interface")
      ensures !ok ==>
                SettleChoice(old(cfg.View()), adapters, deployment).Crash? || FromConfig(cfg.View()).Crash?
    {
      var before := [cfg.StoredValue("network", MODE_KEY), cfg.StoredValue("network", ADAPTER_KEY),
                     cfg.StoredValue("network", MIRROR_KEY), cfg.StoredValue("network", KEY),
                     cfg.StoredValue("network", CONTROL_INTERFACE)];
      var settled;
      ok, settled := SettleChoiceOf(cfg, adapters, deployment);
      if !ok { return; }
      var reached := SettleReachOf(cfg, adapters);
      var after := [cfg.StoredValue("network", MODE_KEY), cfg.StoredValue("network", ADAPTER_KEY),
                    cfg.StoredValue("network", MIRROR_KEY), cfg.StoredValue("network", KEY),
                    cfg.StoredValue("network", CONTROL_INTERFACE)];
      if after != before { settledUnsaved := true; }
      var choice := FromConfig(Config(cfg.data, cfg.fileData, cfg.rawFile, cfg.envHeld, cfg.disk));
      if choice.Crash? { return false; }
      current := Some(Resolve(choice.value, if choice.value.mode == OneAdapter then adapters else []));
    }

    /** `save_settled`: at most one write for what starts have settled, which the disk
        may refuse; it is not owed again either way. */
    method SaveSettled(takes: bool) returns (saved: bool)
      modifies this, cfg
      ensures saved == old(settledUnsaved) && !settledUnsaved && current == old(current)
      ensures cfg.View() == if saved then SaveTo(old(cfg.View()), takes) else old(cfg.View())
    {
      if !settledUnsaved { return false; }
      settledUnsaved := false;
      cfg.SaveFile(takes);
      saved := true;
    }
  }

  /** A second start owes nothing: whatever the first one settled is written
      once, and the file is left alone from then on. */
  method StartTwice(p: Process, adapters: seq<Adapter>, deployment: string, takes: bool) returns (ok: bool, saved: bool)
    requires NetworkOpen(p.cfg.View()) && !p.settledUnsaved
    modifies p, p.cfg
    ensures ok ==>
              && !saved
              && Settle(old(p.cfg.View()), adapters, deployment).Ok?
              && var settled := Settle(old(p.cfg.View()), adapters, deployment).value;
                 p.cfg.View() == if SettledKeys(settled) != SettledKeys(old(p.cfg.View())) then SaveTo(settled, takes) else settled
  {
    ghost var c := p.cfg.View();
    saved := false;
    ok := p.Start(adapters, deployment);
    if !ok { return; }
    SettleSettles(c, adapters, deployment);
    saved := p.SaveSettled(takes);
    ghost var once := p.cfg.View();
    SettledIsFixed(once, adapters, deployment);
    ok := p.Start(adapters, deployment);
    if !ok { return; }
    assert p.cfg.View() == once;
    saved := p.SaveSettled(takes);
  }
}
