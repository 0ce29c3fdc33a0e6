/** Who can connect: the stored choice, the adapter it names, and the plan of
    addresses it resolves to. */
module Listen {
  import opened Text
  import opened ConfigTree
  import opened SystemConfig

  const MODE_KEY := "accept_connections_from"
  const ADAPTER_KEY := "accept_connections_adapter"
  const MIRROR_KEY := "bind_address"

  const LOOPBACK := "127.0.0.1"
  const WILDCARD := "0.0.0.0"

  // ---------------------------------------------------------------------
  // Adapters
  // ---------------------------------------------------------------------

  type Interface = (string, string)  // an address and its subnet

  /** One physical adapter. `linkLocal` is its 169.254 addresses, which are not
      among `addresses`. */
  datatype Adapter = Adapter(
    name: string, mac: string, addresses: seq<Interface>, link: bool, linkLocal: seq<Interface>)
  {
    function Ips(): (r: seq<string>)
      ensures |r| == |addresses|
    {
      seq(|addresses|, i requires 0 <= i < |addresses| => addresses[i].0)
    }

    function Identity(): Json {
      Obj(map["name" := Str(name), "mac" := Str(mac)])
    }
  }

  type AdapterIdentity = map<string, string>

  function Field(identity: AdapterIdentity, key: string): string {
    if key in identity then identity[key] else ""
  }

  function NormalizeMac(mac: string): string {
    if mac == "" then ""
    else
      var c := LowerChar(mac[0]);
      if c in "0123456789abcdef" then [c] + NormalizeMac(mac[1..]) else NormalizeMac(mac[1..])
  }

  /** The index of the first adapter that `wanted` holds of. */
  function First(adapters: seq<Adapter>, wanted: Adapter -> bool): (r: Option<nat>)
    ensures r.Some? ==> r.value < |adapters| && wanted(adapters[r.value])
                        && forall i :: 0 <= i < r.value ==> !wanted(adapters[i])
    ensures r.None? ==> forall a <- adapters :: !wanted(a)
  {
    if adapters == [] then None
    else if wanted(adapters[0]) then Some(0)
    else
      match First(adapters[1..], wanted)
      case None => None
      case Some(i) => Some(i + 1)
  }

  function FirstByMac(mac: string, adapters: seq<Adapter>): Option<nat> {
    First(adapters, (a: Adapter) => NormalizeMac(a.mac) == mac)
  }

  function FirstByName(name: string, adapters: seq<Adapter>): Option<nat> {
    First(adapters, (a: Adapter) => Lower(a.name) == name)
  }

  function FirstHolding(address: string, adapters: seq<Adapter>): Option<nat> {
    First(adapters, (a: Adapter) => address in a.Ips())
  }

  /** `match_adapter`: by MAC, then by name, and by address only for an
      identity that is nothing else. */
  function MatchAdapter(identity: AdapterIdentity, adapters: seq<Adapter>): (r: Option<nat>)
    ensures r.Some? ==> r.value < |adapters|
  {
    var mac := NormalizeMac(Field(identity, "mac"));
    var name := Lower(Strip(Field(identity, "name")));
    var address := Strip(Field(identity, "address"));
    var byMac := if mac != "" then FirstByMac(mac, adapters) else None;
    if byMac.Some? then byMac
    else
      var byName := if name != "" then FirstByName(name, adapters) else None;
      if byName.Some? then byName
      else if address != "" && mac == "" && name == "" then FirstHolding(address, adapters)
      else None
  }

  predicate IsLiteral(identity: AdapterIdentity) {
    Field(identity, "address") != "" && Field(identity, "name") == "" && Field(identity, "mac") == ""
  }

  predicate HasMac(identity: AdapterIdentity, a: Adapter) {
    NormalizeMac(Field(identity, "mac")) != "" && NormalizeMac(a.mac) == NormalizeMac(Field(identity, "mac"))
  }

  predicate HasName(identity: AdapterIdentity, a: Adapter) {
    Lower(Strip(Field(identity, "name"))) != "" && Lower(a.name) == Lower(Strip(Field(identity, "name")))
  }

  /** Only an identity that is nothing but an address is matched by it. */
  predicate HasAddress(identity: AdapterIdentity, a: Adapter) {
    && NormalizeMac(Field(identity, "mac")) == "" && Lower(Strip(Field(identity, "name"))) == ""
    && Strip(Field(identity, "address")) != "" && Strip(Field(identity, "address")) in a.Ips()
  }

  /** The match is the first adapter with the stored MAC; where none has it, the first
      with the stored name; where none has that either, the first that holds the stored
      address; and there is none only where no adapter has any of them. */
  lemma MatchAdapterIsFirst(identity: AdapterIdentity, adapters: seq<Adapter>)
    ensures match MatchAdapter(identity, adapters)
            case None =>
              forall a <- adapters :: !HasMac(identity, a) && !HasName(identity, a) && !HasAddress(identity, a)
            case Some(i) =>
              if exists a <- adapters :: HasMac(identity, a) then
                HasMac(identity, adapters[i]) && forall j :: 0 <= j < i ==> !HasMac(identity, adapters[j])
              else if exists a <- adapters :: HasName(identity, a) then
                HasName(identity, adapters[i]) && forall j :: 0 <= j < i ==> !HasName(identity, adapters[j])
              else
                HasAddress(identity, adapters[i]) && forall j :: 0 <= j < i ==> !HasAddress(identity, adapters[j])
  {
    var r := MatchAdapter(identity, adapters);
    var mac := NormalizeMac(Field(identity, "mac"));
    var byMac := FirstByMac(mac, adapters);
    if mac != "" && byMac.Some? {
      assert HasMac(identity, adapters[byMac.value]);
    } else {
      assert forall a <- adapters :: !HasMac(identity, a);
      var name := Lower(Strip(Field(identity, "name")));
      var byName := FirstByName(name, adapters);
      if name != "" && byName.Some? {
        assert HasName(identity, adapters[byName.value]);
      } else {
        assert forall a <- adapters :: !HasName(identity, a);
      }
    }
  }

  /** A renamed adapter is still found: while some adapter has the stored MAC,
      names play no part in which one is matched. */
  lemma RenamedAdapterStillMatches(identity: AdapterIdentity, before: seq<Adapter>, after: seq<Adapter>)
    requires |before| == |after|
    requires forall i :: 0 <= i < |before| ==> NormalizeMac(before[i].mac) == NormalizeMac(after[i].mac)
    requires NormalizeMac(Field(identity, "mac")) != ""
    requires exists a <- before :: NormalizeMac(a.mac) == NormalizeMac(Field(identity, "mac"))
    ensures MatchAdapter(identity, before).Some?
    ensures MatchAdapter(identity, before) == MatchAdapter(identity, after)
  {
    var mac := NormalizeMac(Field(identity, "mac"));
    FirstByMacSame(mac, before, after);
    var a :| a in before && NormalizeMac(a.mac) == mac;
  }

  lemma FirstByMacSame(mac: string, before: seq<Adapter>, after: seq<Adapter>)
    requires |before| == |after|
    requires forall i :: 0 <= i < |before| ==> NormalizeMac(before[i].mac) == NormalizeMac(after[i].mac)
    ensures FirstByMac(mac, before) == FirstByMac(mac, after)
  {
    var i, j := FirstByMac(mac, before), FirstByMac(mac, after);
    if i.Some? {
      assert NormalizeMac(after[i.value].mac) == mac && after[i.value] in after;
    }
    if j.Some? {
      assert NormalizeMac(before[j.value].mac) == mac && before[j.value] in before;
    }
  }

  // ---------------------------------------------------------------------
  // The choice
  // ---------------------------------------------------------------------

  datatype Mode = Any | OneAdapter | ThisComputer

  function ModeText(m: Mode): string {
    match m
    case Any => "any"
    case OneAdapter => "adapter"
    case ThisComputer => "this_computer"
  }

  function ModeOf(j: Json): Option<Mode> {
    if j == Str("any") then Some(Any)
    else if j == Str("adapter") then Some(OneAdapter)
    else if j == Str("this_computer") then Some(ThisComputer)
    else None
  }

  const IDENTITY_FIELDS: set<string> := {"name", "mac", "address"}

  /** A stored identity without what is not part of one (`clean_identity`). */
  function CleanIdentity(j: Json): AdapterIdentity {
    if !j.Obj? then map[]
    else map k | k in j.fields && k in IDENTITY_FIELDS && Truthy(j.fields[k]) :: Printed(j.fields[k])
  }

  function IdentityJson(identity: AdapterIdentity): Json {
    Obj(map k | k in identity :: Str(identity[k]))
  }

  datatype ListenChoice = ListenChoice(mode: Mode, adapter: AdapterIdentity, heldBy: Option<string>)

  /** `ListenChoice.from_config`. */
  function FromConfig(c: Config): Outcome<ListenChoice> {
    var m :- Get(c, "network", MODE_KEY, Null);
    var a :- Get(c, "network", ADAPTER_KEY, Null);
    var mode := match ModeOf(Str(TextOf(m))) case Some(x) => x case None => ThisComputer;
    var key := ("network", MODE_KEY);
    Ok(ListenChoice(mode, if mode == OneAdapter then CleanIdentity(a) else map[],
                    if key in c.held then Some(c.held[key]) else None))
  }

  /** The choice read, in words: one of the three modes where the setting prints as one,
      this computer only where it prints as anything else, the stored identity for one
      adapter and none otherwise, and the variable that holds it. */
  lemma FromConfigReads(c: Config)
    requires Get(c, "network", "accept_connections_from", Null).Ok?
    requires Get(c, "network", "accept_connections_adapter", Null).Ok?
    ensures var text, r := TextOf(Get(c, "network", "accept_connections_from", Null).value), FromConfig(c);
            && r.Ok?
            && (r.value.mode == Any <==> text == "any") && (r.value.mode == OneAdapter <==> text == "adapter")
            && r.value.adapter == (if text == "adapter" then
                                     CleanIdentity(Get(c, "network", "accept_connections_adapter", Null).value)
                                   else map[])
            && r.value.heldBy == (if ("network", "accept_connections_from") in c.held
                                  then Some(c.held[("network", "accept_connections_from")]) else None)
  {
    assert "any"[1] != "adapter"[1];
  }

  /** A choice `from_config` can produce, which is every choice Settings makes. */
  predicate CleanChoice(mode: Mode, adapter: AdapterIdentity) {
    && (mode != OneAdapter ==> adapter == map[])
    && (forall k <- adapter :: k in IDENTITY_FIELDS && adapter[k] != "")
  }

  lemma CleanIdentityRoundTrip(identity: AdapterIdentity)
    requires forall k <- identity :: k in IDENTITY_FIELDS && identity[k] != ""
    ensures CleanIdentity(IdentityJson(identity)) == identity
  {
    var j := IdentityJson(identity);
    forall k | k in identity ensures k in CleanIdentity(j) && CleanIdentity(j)[k] == identity[k] {
      assert j.fields[k] == Str(identity[k]);
    }
  }

  lemma CleanIdentityIsClean(j: Json)
    ensures forall k <- CleanIdentity(j) :: k in IDENTITY_FIELDS && CleanIdentity(j)[k] != ""
  {
    forall k | k in CleanIdentity(j) ensures CleanIdentity(j)[k] != "" {
      TruthyPrints(j.fields[k]);
    }
  }

  lemma FromConfigIsClean(c: Config)
    ensures var r := FromConfig(c); r.Ok? ==> CleanChoice(r.value.mode, r.value.adapter)
  {
    if FromConfig(c).Ok? {
      CleanIdentityIsClean(Get(c, "network", ADAPTER_KEY, Null).value);
    }
  }

  // ---------------------------------------------------------------------
  // The plan
  // ---------------------------------------------------------------------

  datatype ProblemCode = AdapterNotConnected | AdapterNoAddress | AddressNotFound

  /** Why the network is not listened on; `subject` is the adapter or address
      its sentence names. */
  datatype ListenProblem = ListenProblem(code: ProblemCode, subject: string)

  function Undropped(interfaces: seq<Interface>, dropped: set<string>): seq<string> {
    if interfaces == [] then []
    else
      var rest := Undropped(interfaces[1..], dropped);
      if interfaces[0].0 in dropped then rest else [interfaces[0].0] + rest
  }

  datatype ListenPlan = ListenPlan(
    choice: ListenChoice,
    adapterName: string,
    interfaces: seq<Interface>,
    dropped: set<string>,
    problem: Option<ListenProblem>)
  {
    function NetworkAddresses(): seq<string> {
      Undropped(interfaces, dropped)
    }

    /** Every address a web listener binds. */
    function Hosts(): seq<string> {
      if choice.mode == Any then [WILDCARD] else NetworkAddresses() + [LOOPBACK]
    }

    predicate LocalOnly() {
      choice.mode != Any && NetworkAddresses() == []
    }

    predicate Serves(host: string) {
      var h := Trim(Strip(host), IsBracket);
      choice.mode == Any || Lower(h) == "localhost" || h in Hosts()
    }

    /** This plan with `addresses` refused by the bind. */
    function Without(addresses: set<string>): ListenPlan {
      var plan := this.(dropped := dropped + addresses);
      if choice.mode == OneAdapter && plan.NetworkAddresses() == [] && problem.None?
      then plan.(problem := Some(ListenProblem(AdapterNotConnected, adapterName)))
      else plan
    }
  }

  function Bare(choice: ListenChoice, name: string, problem: Option<ListenProblem>): ListenPlan {
    ListenPlan(choice, name, [], {}, problem)
  }

  function SubnetOf(addresses: seq<Interface>, address: string): string {
    if addresses == [] then ""
    else if addresses[|addresses| - 1].0 == address then addresses[|addresses| - 1].1
    else SubnetOf(addresses[..|addresses| - 1], address)
  }

  /** `resolve`: the choice against the adapters present now. */
  function Resolve(choice: ListenChoice, adapters: seq<Adapter>): ListenPlan {
    if choice.mode != OneAdapter then Bare(choice, "", None)
    else if IsLiteral(choice.adapter) then
      var address := choice.adapter["address"];
      match FirstHolding(address, adapters)
      case None => Bare(choice, "", Some(ListenProblem(AddressNotFound, address)))
      case Some(i) =>
        var holder := adapters[i];
        if !holder.link then Bare(choice, holder.name, Some(ListenProblem(AdapterNotConnected, holder.name)))
        else ListenPlan(choice, holder.name, [(address, SubnetOf(holder.addresses, address))], {}, None)
    else
      match MatchAdapter(choice.adapter, adapters)
      case None =>
        var name := Field(choice.adapter, "name");
        Bare(choice, name, Some(ListenProblem(AdapterNotConnected, name)))
      case Some(i) =>
        var adapter := adapters[i];
        if !adapter.link then Bare(choice, adapter.name, Some(ListenProblem(AdapterNotConnected, adapter.name)))
        else if adapter.addresses == [] then
          Bare(choice, adapter.name, Some(ListenProblem(AdapterNoAddress, adapter.name)))
        else ListenPlan(choice, adapter.name, adapter.addresses, {}, None)
  }

  /** The adapter a choice of one adapter is about, if it is present. */
  function Chosen(choice: ListenChoice, adapters: seq<Adapter>): (r: Option<nat>)
    ensures r.Some? ==> r.value < |adapters|
  {
    if IsLiteral(choice.adapter) then FirstHolding(choice.adapter["address"], adapters)
    else MatchAdapter(choice.adapter, adapters)
  }

  // ---------------------------------------------------------------------
  // What every plan keeps
  // ---------------------------------------------------------------------

  lemma {:induction false} UndroppedIn(interfaces: seq<Interface>, dropped: set<string>, ip: string)
    ensures ip in Undropped(interfaces, dropped) <==>
              ip !in dropped && exists i :: 0 <= i < |interfaces| && interfaces[i].0 == ip
  {
    if interfaces != [] {
      UndroppedIn(interfaces[1..], dropped, ip);
      if ip in Undropped(interfaces, dropped) && ip != interfaces[0].0 {
        var i :| 0 <= i < |interfaces[1..]| && interfaces[1..][i].0 == ip;
        assert interfaces[i + 1].0 == ip;
      }
      if i :| 0 <= i < |interfaces| && interfaces[i].0 == ip && ip !in dropped {
        if i > 0 {
          assert interfaces[1..][i - 1].0 == ip;
        }
      }
    }
  }

  /** The plan after the bind has refused each set of addresses in turn. */
  function WithoutAll(plan: ListenPlan, refused: seq<set<string>>): ListenPlan
    decreases |refused|
  {
    if refused == [] then plan else WithoutAll(plan.Without(refused[0]), refused[1..])
  }

  function UnionOf(refused: seq<set<string>>): set<string> {
    if refused == [] then {} else refused[0] + UnionOf(refused[1..])
  }

  /** What the problem stands for, kept by `Resolve` and by `Without`. */
  predicate ProblemAgrees(plan: ListenPlan) {
    plan.choice.mode == OneAdapter ==> (plan.problem.Some? <==> plan.NetworkAddresses() == [])
  }

  lemma {:induction false} UndroppedShrinks(interfaces: seq<Interface>, d: set<string>, e: set<string>)
    requires d <= e && Undropped(interfaces, d) == []
    ensures Undropped(interfaces, e) == []
  {
    if interfaces != [] {
      UndroppedShrinks(interfaces[1..], d, e);
    }
  }

  /** Refusals compose as set union, so their order and grouping do not matter. */
  lemma WithoutComposes(plan: ListenPlan, a: set<string>, b: set<string>)
    ensures plan.Without(a).Without(b) == plan.Without(a + b)
    ensures plan.Without(a).Without(b) == plan.Without(b).Without(a)
  {
    var d := plan.dropped;
    assert d + a + b == d + (a + b) && d + b + a == d + (a + b);
    if plan.Without(a).NetworkAddresses() == [] {
      UndroppedShrinks(plan.interfaces, d + a, d + (a + b));
    }
    if plan.Without(b).NetworkAddresses() == [] {
      UndroppedShrinks(plan.interfaces, d + b, d + (a + b));
    }
  }

  lemma {:induction false} WithoutAllIsOne(plan: ListenPlan, refused: seq<set<string>>)
    requires ProblemAgrees(plan)
    ensures WithoutAll(plan, refused) == plan.Without(UnionOf(refused))
    decreases |refused|
  {
    if refused == [] {
      assert plan.dropped + {} == plan.dropped;
    } else {
      if plan.NetworkAddresses() == [] {
        UndroppedShrinks(plan.interfaces, plan.dropped, plan.dropped + refused[0]);
      }
      WithoutAllIsOne(plan.Without(refused[0]), refused[1..]);
      WithoutComposes(plan, refused[0], UnionOf(refused[1..]));
    }
  }

  lemma ServesLoopback(plan: ListenPlan)
    ensures plan.Serves(LOOPBACK)
  {
    assert !IsSpace(LOOPBACK[0]) && !IsSpace(LOOPBACK[8]);
    assert Strip(LOOPBACK) == LOOPBACK;
    assert Trim(LOOPBACK, IsBracket) == LOOPBACK;
    if plan.choice.mode != Any {
      assert plan.Hosts()[|plan.Hosts()| - 1] == LOOPBACK;
    }
  }

  /** The adapter a resolved plan listens on, and none but its own addresses. */
  predicate WithinChosen(choice: ListenChoice, adapters: seq<Adapter>, host: string) {
    var i := Chosen(choice, adapters);
    i.Some? && adapters[i.value].link && host in adapters[i.value].Ips()
  }

  lemma ResolvedWithinChosen(choice: ListenChoice, adapters: seq<Adapter>, dropped: set<string>, host: string)
    requires choice.mode == OneAdapter
    requires host in Undropped(Resolve(choice, adapters).interfaces, dropped)
    ensures WithinChosen(choice, adapters, host) && host !in dropped
  {
    var p := Resolve(choice, adapters);
    UndroppedIn(p.interfaces, dropped, host);
    var k :| 0 <= k < |p.interfaces| && p.interfaces[k].0 == host;
    var a := adapters[Chosen(choice, adapters).value];
    if !IsLiteral(choice.adapter) {
      assert a.Ips()[k] == host;
    }
  }

  /** However often the bind refuses addresses of a resolved plan: loopback is
      served, nothing outside the chosen adapter and loopback is bound, and the
      plan says why exactly when no network address is left. */
  lemma PlanNeverWidens(choice: ListenChoice, adapters: seq<Adapter>, refused: seq<set<string>>)
    ensures var plan := WithoutAll(Resolve(choice, adapters), refused);
            && plan.choice == choice && plan.Serves(LOOPBACK)
            && match choice.mode
               case Any => plan.Hosts() == [WILDCARD] && plan.problem.None?
               case ThisComputer => plan.Hosts() == [LOOPBACK] && plan.problem.None?
               case OneAdapter =>
                 && LOOPBACK in plan.Hosts()
                 && (plan.problem.Some? <==> plan.LocalOnly())
                 && (plan.LocalOnly() <==> plan.Hosts() == [LOOPBACK])
                 && forall h <- plan.Hosts() ::
                      h == LOOPBACK || (WithinChosen(choice, adapters, h) && h !in UnionOf(refused))
  {
    var p, all := Resolve(choice, adapters), UnionOf(refused);
    WithoutAllIsOne(p, refused);
    ServesLoopback(p.Without(all));
    if choice.mode == OneAdapter {
      AdapterPlanHolds(choice, adapters, all);
    }
  }

  lemma AdapterPlanHolds(choice: ListenChoice, adapters: seq<Adapter>, refused: set<string>)
    requires choice.mode == OneAdapter
    ensures var plan := Resolve(choice, adapters).Without(refused);
            && plan.choice == choice && LOOPBACK in plan.Hosts()
            && (plan.problem.Some? <==> plan.LocalOnly()) && (plan.LocalOnly() <==> plan.Hosts() == [LOOPBACK])
            && forall h <- plan.Hosts() :: h == LOOPBACK || (WithinChosen(choice, adapters, h) && h !in refused)
  {
    var p := Resolve(choice, adapters);
    var plan := p.Without(refused);
    var own := plan.NetworkAddresses();
    assert p.dropped + refused == refused && own == Undropped(p.interfaces, refused);
    assert plan.Hosts() == own + [LOOPBACK] && plan.Hosts()[|own|] == LOOPBACK;
    forall h <- own ensures WithinChosen(choice, adapters, h) && h !in refused {
      ResolvedWithinChosen(choice, adapters, refused, h);
    }
    ResolvedProblem(choice, adapters);
    if own != [] && p.problem.Some? {
      UndroppedShrinks(p.interfaces, {}, refused);
    }
  }

  lemma ResolvedProblem(choice: ListenChoice, adapters: seq<Adapter>)
    ensures ProblemAgrees(Resolve(choice, adapters))
  {
  }

  /** The wildcard is bound under a choice of one adapter exactly when that adapter is
      connected and itself reports it as an address (and, for a choice of one address,
      when that is the one chosen). */
  lemma WildcardOnlyIfHeld(choice: ListenChoice, adapters: seq<Adapter>)
    requires choice.mode == OneAdapter
    ensures WILDCARD in Resolve(choice, adapters).Hosts() <==>
              if IsLiteral(choice.adapter) then
                && choice.adapter["address"] == WILDCARD
                && FirstHolding(WILDCARD, adapters).Some? && adapters[FirstHolding(WILDCARD, adapters).value].link
              else
                && MatchAdapter(choice.adapter, adapters).Some?
                && var a := adapters[MatchAdapter(choice.adapter, adapters).value];
                   a.link && WILDCARD in a.Ips()
  {
    var p := Resolve(choice, adapters);
    assert WILDCARD[0] != LOOPBACK[0];
    assert p.Hosts() == Undropped(p.interfaces, {}) + [LOOPBACK];
    UndroppedIn(p.interfaces, {}, WILDCARD);
    if IsLiteral(choice.adapter) {
      LiteralInterfaces(choice, adapters);
    } else {
      NamedInterfaces(choice, adapters);
    }
  }

  lemma LiteralInterfaces(choice: ListenChoice, adapters: seq<Adapter>)
    requires choice.mode == OneAdapter && IsLiteral(choice.adapter)
    ensures var address := choice.adapter["address"];
            var i := FirstHolding(address, adapters);
            Resolve(choice, adapters).interfaces ==
            if i.Some? && adapters[i.value].link then [(address, SubnetOf(adapters[i.value].addresses, address))] else []
  {
  }

  lemma NamedInterfaces(choice: ListenChoice, adapters: seq<Adapter>)
    requires choice.mode == OneAdapter && !IsLiteral(choice.adapter)
    ensures var i := MatchAdapter(choice.adapter, adapters);
            var interfaces := Resolve(choice, adapters).interfaces;
            && interfaces == (if i.Some? && adapters[i.value].link then adapters[i.value].addresses else [])
            && (i.Some? ==> (WILDCARD in adapters[i.value].Ips() <==>
                  exists k :: 0 <= k < |adapters[i.value].addresses| && adapters[i.value].addresses[k].0 == WILDCARD))
  {
    var i := MatchAdapter(choice.adapter, adapters);
    if i.Some? {
      var a := adapters[i.value];
      assert forall k :: 0 <= k < |a.addresses| ==> a.Ips()[k] == a.addresses[k].0;
    }
  }

  // ---------------------------------------------------------------------
  // The plan, read off the adapters
  // ---------------------------------------------------------------------

  /** The addresses the chosen adapter has on the network: those of the connected
      adapter a choice by name or MAC matches, or the one chosen address while the
      first adapter that lists it is connected. */
  function AddressesNow(choice: ListenChoice, found: seq<Adapter>): seq<string> {
    if IsLiteral(choice.adapter) then
      var i := FirstHolding(choice.adapter["address"], found);
      if i.Some? && found[i.value].link then [choice.adapter["address"]] else []
    else
      var i := MatchAdapter(choice.adapter, found);
      if i.Some? && found[i.value].link then found[i.value].Ips() else []
  }

  function AddressesOf(interfaces: seq<Interface>): (r: seq<string>)
    ensures |r| == |interfaces|
  {
    seq(|interfaces|, i requires 0 <= i < |interfaces| => interfaces[i].0)
  }

  lemma {:induction false} UndroppedNone(interfaces: seq<Interface>)
    ensures Undropped(interfaces, {}) == AddressesOf(interfaces)
  {
    if interfaces != [] {
      UndroppedNone(interfaces[1..]);
      assert AddressesOf(interfaces) == [interfaces[0].0] + AddressesOf(interfaces[1..]);
    }
  }

  /** Resolving finds exactly those addresses. */
  lemma FreshIsNow(choice: ListenChoice, found: seq<Adapter>)
    requires choice.mode == OneAdapter
    ensures Resolve(choice, found).NetworkAddresses() == AddressesNow(choice, found)
    ensures AddressesOf(Resolve(choice, found).interfaces) == AddressesNow(choice, found)
  {
    var p := Resolve(choice, found);
    UndroppedNone(p.interfaces);
    if IsLiteral(choice.adapter) {
      LiteralInterfaces(choice, found);
    } else {
      NamedInterfaces(choice, found);
      var i := MatchAdapter(choice.adapter, found);
      if i.Some? && found[i.value].link {
        assert AddressesOf(found[i.value].addresses) == found[i.value].Ips();
      }
    }
  }

  /** A host is served exactly when it is this computer, or an address the chosen adapter
      has now that the bind did not refuse; under every network, any host is. */
  lemma ServesExactly(choice: ListenChoice, adapters: seq<Adapter>, refused: set<string>, host: string)
    ensures var h := Trim(Strip(host), IsBracket);
            Resolve(choice, adapters).Without(refused).Serves(host) <==>
              || choice.mode == Any || Lower(h) == "localhost" || h == "127.0.0.1"
              || (choice.mode == OneAdapter && h in AddressesNow(choice, adapters) && h !in refused)
  {
    var h, p := Trim(Strip(host), IsBracket), Resolve(choice, adapters);
    var plan := p.Without(refused);
    assert plan.choice == choice && p.dropped + refused == refused;
    if choice.mode == OneAdapter {
      FreshIsNow(choice, adapters);
      UndroppedIn(p.interfaces, refused, h);
      UndroppedIn(p.interfaces, {}, h);
    }
    assert choice.mode != Any ==> plan.Hosts() == plan.NetworkAddresses() + ["127.0.0.1"];
  }

  /** Why the network is not listened on: the chosen address is nowhere, or the chosen
      adapter is not there or not connected, or is connected and has no address. */
  lemma ProblemSays(choice: ListenChoice, adapters: seq<Adapter>)
    ensures var problem, i := Resolve(choice, adapters).problem, Chosen(choice, adapters);
            if choice.mode != OneAdapter || AddressesNow(choice, adapters) != [] then problem.None?
            else
              && problem.Some?
              && problem.value.code ==
                 (if i.None? && IsLiteral(choice.adapter) then AddressNotFound
                  else if i.None? || !adapters[i.value].link then AdapterNotConnected
                  else AdapterNoAddress)
              && problem.value.subject ==
                 (if i.Some? then adapters[i.value].name
                  else if IsLiteral(choice.adapter) then choice.adapter["address"]
                  else Field(choice.adapter, "name"))
  {
    if choice.mode == OneAdapter {
      FreshIsNow(choice, adapters);
    }
  }

  predicate HexDigit(c: char) {
    '0' <= c <= '9' || 'a' <= c <= 'f'
  }

  lemma {:induction false} MacAppends(a: string, b: string)
    ensures NormalizeMac(a + b) == NormalizeMac(a) + NormalizeMac(b)
  {
    if a == "" {
      assert a + b == b;
    } else {
      assert (a + b)[1..] == a[1..] + b;
      MacAppends(a[1..], b);
    }
  }

  lemma InHex(c: char)
    ensures c in "0123456789abcdef" <==> HexDigit(c)
  {
  }

  /** What is kept of one character. */
  lemma MacStep(mac: string)
    requires mac != ""
    ensures NormalizeMac(mac) ==
            (if HexDigit(LowerChar(mac[0])) then [LowerChar(mac[0])] else []) + NormalizeMac(mac[1..])
  {
    InHex(LowerChar(mac[0]));
  }

  lemma {:induction false} MacAnyCase(mac: string)
    ensures NormalizeMac(Lower(mac)) == NormalizeMac(mac)
    ensures forall c <- NormalizeMac(mac) :: HexDigit(c)
  {
    if mac != "" {
      var rest := mac[1..];
      MacAnyCase(rest);
      MacStep(mac);
      MacStep(Lower(mac));
      assert Lower(mac)[1..] == Lower(rest) && Lower(mac)[0] == LowerChar(mac[0]);
      assert LowerChar(LowerChar(mac[0])) == LowerChar(mac[0]);
    }
  }

  predicate HexAnyCase(c: char) {
    HexDigit(c) || 'A' <= c <= 'F'
  }

  /** Of a MAC written without separators, every digit is kept, lower-cased. */
  lemma {:induction false} MacDigits(mac: string)
    requires forall i :: 0 <= i < |mac| ==> HexAnyCase(mac[i])
    ensures |NormalizeMac(mac)| == |mac|
    ensures forall i :: 0 <= i < |mac| ==>
              NormalizeMac(mac)[i] == if 'A' <= mac[i] <= 'F' then (mac[i] as int + 32) as char else mac[i]
  {
    if mac != "" {
      MacDigits(mac[1..]);
      MacStep(mac);
      assert HexAnyCase(mac[0]);
    }
  }

  lemma MacIgnoresSeparators(a: string, c: char, b: string)
    requires !HexDigit(LowerChar(c))
    ensures NormalizeMac(a + [c] + b) == NormalizeMac(a + b)
  {
    InHex(LowerChar(c));
    MacAppends(a, [c] + b);
    MacAppends(a, b);
    assert a + [c] + b == a + ([c] + b);
    assert ([c] + b)[1..] == b;
  }
}
