/** Binding every address of a plan, socket by socket, with fallback for an
    address the system no longer allows and retries for a port still in use. */
module ListenSockets {
  import opened Text
  import opened Listen

  // ---------------------------------------------------------------------
  // What the operating system answers
  // ---------------------------------------------------------------------

  datatype OsError = OsError(errno: int, winerror: Option<int>)
  datatype Answer = Granted | Denied(err: OsError)
  datatype Kind = NotAvailable | InUse | Forbidden | OtherFailure

  const NOT_AVAILABLE_CODES: set<int> := {99, 10049}
  const IN_USE_CODES: set<int> := {98, 10048}
  const FORBIDDEN_CODES: set<int> := {13, 10013}

  predicate HasCode(err: OsError, codes: set<int>) {
    err.errno in codes || (err.winerror.Some? && err.winerror.value in codes)
  }

  function Classify(err: OsError): Kind {
    if HasCode(err, NOT_AVAILABLE_CODES) then NotAvailable
    else if HasCode(err, IN_USE_CODES) then InUse
    else if HasCode(err, FORBIDDEN_CODES) then Forbidden
    else OtherFailure
  }

  /** Every bind of one call: the answer for each attempt and host index. */
  type Script = (nat, nat) -> Answer

  // ---------------------------------------------------------------------
  // One attempt over the plan's hosts
  // ---------------------------------------------------------------------

  datatype Failure = Failure(kind: Kind, host: string)

  datatype Progress = Progress(bound: seq<string>, dropped: set<string>, failure: Option<Failure>)

  /** The first `n` hosts of attempt `attempt`. */
  function Scan(plan: ListenPlan, fallback: bool, script: Script, attempt: nat, n: nat): Progress
    requires n <= |plan.Hosts()|
  {
    if n == 0 then Progress([], {}, None)
    else
      var p := Scan(plan, fallback, script, attempt, n - 1);
      var host := plan.Hosts()[n - 1];
      if p.failure.Some? then p
      else
        match script(attempt, n - 1)
        case Granted => p.(bound := p.bound + [host])
        case Denied(err) =>
          if Classify(err) == NotAvailable && fallback && host in plan.NetworkAddresses()
          then p.(dropped := p.dropped + {host})
          else p.(failure := Some(Failure(Classify(err), host)))
  }

  /** One of these two numbers, as the error's own or as Windows' own. */
  predicate Numbered(err: OsError, a: int, b: int) {
    err.errno == a || err.errno == b || err.winerror == Some(a) || err.winerror == Some(b)
  }

  /** What a refused bind does, by its number: 99 and 10049, no such address now, drop an
      address of the plan's own where dropping is allowed; otherwise the attempt ends, and
      only 98 and 10048, the port in use, are worth another. */
  lemma RefusedByNumber(plan: ListenPlan, fallback: bool, script: Script, attempt: nat, n: nat, err: OsError)
    requires n < |plan.Hosts()| && Scan(plan, fallback, script, attempt, n).failure.None?
    requires script(attempt, n) == Denied(err)
    ensures var p, q, host := Scan(plan, fallback, script, attempt, n), Scan(plan, fallback, script, attempt, n + 1), plan.Hosts()[n];
            && q.bound == p.bound
            && if Numbered(err, 99, 10049) && fallback && host in plan.NetworkAddresses() then
                 q.failure.None? && q.dropped == p.dropped + {host}
               else
                 && q.dropped == p.dropped && q.failure.Some? && q.failure.value.host == host
                 && (q.failure.value.kind == InUse <==> Numbered(err, 98, 10048) && !Numbered(err, 99, 10049))
                 && (q.failure.value.kind == NotAvailable <==> Numbered(err, 99, 10049))
  {
  }

  function Attempt(plan: ListenPlan, fallback: bool, script: Script, attempt: nat): Progress {
    Scan(plan, fallback, script, attempt, |plan.Hosts()|)
  }

  /** The plan an attempt that got through serves. */
  function Served(plan: ListenPlan, p: Progress): ListenPlan {
    if p.dropped == {} then plan else plan.Without(p.dropped)
  }

  // ---------------------------------------------------------------------
  // Sockets
  // ---------------------------------------------------------------------

  function SetOf(sockets: seq<nat>): set<nat> {
    set s | s in sockets
  }

  class SocketTable {
    var open: set<nat>
    var hostOf: map<nat, string>
    var next: nat

    ghost predicate Valid()
      reads this
    {
      open <= hostOf.Keys && forall s <- hostOf :: s < next
    }

    constructor ()
      ensures Valid() && open == {}
    {
      open, hostOf, next := {}, map[], 0;
    }

    /** `bind_socket`: a socket the system would not bind is closed again. */
    method Bind(host: string, answer: Answer) returns (sock: Option<nat>)
      requires Valid()
      modifies this
      ensures Valid()
      ensures forall s <- old(hostOf) :: s in hostOf && hostOf[s] == old(hostOf)[s]
      ensures answer.Granted? ==>
                sock == Some(old(next)) && old(next) !in old(open) && old(next) in hostOf
                && hostOf[old(next)] == host && open == old(open) + {old(next)}
      ensures answer.Denied? ==> sock.None? && open == old(open)
    {
      var id := next;
      next := next + 1;
      hostOf := hostOf[id := host];
      open := open + {id};
      if answer.Denied? {
        open := open - {id};
        return None;
      }
      sock := Some(id);
    }

    /** `close_all`. */
    method CloseAll(sockets: seq<nat>)
      requires Valid()
      modifies this`open
      ensures Valid() && open == old(open) - SetOf(sockets)
    {
      for i := 0 to |sockets|
        invariant Valid() && open == old(open) - SetOf(sockets[..i])
      {
        open := open - {sockets[i]};
        assert SetOf(sockets[..i + 1]) == SetOf(sockets[..i]) + {sockets[i]} by {
          assert sockets[..i + 1] == sockets[..i] + [sockets[i]];
        }
      }
      assert sockets[..|sockets|] == sockets;
    }
  }

  /** These sockets are for these hosts, one each, in this order. */
  ghost predicate SocketsFor(hostOf: map<nat, string>, sockets: seq<nat>, hosts: seq<string>) {
    |sockets| == |hosts| && forall i :: 0 <= i < |sockets| ==> sockets[i] in hostOf && hostOf[sockets[i]] == hosts[i]
  }

  datatype BindResult = Listening(sockets: seq<nat>, plan: ListenPlan) | Refused(failure: Failure)

  /** One attempt: the loop over the plan's hosts. */
  method TryBind(table: SocketTable, plan: ListenPlan, fallback: bool, script: Script, attempt: nat)
    returns (sockets: seq<nat>, dropped: set<string>, failure: Option<Failure>)
    requires table.Valid()
    modifies table
    ensures table.Valid()
    ensures var p := Attempt(plan, fallback, script, attempt);
            p.dropped == dropped && p.failure == failure && SocketsFor(table.hostOf, sockets, p.bound)
    ensures table.open == old(table.open) + SetOf(sockets) && old(table.open) !! SetOf(sockets)
  {
    sockets, dropped, failure := [], {}, None;
    var hosts := plan.Hosts();
    var n := 0;
    while n < |hosts| && failure.None?
      invariant n <= |hosts| && table.Valid() && old(table.open) <= table.open
      invariant var p := Scan(plan, fallback, script, attempt, n);
                p.dropped == dropped && p.failure == failure && SocketsFor(table.hostOf, sockets, p.bound)
      invariant table.open == old(table.open) + SetOf(sockets) && old(table.open) !! SetOf(sockets)
      decreases |hosts| - n
    {
      var answer := script(attempt, n);
      var sock := table.Bind(hosts[n], answer);
      if sock.Some? {
        assert SetOf(sockets + [sock.value]) == SetOf(sockets) + {sock.value};
        sockets := sockets + [sock.value];
      } else {
        var kind := Classify(answer.err);
        if kind == NotAvailable && fallback && hosts[n] in plan.NetworkAddresses() {
          dropped := dropped + {hosts[n]};
        } else {
          failure := Some(Failure(kind, hosts[n]));
        }
      }
      n := n + 1;
    }
    if failure.Some? {
      FailureStays(plan, fallback, script, attempt, n);
    }
  }

  lemma {:induction false} FailureStays(plan: ListenPlan, fallback: bool, script: Script, attempt: nat, n: nat)
    requires n <= |plan.Hosts()| && Scan(plan, fallback, script, attempt, n).failure.Some?
    ensures Attempt(plan, fallback, script, attempt) == Scan(plan, fallback, script, attempt, n)
    decreases |plan.Hosts()| - n
  {
    if n < |plan.Hosts()| {
      FailureStays(plan, fallback, script, attempt, n + 1);
    }
  }

  /** `bind_for_plan`. Whatever the system answers: on success exactly the
      returned sockets were left open, one for each address the last attempt
      bound, which for distinct addresses, or without fallback, are those of the plan
      returned; on failure none was. Only a port in use is tried again, and at most
      `max(1, retries)` attempts are made. */
  method BindForPlan(table: SocketTable, plan: ListenPlan, retries: int, fallback: bool, script: Script)
    returns (r: BindResult, attempts: nat)
    requires table.Valid()
    modifies table
    ensures table.Valid()
    ensures 1 <= attempts <= if retries > 1 then retries else 1
    ensures forall k :: 0 <= k < attempts - 1 ==>
                          var f := Attempt(plan, fallback, script, k).failure; f.Some? && f.value.kind == InUse
    ensures var last := Attempt(plan, fallback, script, attempts - 1);
            match r
            case Listening(sockets, served) =>
              && last.failure.None? && served == Served(plan, last)
              && SocketsFor(table.hostOf, sockets, last.bound)
              && (OwnAddressesOnly(plan) && (!fallback || Distinct(plan.Hosts())) ==>
                    SocketsFor(table.hostOf, sockets, served.Hosts()))
              && table.open == old(table.open) + SetOf(sockets)
              && old(table.open) !! SetOf(sockets)
            case Refused(failure) =>
              && last.failure == Some(failure)
              && (failure.kind == InUse ==> attempts == if retries > 1 then retries else 1)
              && table.open == old(table.open)
  {
    var limit: nat := if retries > 1 then retries else 1;
    attempts := 0;
    while true
      invariant table.Valid() && attempts < limit && table.open == old(table.open)
      invariant forall k :: 0 <= k < attempts ==>
                              var f := Attempt(plan, fallback, script, k).failure; f.Some? && f.value.kind == InUse
      decreases limit - attempts
    {
      var sockets, dropped, failure := TryBind(table, plan, fallback, script, attempts);
      attempts := attempts + 1;
      if failure.None? {
        if OwnAddressesOnly(plan) && (!fallback || Distinct(plan.Hosts())) {
          DistinctAgrees(plan, fallback, script, attempts - 1);
        }
        return Listening(sockets, if dropped == {} then plan else plan.Without(dropped)), attempts;
      }
      table.CloseAll(sockets);
      assert table.open == old(table.open);
      if failure.value.kind != InUse || attempts == limit {
        return Refused(failure.value), attempts;
      }
    }
  }

  // ---------------------------------------------------------------------
  // Sockets and plan agree
  // ---------------------------------------------------------------------

  predicate Distinct(s: seq<string>) {
    forall i, j :: 0 <= i < j < |s| ==> s[i] != s[j]
  }

  function Filter(s: seq<string>, dropped: set<string>): seq<string> {
    if s == [] then []
    else
      var front := Filter(s[..|s| - 1], dropped);
      if s[|s| - 1] in dropped then front else front + [s[|s| - 1]]
  }

  lemma {:induction false} FilterAppend(s: seq<string>, t: seq<string>, dropped: set<string>)
    ensures Filter(s + t, dropped) == Filter(s, dropped) + Filter(t, dropped)
  {
    if t == [] {
      assert s + t == s;
    } else {
      var n := |s + t| - 1;
      assert (s + t)[..n] == s + t[..|t| - 1];
      FilterAppend(s, t[..|t| - 1], dropped);
    }
  }

  lemma {:induction false} UndroppedIsFilter(interfaces: seq<Interface>, a: set<string>, b: set<string>)
    ensures Undropped(interfaces, a + b) == Filter(Undropped(interfaces, a), b)
  {
    if interfaces != [] {
      UndroppedIsFilter(interfaces[1..], a, b);
      var rest := Undropped(interfaces[1..], a);
      FilterAppend([interfaces[0].0], rest, b);
    }
  }

  lemma {:induction false} FilterIrrelevant(s: seq<string>, d: set<string>, h: string)
    requires h !in s
    ensures Filter(s, d + {h}) == Filter(s, d)
  {
    if s != [] {
      FilterIrrelevant(s[..|s| - 1], d, h);
    }
  }

  /** Only a choice of one adapter has addresses of its own, as `Resolve` and
      `Without` leave it. */
  predicate OwnAddressesOnly(plan: ListenPlan) {
    plan.choice.mode != OneAdapter ==> plan.interfaces == []
  }

  lemma DistinctKeepsLoopbackApart(plan: ListenPlan)
    requires Distinct(plan.Hosts()) && plan.choice.mode != Any
    ensures LOOPBACK !in plan.NetworkAddresses()
  {
    var own := plan.NetworkAddresses();
    var hosts := plan.Hosts();
    assert hosts[|own|] == LOOPBACK;
    forall i | 0 <= i < |own| ensures own[i] != LOOPBACK {
      assert hosts[i] == own[i] && hosts[i] != hosts[|own|];
    }
  }

  lemma {:induction false} ScanBinds(plan: ListenPlan, fallback: bool, script: Script, attempt: nat, n: nat)
    requires n <= |plan.Hosts()| && Distinct(plan.Hosts())
    requires Scan(plan, fallback, script, attempt, n).failure.None?
    ensures var p := Scan(plan, fallback, script, attempt, n);
            && p.bound == Filter(plan.Hosts()[..n], p.dropped)
            && forall h <- p.dropped :: h in plan.Hosts()[..n] && h in plan.NetworkAddresses()
  {
    if n > 0 {
      ScanBinds(plan, fallback, script, attempt, n - 1);
      var hosts := plan.Hosts();
      var p, q := Scan(plan, fallback, script, attempt, n - 1), Scan(plan, fallback, script, attempt, n);
      var host := hosts[n - 1];
      assert hosts[..n] == hosts[..n - 1] + [host];
      assert host !in hosts[..n - 1];
      assert hosts[..n][..n - 1] == hosts[..n - 1];
      if script(attempt, n - 1).Denied? {
        FilterIrrelevant(hosts[..n - 1], p.dropped, host);
      }
    }
  }

  lemma {:induction false} FilterNone(s: seq<string>)
    ensures Filter(s, {}) == s
  {
    if s != [] {
      FilterNone(s[..|s| - 1]);
    }
  }

  /** The addresses an attempt bound are those of the plan it serves, in order. */
  predicate Agrees(plan: ListenPlan, fallback: bool, script: Script, attempt: nat) {
    var p := Attempt(plan, fallback, script, attempt);
    p.failure.None? ==> p.bound == Served(plan, p).Hosts()
  }

  /** Without fallback an attempt binds every address or fails. */
  lemma {:induction false} ScanWithoutFallback(plan: ListenPlan, script: Script, attempt: nat, n: nat)
    requires n <= |plan.Hosts()| && Scan(plan, false, script, attempt, n).failure.None?
    ensures var p := Scan(plan, false, script, attempt, n); p.dropped == {} && p.bound == plan.Hosts()[..n]
  {
    if n > 0 {
      ScanWithoutFallback(plan, script, attempt, n - 1);
      assert plan.Hosts()[..n] == plan.Hosts()[..n - 1] + [plan.Hosts()[n - 1]];
    }
  }

  lemma DistinctAgrees(plan: ListenPlan, fallback: bool, script: Script, attempt: nat)
    requires OwnAddressesOnly(plan) && (fallback ==> Distinct(plan.Hosts()))
    ensures Agrees(plan, fallback, script, attempt)
  {
    var p := Attempt(plan, fallback, script, attempt);
    var hosts := plan.Hosts();
    if p.failure.None? {
      assert hosts[..|hosts|] == hosts;
      if !fallback {
        ScanWithoutFallback(plan, script, attempt, |hosts|);
      } else {
        ScanBinds(plan, true, script, attempt, |hosts|);
        DroppedServes(plan, p.dropped);
      }
    }
  }

  lemma DroppedServes(plan: ListenPlan, dropped: set<string>)
    requires OwnAddressesOnly(plan) && Distinct(plan.Hosts()) && forall h <- dropped :: h in plan.NetworkAddresses()
    ensures Filter(plan.Hosts(), dropped) == Served(plan, Progress([], dropped, None)).Hosts()
  {
    if dropped == {} {
      FilterNone(plan.Hosts());
    } else {
      var h :| h in dropped;
      assert plan.choice.mode == OneAdapter;
      DistinctKeepsLoopbackApart(plan);
      UndroppedIsFilter(plan.interfaces, plan.dropped, dropped);
      FilterAppend(plan.NetworkAddresses(), [LOOPBACK], dropped);
    }
  }

  // What goes wrong with a repeated address: refuse its second bind only, or
  // every bind of loopback when that is the repeated one.

  const UNAVAILABLE := Denied(OsError(99, None))

  function RefuseAt(j: nat): Script {
    (attempt: nat, i: nat) => if i == j then UNAVAILABLE else Granted
  }

  function RefuseLoopback(hosts: seq<string>): Script {
    (attempt: nat, i: nat) => if i < |hosts| && hosts[i] == LOOPBACK then UNAVAILABLE else Granted
  }

  lemma {:induction false} RefuseAtScan(plan: ListenPlan, i: nat, j: nat, n: nat)
    requires i < j < |plan.Hosts()| && n <= |plan.Hosts()|
    requires plan.Hosts()[i] == plan.Hosts()[j] && plan.Hosts()[j] in plan.NetworkAddresses()
    ensures var p := Scan(plan, true, RefuseAt(j), 0, n);
            && p.failure.None?
            && p.dropped == (if n > j then {plan.Hosts()[j]} else {})
            && (n > i ==> plan.Hosts()[i] in p.bound)
  {
    if n > 0 {
      RefuseAtScan(plan, i, j, n - 1);
      if n - 1 == i {
        var p := Scan(plan, true, RefuseAt(j), 0, n);
        assert p.bound[|p.bound| - 1] == plan.Hosts()[i];
      }
    }
  }

  lemma {:induction false} RefuseLoopbackScan(plan: ListenPlan, n: nat)
    requires n <= |plan.Hosts()| && LOOPBACK in plan.NetworkAddresses()
    ensures var p := Scan(plan, true, RefuseLoopback(plan.Hosts()), 0, n);
            && p.failure.None? && LOOPBACK !in p.bound
  {
    if n > 0 {
      RefuseLoopbackScan(plan, n - 1);
    }
  }

  /** Whatever the system answers, the sockets are for exactly the addresses of
      the plan returned: without fallback always, and with it for a plan of distinct
      addresses and for no other. */
  lemma AgreesExactlyWhenDistinct(plan: ListenPlan, fallback: bool)
    requires OwnAddressesOnly(plan)
    ensures (forall script, attempt :: Agrees(plan, fallback, script, attempt)) <==> !fallback || Distinct(plan.Hosts())
  {
    var hosts, own := plan.Hosts(), plan.NetworkAddresses();
    if !fallback || Distinct(hosts) {
      forall script, attempt ensures Agrees(plan, fallback, script, attempt) {
        DistinctAgrees(plan, fallback, script, attempt);
      }
    } else {
      var i, j :| 0 <= i < j < |hosts| && hosts[i] == hosts[j];
      assert hosts == own + [LOOPBACK] && hosts[i] == own[i];
      if hosts[j] == LOOPBACK {
        RefuseLoopbackScan(plan, |hosts|);
        var p := Attempt(plan, true, RefuseLoopback(hosts), 0);
        var served := Served(plan, p).Hosts();
        assert served[|served| - 1] == LOOPBACK;
        assert !Agrees(plan, true, RefuseLoopback(hosts), 0);
      } else {
        RefuseAtScan(plan, i, j, |hosts|);
        var p := Attempt(plan, true, RefuseAt(j), 0);
        UndroppedIn(plan.interfaces, plan.dropped + p.dropped, hosts[j]);
        var served := Served(plan, p).Hosts();
        assert hosts[j] !in served;
        assert !Agrees(plan, true, RefuseAt(j), 0);
      }
    }
  }

  /** A plan resolved against adapters that do not list the loopback address has
      distinct hosts exactly when the adapter's own addresses are. */
  lemma ResolvedIsDistinct(choice: ListenChoice, adapters: seq<Adapter>)
    requires forall a <- adapters :: LOOPBACK !in a.Ips()
    ensures var plan := Resolve(choice, adapters); Distinct(plan.Hosts()) <==> Distinct(plan.NetworkAddresses())
  {
    var plan := Resolve(choice, adapters);
    var own, hosts := plan.NetworkAddresses(), plan.Hosts();
    if choice.mode == OneAdapter {
      forall i | 0 <= i < |own| ensures own[i] != LOOPBACK {
        assert own[i] in own;
        ResolvedWithinChosen(choice, adapters, {}, own[i]);
      }
      assert forall i :: 0 <= i < |own| ==> hosts[i] == own[i];
    } else {
      assert own == [] && |hosts| == 1;
    }
  }

  /** On success the listener is reached on this computer: loopback is bound, or
      the wildcard is. */
  lemma BindsLoopbackOrWildcard(plan: ListenPlan, script: Script, attempt: nat)
    requires OwnAddressesOnly(plan) && Distinct(plan.Hosts())
    requires Attempt(plan, true, script, attempt).failure.None?
    ensures var bound := Attempt(plan, true, script, attempt).bound;
            if plan.choice.mode == Any then bound == [WILDCARD]
            else bound != [] && bound[|bound| - 1] == LOOPBACK && Distinct(bound)
  {
    DistinctAgrees(plan, true, script, attempt);
    var p := Attempt(plan, true, script, attempt);
    ScanBinds(plan, true, script, attempt, |plan.Hosts()|);
    assert plan.Hosts()[..|plan.Hosts()|] == plan.Hosts();
    FilterDistinct(plan.Hosts(), p.dropped);
  }

  lemma {:induction false} FilterDistinct(s: seq<string>, d: set<string>)
    requires Distinct(s)
    ensures Distinct(Filter(s, d)) && forall h <- Filter(s, d) :: h in s
  {
    if s != [] {
      FilterDistinct(s[..|s| - 1], d);
      assert s[|s| - 1] !in s[..|s| - 1];
    }
  }

  lemma ResolvedOwnsItsAddresses(choice: ListenChoice, adapters: seq<Adapter>, refused: set<string>)
    ensures OwnAddressesOnly(Resolve(choice, adapters)) && OwnAddressesOnly(Resolve(choice, adapters).Without(refused))
  {
  }
}
