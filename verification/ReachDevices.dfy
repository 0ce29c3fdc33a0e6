/** Which adapter device traffic uses: the stored choice resolved to an address
    to bind, and the rollback mirror that keeps the last one. */
module ReachDevices {
  import opened Text
  import opened ConfigTree
  import opened SystemConfig
  import opened Listen

  const KEY := "reach_devices_through"
  const CONTROL_INTERFACE := "control_interface"
  const STALE_AFTER := 60.0

  /** The choice against the adapters present. */
  datatype Resolved = Resolved(
    identity: AdapterIdentity,
    address: string,
    adapterName: string,
    connected: bool,
    linkLocalAddress: string,
    link: bool)
  {
    /** Where a broadcast or a multicast goes out from; "" for nowhere. */
    function BroadcastSource(): string {
      if !link then "" else if !connected then linkLocalAddress else address
    }
  }

  function LinkLocalIps(a: Adapter): seq<string> {
    seq(|a.linkLocal|, i requires 0 <= i < |a.linkLocal| => a.linkLocal[i].0)
  }

  function Cleaned(identity: AdapterIdentity): AdapterIdentity {
    map k | k in identity && k in IDENTITY_FIELDS && identity[k] != "" :: identity[k]
  }

  /** Some adapter other than the matched one holds `address` now. */
  predicate HeldByAnother(address: string, adapters: seq<Adapter>, matched: Option<nat>) {
    exists i :: 0 <= i < |adapters| && Some(i) != matched && address in adapters[i].Ips()
  }

  /** `resolve`; `last` is the address the choice resolved to before. */
  function ResolveReach(given: AdapterIdentity, adapters: seq<Adapter>, last: string): Resolved {
    var identity := Cleaned(given);
    if identity == map[] then Resolved(map[], "", "", true, "", true)
    else if IsLiteral(identity) then
      var address := identity["address"];
      match FirstHolding(address, adapters)
      case None => Resolved(identity, address, "", false, "", false)
      case Some(i) => Resolved(identity, address, adapters[i].name, adapters[i].link, "", adapters[i].link)
    else
      match MatchAdapter(identity, adapters)
      case None =>
        Resolved(identity, if HeldByAnother(last, adapters, None) then "" else last,
                 Field(identity, "name"), false, "", false)
      case Some(i) =>
        var a := adapters[i];
        var linkLocal := if a.linkLocal != [] then a.linkLocal[0].0 else "";
        if a.addresses == [] then
          Resolved(identity, if HeldByAnother(last, adapters, Some(i)) then "" else last,
                   a.name, false, linkLocal, a.link)
        else Resolved(identity, a.Ips()[0], a.name, a.link, linkLocal, a.link)
  }

  /** An adapter chosen by name or MAC, not by address. */
  predicate Named(identity: AdapterIdentity) {
    Cleaned(identity) != map[] && !IsLiteral(Cleaned(identity))
  }

  /** The chosen adapter, when it is present. */
  function Matched(identity: AdapterIdentity, adapters: seq<Adapter>): (r: Option<nat>)
    ensures r.Some? ==> r.value < |adapters|
  {
    MatchAdapter(Cleaned(identity), adapters)
  }

  predicate HoldsAnAddress(identity: AdapterIdentity, adapters: seq<Adapter>) {
    Matched(identity, adapters).Some? && adapters[Matched(identity, adapters).value].addresses != []
  }

  /** Traffic of an adapter chosen by name or MAC is bound to that adapter's own
      first address; where it has none, to the last known one while no adapter present
      holds it as an address, and else to nothing. */
  lemma NeverWidens(identity: AdapterIdentity, adapters: seq<Adapter>, last: string)
    requires Named(identity)
    ensures var r := ResolveReach(identity, adapters, last);
            if HoldsAnAddress(identity, adapters) then
              r.address == adapters[Matched(identity, adapters).value].Ips()[0]
            else
              r.address == if exists a <- adapters :: last in a.Ips() then "" else last
  {
    if !HoldsAnAddress(identity, adapters) {
      var m := Matched(identity, adapters);
      assert m.Some? ==> adapters[m.value].Ips() == [];
      if a :| a in adapters && last in a.Ips() {
        var i :| 0 <= i < |adapters| && adapters[i] == a;
        assert Some(i) != m && HeldByAnother(last, adapters, m);
      }
    }
  }

  /** The kept address can be another adapter's 169.254 address, because the
      check reads the other addresses alone: exactly when the last address is
      such a one and no other adapter also holds it as an ordinary address. */
  lemma KeptOnAnothersLinkLocal(identity: AdapterIdentity, adapters: seq<Adapter>, last: string, other: nat)
    requires Named(identity) && !HoldsAnAddress(identity, adapters) && last != ""
    requires other < |adapters| && Some(other) != Matched(identity, adapters)
    ensures ResolveReach(identity, adapters, last).address in LinkLocalIps(adapters[other])
              && ResolveReach(identity, adapters, last).address != ""
            <==> last in LinkLocalIps(adapters[other]) && !HeldByAnother(last, adapters, Matched(identity, adapters))
  {
  }

  /** A broadcast leaves from the chosen adapter itself, and does whenever that one is
      connected and has an address, from its first, or from its own 169.254 address where
      it has no other. */
  lemma BroadcastsFromTheChosenAdapter(identity: AdapterIdentity, adapters: seq<Adapter>, last: string)
    requires Cleaned(identity) != map[]
    ensures var r := ResolveReach(identity, adapters, last);
            var source := r.BroadcastSource();
            if IsLiteral(Cleaned(identity)) then
              var address := Cleaned(identity)["address"];
              source == (if FirstHolding(address, adapters).Some? && adapters[FirstHolding(address, adapters).value].link
                         then address else "")
            else
              match Matched(identity, adapters)
              case None => source == ""
              case Some(i) =>
                var a := adapters[i];
                source == if !a.link then ""
                          else if a.addresses != [] then a.Ips()[0]
                          else if a.linkLocal != [] then a.linkLocal[0].0
                          else ""
  {
  }

  // ---------------------------------------------------------------------
  // The address through a history of adapters and choices
  // ---------------------------------------------------------------------

  datatype Reading = Reading(identity: AdapterIdentity, adapters: seq<Adapter>)

  /** The rollback mirror, as it is read, after each reading in turn has refreshed
      it. */
  function MirrorAfter(initial: string, history: seq<Reading>): string {
    if history == [] then Strip(initial)
    else
      var r := history[|history| - 1];
      Strip(ResolveReach(r.identity, r.adapters, MirrorAfter(initial, history[..|history| - 1])).address)
  }

  /** Reading `r` puts `address` in place because its own choice resolves to it. */
  predicate Establishes(r: Reading, address: string) {
    if IsLiteral(Cleaned(r.identity)) then address == Strip(Cleaned(r.identity)["address"])
    else Named(r.identity) && HoldsAnAddress(r.identity, r.adapters)
         && address == Strip(r.adapters[Matched(r.identity, r.adapters).value].Ips()[0])
  }

  /** Reading `r` keeps an earlier `address`: its own adapter has none, and
      nobody present holds this one. */
  predicate Keeps(r: Reading, address: string) {
    Named(r.identity) && !HoldsAnAddress(r.identity, r.adapters) && forall a <- r.adapters :: address !in a.Ips()
  }

  predicate KeptSince(history: seq<Reading>, from: nat, address: string) {
    forall i :: from <= i < |history| ==> Keeps(history[i], address)
  }

  lemma MirrorStep(r: Reading, before: string)
    requires Strip(before) == before
    ensures var m := Strip(ResolveReach(r.identity, r.adapters, before).address);
            m != "" ==> Establishes(r, m) || (Keeps(r, m) && m == before)
  {
    if Named(r.identity) {
      NeverWidens(r.identity, r.adapters, before);
    }
  }

  predicate KeptFromTheStart(initial: string, history: seq<Reading>, m: string) {
    m == Strip(initial) && KeptSince(history, 0, m)
  }

  predicate EstablishedAt(history: seq<Reading>, t: nat, m: string) {
    t < |history| && Establishes(history[t], m) && KeptSince(history, t + 1, m)
  }

  predicate Provenance(initial: string, history: seq<Reading>, m: string) {
    m == "" || KeptFromTheStart(initial, history, m) || exists t :: 0 <= t < |history| && EstablishedAt(history, t, m)
  }

  lemma KeptSinceGrows(front: seq<Reading>, r: Reading, from: nat, m: string)
    requires KeptSince(front, from, m) && Keeps(r, m)
    ensures KeptSince(front + [r], from, m)
  {
  }

  lemma EstablishedGrows(front: seq<Reading>, r: Reading, t: nat, m: string)
    requires EstablishedAt(front, t, m) && Keeps(r, m)
    ensures EstablishedAt(front + [r], t, m)
  {
    KeptSinceGrows(front, r, t + 1, m);
    assert (front + [r])[t] == front[t];
  }

  lemma ProvenanceGrows(initial: string, front: seq<Reading>, r: Reading, before: string, m: string)
    requires Provenance(initial, front, before)
    requires m == "" || Establishes(r, m) || (Keeps(r, m) && m == before)
    ensures Provenance(initial, front + [r], m)
  {
    if m != "" && Establishes(r, m) {
      assert (front + [r])[|front|] == r;
      assert EstablishedAt(front + [r], |front|, m);
    } else if m != "" {
      if KeptFromTheStart(initial, front, m) {
        KeptSinceGrows(front, r, 0, m);
      } else {
        var t :| 0 <= t < |front| && EstablishedAt(front, t, m);
        EstablishedGrows(front, r, t, m);
      }
    }
  }

  lemma MirrorNext(initial: string, front: seq<Reading>, r: Reading)
    ensures MirrorAfter(initial, front + [r]) ==
            Strip(ResolveReach(r.identity, r.adapters, MirrorAfter(initial, front)).address)
  {
    assert (front + [r])[..|front|] == front;
  }

  lemma MirrorIsStripped(initial: string, history: seq<Reading>)
    ensures Strip(MirrorAfter(initial, history)) == MirrorAfter(initial, history)
  {
    if history == [] {
      TrimIdempotent(initial, IsSpace);
    } else {
      var r, front := history[|history| - 1], history[..|history| - 1];
      TrimIdempotent(ResolveReach(r.identity, r.adapters, MirrorAfter(initial, front)).address, IsSpace);
    }
  }

  /** Over any sequence of adapter changes and choice changes, a kept address was
      some choice's own at one reading (or was there before the first), and at
      every reading since, the chosen adapter had no address and no adapter
      present held this one. */
  lemma {:induction false} MirrorProvenance(initial: string, history: seq<Reading>)
    ensures Provenance(initial, history, MirrorAfter(initial, history))
  {
    if history != [] {
      var front, r := history[..|history| - 1], history[|history| - 1];
      assert history == front + [r];
      MirrorProvenance(initial, front);
      MirrorIsStripped(initial, front);
      MirrorNext(initial, front, r);
      MirrorStep(r, MirrorAfter(initial, front));
      ProvenanceGrows(initial, front, r, MirrorAfter(initial, front), MirrorAfter(initial, history));
    }
  }

  /** A mirror can come to hold a 169.254 address that another adapter has: a literal
      choice puts it there, and a choice of an adapter without an address, or not
      present, then keeps it. */
  lemma MirrorOnAnothersLinkLocal(x: string, identity: AdapterIdentity, adapters: seq<Adapter>, other: nat)
    requires x != "" && Strip(x) == x && Named(identity) && !HoldsAnAddress(identity, adapters)
    requires other < |adapters| && x in LinkLocalIps(adapters[other])
    requires forall a <- adapters :: x !in a.Ips()
    ensures var history := [Reading(map["address" := x], adapters), Reading(identity, adapters)];
            MirrorAfter("", history) == x
  {
    var literal := Reading(map["address" := x], adapters);
    var history := [literal, Reading(identity, adapters)];
    assert Cleaned(map["address" := x]) == map["address" := x] && "address" in map["address" := x];
    assert IsLiteral(map["address" := x]);
    assert history[..1] == [literal] && [literal][..0] == [];
    assert ResolveReach(literal.identity, adapters, MirrorAfter("", [])).address == x;
    assert MirrorAfter("", [literal]) == x;
    assert !HeldByAnother(x, adapters, Matched(identity, adapters));
    assert ResolveReach(identity, adapters, x).address == x;
  }

  // ---------------------------------------------------------------------
  // The kept answer
  // ---------------------------------------------------------------------

  datatype Kept = Kept(identity: AdapterIdentity, resolved: Resolved, at: real)

  class Resolver {
    var cached: Option<Kept>
    ghost var seen: seq<Adapter>  // the enumeration the kept answer came from
    ghost var lastThen: string    // and the mirror at that time

    ghost predicate Valid()
      reads this
    {
      cached.Some? ==>
        && cached.value.identity != map[]
        && cached.value.resolved == ResolveReach(cached.value.identity, seen, lastThen)
    }

    constructor ()
      ensures Valid() && cached == None
    {
      cached, seen, lastThen := None, [], "";
    }

    /** `current`: `given` is a list handed in by the caller, `enumerated` what
        the operating system would report now. */
    method Current(
      choice: AdapterIdentity, last: string, now: real,
      given: Option<seq<Adapter>>, enumerated: seq<Adapter>, again: bool)
      returns (r: Resolved)
      requires Valid() && choice == Cleaned(choice)
      modifies this
      ensures Valid()
      ensures choice == map[] ==> r == ResolveReach(map[], enumerated, last) && cached == old(cached)
      ensures choice != map[] && IsLiteral(choice) && given.None? ==>
                r == Resolved(choice, choice["address"], "", true, "", true) && cached == old(cached)
      ensures choice != map[] && !(IsLiteral(choice) && given.None?) ==>
                && cached.Some? && cached.value.identity == choice && r == cached.value.resolved
                && r == ResolveReach(choice, seen, lastThen)
                && (if given.None? && !again && old(cached).Some? && old(cached).value.identity == choice
                       && now - old(cached).value.at < STALE_AFTER
                    then cached == old(cached) && seen == old(seen) && lastThen == old(lastThen)
                    else cached.value.at == now && lastThen == last
                         && seen == (if given.Some? then given.value else enumerated))
    {
      if choice == map[] {
        return Resolved(map[], "", "", true, "", true);
      }
      if IsLiteral(choice) && given.None? {
        return Resolved(choice, choice["address"], "", true, "", true);
      }
      if given.None? && !again && cached.Some? && cached.value.identity == choice
         && now - cached.value.at < STALE_AFTER {
        return cached.value.resolved;
      }
      var found := if given.Some? then given.value else enumerated;
      r := ResolveReach(choice, found, last);
      cached, seen, lastThen := Some(Kept(choice, r, now)), found, last;
    }

    method Forget()
      modifies this
      ensures Valid() && cached == None
    {
      cached := None;
    }
  }

  /** A literal address answered without an enumeration is not checked against
      the adapters at all: broadcasts go out from it whether or not a connected
      adapter holds it, which only resolving against a list would find out. */
  lemma LiteralIsTakenAsItIs(address: string, adapters: seq<Adapter>, last: string)
    requires address != ""
    ensures var choice := map["address" := address];
            var unchecked := Resolved(choice, address, "", true, "", true);
            && unchecked.BroadcastSource() == address
            && (ResolveReach(choice, adapters, last).BroadcastSource() == address
                <==> FirstHolding(address, adapters).Some? && adapters[FirstHolding(address, adapters).value].link)
  {
    var choice := map["address" := address];
    assert Cleaned(choice) == choice && "address" in choice;
    assert IsLiteral(choice);
  }
}
