/** The connection cap and the presence keys that self-identified connections hold
    up while they are open. */
module Presence {

  /** `live` gives each connection that holds a slot the name it has announced, "" for
      none, not yet, or no longer. */
  function Named(live: map<nat, string>, name: string): set<nat> {
    set c | c in live && live[c] == name
  }

  lemma NamedAnnounced(live: map<nat, string>, c: nat, name: string, other: string)
    requires (c in live ==> live[c] == "") && other != ""
    ensures Named(live[c := name], other) == Named(live, other) + if name == other then {c} else {}
  {
  }

  lemma NamedWithdrawn(live: map<nat, string>, c: nat, other: string)
    requires c in live && other != ""
    ensures Named(live[c := ""], other) == Named(live, other) - {c}
  {
  }

  lemma NamedReleased(live: map<nat, string>, c: nat, other: string)
    requires c in live && live[c] == "" && other != ""
    ensures Named(live - {c}, other) == Named(live, other)
  {
  }

  /** The count held for every announced name is the number of open connections that
      announced it, and a name nobody announces has none. */
  ghost predicate Counted(counts: map<string, nat>, live: map<nat, string>) {
    forall name :: name != "" ==>
      (name in counts <==> Named(live, name) != {}) &&
      (name in counts ==> counts[name] == |Named(live, name)|)
  }

  /** A key ever set reads whether some open connection announces its name, and the
      key of every announced name is set. */
  ghost predicate KeysTell(keys: map<string, bool>, live: map<nat, string>) {
    && (forall name <- keys :: keys[name] <==> Named(live, name) != {})
    && (forall name :: name != "" && Named(live, name) != {} ==> name in keys)
  }

  function CountOf(counts: map<string, nat>, name: string): nat {
    if name in counts then counts[name] else 0
  }

  lemma ConnectedCounts(counts: map<string, nat>, live: map<nat, string>, c: nat, name: string)
    requires name != "" && c in live && live[c] == "" && Counted(counts, live)
    ensures Counted(counts[name := CountOf(counts, name) + 1], live[c := name])
  {
    var r := counts[name := CountOf(counts, name) + 1];
    forall other | other != ""
      ensures (other in r <==> Named(live[c := name], other) != {}) &&
              (other in r ==> r[other] == |Named(live[c := name], other)|)
    {
      NamedAnnounced(live, c, name, other);
      assert c !in Named(live, other);
    }
  }

  lemma ConnectedKeys(keys: map<string, bool>, live: map<nat, string>, c: nat, name: string)
    requires name != "" && c in live && live[c] == "" && "" !in keys && KeysTell(keys, live)
    ensures KeysTell(keys[name := true], live[c := name])
  {
    assert c in Named(live[c := name], name);
    forall other | other != ""
      ensures Named(live[c := name], other) == Named(live, other) + if name == other then {c} else {}
    {
      NamedAnnounced(live, c, name, other);
    }
  }

  lemma DisconnectedCounts(counts: map<string, nat>, live: map<nat, string>, c: nat, name: string)
    requires name != "" && c in live && live[c] == name && Counted(counts, live)
    ensures CountOf(counts, name) == |Named(live[c := ""], name)| + 1
    ensures Counted(if CountOf(counts, name) > 1 then counts[name := CountOf(counts, name) - 1] else counts - {name},
                    live[c := ""])
  {
    assert c in Named(live, name);
    NamedWithdrawn(live, c, name);
    forall other | other != "" && other != name ensures Named(live[c := ""], other) == Named(live, other) {
      NamedWithdrawn(live, c, other);
      assert c !in Named(live, other);
    }
  }

  lemma DisconnectedKeys(keys: map<string, bool>, live: map<nat, string>, c: nat, name: string)
    requires name != "" && c in live && live[c] == name && "" !in keys && KeysTell(keys, live)
    ensures KeysTell(if Named(live, name) == {c} then keys[name := false] else keys, live[c := ""])
  {
    NamedWithdrawn(live, c, name);
    assert c in Named(live, name);
    forall other | other != "" && other != name ensures Named(live[c := ""], other) == Named(live, other) {
      NamedWithdrawn(live, c, other);
      assert c !in Named(live, other);
    }
  }

  lemma UnnamedChangesNothing(counts: map<string, nat>, keys: map<string, bool>,
                              live: map<nat, string>, other: map<nat, string>)
    requires "" !in keys && Counted(counts, live) && KeysTell(keys, live)
    requires forall name :: name != "" ==> Named(other, name) == Named(live, name)
    ensures Counted(counts, other) && KeysTell(keys, other)
  {
  }

  class Hub {
    const cap: nat
    var open: nat
    var counts: map<string, nat>
    var keys: map<string, bool>
    ghost var live: map<nat, string>

    ghost predicate Valid()
      reads this
    {
      && open == |live| <= cap
      && "" !in counts && "" !in keys
      && Counted(counts, live) && KeysTell(keys, live)
    }

    constructor (max: nat)
      ensures Valid() && live == map[] && cap == max
    {
      cap := max;
      open, counts, keys, live := 0, map[], map[], map[];
    }

    /** A handshake takes a slot, or is refused at the cap, before it is accepted. */
    method TakeSlot(ghost c: nat) returns (admitted: bool)
      requires Valid() && c !in live
      modifies this
      ensures Valid() && admitted == (|old(live)| < cap)
      ensures live == (if admitted then old(live)[c := ""] else old(live)) && keys == old(keys)
    {
      if open >= cap {
        return false;
      }
      open := open + 1;
      forall other | other != "" ensures Named(live[c := ""], other) == Named(live, other) {
        NamedAnnounced(live, c, "", other);
      }
      UnnamedChangesNothing(counts, keys, live, live[c := ""]);
      live := live[c := ""];
      return true;
    }

    /** `_integration_connected`: a connection with a slot announces its name. */
    method IntegrationConnected(ghost c: nat, name: string)
      requires Valid() && c in live && live[c] == "" && name != ""
      modifies this
      ensures Valid() && live == old(live)[c := name] && keys == old(keys)[name := true]
    {
      ConnectedCounts(counts, live, c, name);
      ConnectedKeys(keys, live, c, name);
      counts := counts[name := CountOf(counts, name) + 1];
      keys := keys[name := true];
      assert live[c := name].Keys == live.Keys;
      live := live[c := name];
    }

    /** `_integration_disconnected`: the key drops only with the last connection of
        that name, and is not written while another still announces it. */
    method IntegrationDisconnected(ghost c: nat, name: string)
      requires Valid() && c in live && live[c] == name && name != ""
      modifies this
      ensures Valid() && live == old(live)[c := ""]
      ensures keys == if Named(old(live), name) == {c} then old(keys)[name := false] else old(keys)
    {
      DisconnectedCounts(counts, live, c, name);
      DisconnectedKeys(keys, live, c, name);
      NamedWithdrawn(live, c, name);
      assert c in Named(live, name);
      assert live[c := ""].Keys == live.Keys;
      var remaining := CountOf(counts, name) - 1;
      if remaining > 0 {
        assert Named(live, name) != {c};
        counts := counts[name := remaining];
      } else {
        assert Named(live, name) == Named(live[c := ""], name) + {c} == {c};
        counts := counts - {name};
        keys := keys[name := false];
      }
      live := live[c := ""];
    }

    /** The last of a connection's teardown gives its slot back. */
    method ReleaseSlot(ghost c: nat)
      requires Valid() && c in live && live[c] == ""
      modifies this
      ensures Valid() && live == old(live) - {c} && keys == old(keys)
    {
      ghost var left := live - {c};
      assert left.Keys == live.Keys - {c};
      forall other | other != "" ensures Named(left, other) == Named(live, other) {
        NamedReleased(live, c, other);
      }
      UnnamedChangesNothing(counts, keys, live, left);
      open := open - 1;
      live := left;
    }
  }
}
