/** The mounting code itself: it edits the app's route list and the module's tables
    in place. Each method is proved against the operation of `PluginRoutes` that says
    what it does to the whole state, so what holds of every history there
    (`EveryHistoryAgrees`, `StoppedForever`) holds of every sequence of calls here. */
module PluginMounts {
  import opened Text
  import opened PluginRoutes

  lemma {:induction false} WithoutNext(routes: seq<Route>, i: nat, m: Mount)
    requires i < |routes|
    ensures Without(routes[..i + 1], m) ==
            Without(routes[..i], m) + if Under(routes[i].path, PrefixOf(m)) then [] else [routes[i]]
  {
    assert routes[..i + 1] == routes[..i] + [routes[i]];
    FilterAppend(routes[..i], [routes[i]], (r: Route) => !Under(r.path, PrefixOf(m)));
  }

  class PluginHost {
    var routes: seq<Route>
    var nextRoute: nat
    var generations: map<Mount, nat>
    var nextGeneration: nat
    var aliases: map<string, string>
    var panelPaths: map<string, Patterns>
    ghost var mounted: map<Mount, seq<Route>>

    ghost function State(): Registry
      reads this
    {
      Registry(App(routes, nextRoute, mounted), generations, nextGeneration, aliases, panelPaths)
    }

    constructor (base: seq<Route>, next: nat)
      ensures State() == Initial(base, next)
    {
      routes, nextRoute := base, next;
      generations, nextGeneration, aliases, panelPaths := map[], 0, map[], map[];
      mounted := map[];
    }

    /** `_unmount_prefix`. */
    method UnmountPrefix(m: Mount)
      modifies `routes, `mounted
      ensures State().app == old(State().app).Drop(m)
    {
      var keep := [];
      var i := 0;
      while i < |routes|
        invariant i <= |routes| && routes == old(routes) && mounted == old(mounted)
        invariant keep == Without(routes[..i], m)
      {
        WithoutNext(routes, i, m);
        if !Under(routes[i].path, PrefixOf(m)) {
          keep := keep + [routes[i]];
        }
        i := i + 1;
      }
      assert routes[..i] == routes;
      routes := keep;
      mounted := mounted - {m};
    }

    /** `include_policy_router`: the router's routes, appended under the mount. */
    method Include(m: Mount, router: seq<string>)
      modifies `routes, `nextRoute, `mounted
      ensures State().app == old(State().app).Include(m, router)
    {
      ghost var made := Made(router, m, nextRoute);
      var i := 0;
      while i < |router|
        invariant i <= |router| && nextRoute == old(nextRoute) + i && mounted == old(mounted)
        invariant routes == old(routes) + made[..i]
      {
        routes := routes + [Route(nextRoute, PrefixOf(m) + router[i])];
        nextRoute := nextRoute + 1;
        assert made[..i + 1] == made[..i] + [made[i]];
        i := i + 1;
      }
      assert made[..i] == made;
      mounted := mounted[m := made];
    }

    method UnmountPluginRouter(p: string)
      modifies this
      ensures State() == UnmountExt(old(State()), p)
    {
      generations := generations - {Ext(p)};
      panelPaths := panelPaths - {p};
      UnmountPrefix(Ext(p));
    }

    /** `panel` is the parsed pattern list, or none where parsing raised. */
    method MountPluginRouter(p: string, router: seq<string>, panel: Option<Patterns>)
      modifies this
      ensures State() == MountExt(old(State()), p, router, panel)
    {
      if panel.None? {
        return;
      }
      UnmountPluginRouter(p);
      generations := generations[Ext(p) := nextGeneration];
      nextGeneration := nextGeneration + 1;
      Include(Ext(p), router);
      if panel.value != [] {
        panelPaths := panelPaths[p := panel.value];
      }
    }

    /** Every alias the plugin owns goes; there is one at most. */
    method UnmountPluginGuestRouter(p: string)
      requires AliasesAgree(aliases, mounted.Keys)
      modifies this
      ensures State() == UnmountGuest(old(State()), p)
    {
      generations := generations - {Guest(p)};
      UnmountPrefix(Guest(p));
      ghost var held := AliasOf(aliases, p);
      ghost var u := State();
      var owners := aliases;
      var left := owners.Keys;
      while left != {}
        invariant left <= owners.Keys && owners == old(aliases)
        invariant State() == if held.None? || held.value in left then u else WithoutAlias(u, held.value)
      {
        var alias :| alias in left;
        left := left - {alias};
        if owners[alias] == p {
          assert held == Some(alias);
          UnmountPrefix(Alias(alias));
          aliases := aliases - {alias};
        }
      }
    }

    /** `_mount_guest_alias`. */
    method MountGuestAlias(p: string, router: seq<string>, alias: string)
      modifies this
      ensures State() == MountAlias(old(State()), p, router, alias)
    {
      if alias in aliases && aliases[alias] != p {
        return;
      }
      var i := 0;
      while i < |routes|
        invariant i <= |routes| && State() == old(State())
        invariant forall r <- routes[..i] :: FirstSegment(r.path) != alias
      {
        if FirstSegment(routes[i].path) == alias {
          assert routes[i] in routes;
          return;
        }
        i := i + 1;
      }
      assert routes[..i] == routes;
      Include(Alias(alias), router);
      aliases := aliases[alias := p];
    }

    method MountPluginGuestRouter(p: string, router: seq<string>, alias: Option<string>)
      requires AliasesAgree(aliases, mounted.Keys)
      modifies this
      ensures State() == MountGuest(old(State()), p, router, alias)
    {
      UnmountPluginGuestRouter(p);
      generations := generations[Guest(p) := nextGeneration];
      nextGeneration := nextGeneration + 1;
      Include(Guest(p), router);
      if alias.Some? {
        MountGuestAlias(p, router, alias.value);
      }
    }
  }
}
