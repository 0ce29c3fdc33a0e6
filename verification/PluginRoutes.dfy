/** The routes plugins mount and unmount at run time, against the simple record of
    who is mounted where. */
module PluginRoutes {
  import opened Text

  /** A mounted route object and its path. */
  datatype Route = Route(id: nat, path: string)

  /** A place a router can be mounted. */
  datatype Mount = Ext(plugin: string) | Guest(plugin: string) | Alias(name: string)

  const PLUGINS := "/api/plugins/"

  function PrefixOf(m: Mount): string {
    match m
    case Ext(p) => PLUGINS + p + "/ext"
    case Guest(p) => PLUGINS + p + "/guest"
    case Alias(a) => "/" + a
  }

  /** Plugin ids hold no slash; an alias is one segment, as the loader checks, and
      not the platform's own. */
  predicate Proper(m: Mount) {
    match m
    case Ext(p) => '/' !in p
    case Guest(p) => '/' !in p
    case Alias(a) => a != "" && '/' !in a && a != "api"
  }

  /** On a path-segment boundary. */
  predicate Under(path: string, prefix: string) {
    path == prefix || prefix + "/" <= path
  }

  // ---------------------------------------------------------------------
  // A path is under one mount at most
  // ---------------------------------------------------------------------

  function Segment(s: string): string {
    if s == "" || s[0] == '/' then "" else [s[0]] + Segment(s[1..])
  }

  function AfterSegment(s: string): string {
    if s == "" then "" else if s[0] == '/' then s[1..] else AfterSegment(s[1..])
  }

  lemma {:induction false} SegmentOf(a: string, rest: string)
    requires '/' !in a && (rest == "" || rest[0] == '/')
    ensures Segment(a + rest) == a
    ensures AfterSegment(a + rest) == if rest == "" then "" else rest[1..]
  {
    if a == "" {
      assert a + rest == rest;
    } else {
      assert (a + rest)[1..] == a[1..] + rest;
      SegmentOf(a[1..], rest);
    }
  }

  /** What a path says about where it is mounted. */
  function PlaceOf(path: string): (string, string, string) {
    var first := Segment(path[if path == "" then 0 else 1..]);
    if PLUGINS <= path then
      var rest := path[|PLUGINS|..];
      ("api", Segment(rest), Segment(AfterSegment(rest)))
    else (first, "", "")
  }

  function PlaceOfMount(m: Mount): (string, string, string) {
    match m
    case Ext(p) => ("api", p, "ext")
    case Guest(p) => ("api", p, "guest")
    case Alias(a) => (a, "", "")
  }

  lemma UnderPlugin(path: string, p: string, kind: string)
    requires '/' !in p && '/' !in kind && Under(path, PLUGINS + p + "/" + kind)
    ensures PlaceOf(path) == ("api", p, kind)
  {
    var prefix := PLUGINS + p + "/" + kind;
    var tail := path[|prefix|..];
    assert path == prefix + tail;
    assert tail == "" || tail[0] == '/';
    assert path == PLUGINS + (p + ("/" + (kind + tail)));
    SegmentOf(p, "/" + (kind + tail));
    assert ("/" + (kind + tail))[1..] == kind + tail;
    SegmentOf(kind, tail);
  }

  lemma PluginsBeginWithApi(path: string)
    requires PLUGINS <= path
    ensures Segment(path[1..]) == "api"
  {
    var rest := path[4..];
    assert path[1..] == "api" + rest;
    assert rest[0] == path[4] == PLUGINS[4] == '/';
    SegmentOf("api", rest);
  }

  lemma UnderAlias(path: string, a: string)
    requires Proper(Alias(a)) && Under(path, "/" + a)
    ensures PlaceOf(path) == (a, "", "")
    ensures Segment(TrimLeft(path, c => c == '/')) == a
  {
    var prefix := "/" + a;
    var tail := path[|prefix|..];
    assert path == prefix + tail && path[1..] == a + tail;
    SegmentOf(a, tail);
    assert path[1] == a[0] && a[0] in a;
    assert TrimLeft(path, c => c == '/') == path[1..];
    if PLUGINS <= path {
      PluginsBeginWithApi(path);
    }
  }

  lemma UnderPlace(path: string, m: Mount)
    requires Proper(m) && Under(path, PrefixOf(m))
    ensures PlaceOf(path) == PlaceOfMount(m)
  {
    match m
    case Ext(p) => assert PrefixOf(m) == PLUGINS + p + "/" + "ext"; UnderPlugin(path, p, "ext");
    case Guest(p) => assert PrefixOf(m) == PLUGINS + p + "/" + "guest"; UnderPlugin(path, p, "guest");
    case Alias(a) => UnderAlias(path, a);
  }

  lemma UnderOneMount(path: string, m: Mount, n: Mount)
    requires Proper(m) && Proper(n) && Under(path, PrefixOf(m)) && Under(path, PrefixOf(n))
    ensures m == n
  {
    UnderPlace(path, m);
    UnderPlace(path, n);
    assert "ext"[0] != "guest"[0];
  }

  // ---------------------------------------------------------------------
  // Filtering the route list
  // ---------------------------------------------------------------------

  function Filter(routes: seq<Route>, keep: Route -> bool): seq<Route> {
    if routes == [] then []
    else
      var rest := Filter(routes[1..], keep);
      if keep(routes[0]) then [routes[0]] + rest else rest
  }

  lemma {:induction false} FilterAppend(a: seq<Route>, b: seq<Route>, keep: Route -> bool)
    ensures Filter(a + b, keep) == Filter(a, keep) + Filter(b, keep)
  {
    if a == [] {
      assert a + b == b;
    } else {
      assert (a + b)[1..] == a[1..] + b;
      FilterAppend(a[1..], b, keep);
    }
  }

  lemma {:induction false} FilterSame(routes: seq<Route>, f: Route -> bool, g: Route -> bool)
    requires forall r <- routes :: f(r) == g(r)
    ensures Filter(routes, f) == Filter(routes, g)
  {
    if routes != [] {
      FilterSame(routes[1..], f, g);
    }
  }

  lemma {:induction false} FilterTwice(routes: seq<Route>, f: Route -> bool, g: Route -> bool)
    ensures Filter(Filter(routes, f), g) == Filter(routes, r => f(r) && g(r))
  {
    if routes != [] {
      FilterTwice(routes[1..], f, g);
      var rest := Filter(routes[1..], f);
      if f(routes[0]) {
        assert ([routes[0]] + rest)[1..] == rest;
      }
    }
  }

  lemma {:induction false} FilterAll(routes: seq<Route>, f: Route -> bool)
    requires forall r <- routes :: f(r)
    ensures Filter(routes, f) == routes
  {
    if routes != [] {
      FilterAll(routes[1..], f);
    }
  }

  lemma {:induction false} FilterNone(routes: seq<Route>, f: Route -> bool)
    requires forall r <- routes :: !f(r)
    ensures Filter(routes, f) == []
  {
    if routes != [] {
      FilterNone(routes[1..], f);
    }
  }

  lemma {:induction false} InFilter(routes: seq<Route>, f: Route -> bool, r: Route)
    ensures r in Filter(routes, f) <==> r in routes && f(r)
  {
    if routes != [] {
      InFilter(routes[1..], f, r);
    }
  }

  function Routed(routes: seq<Route>, m: Mount): seq<Route> {
    Filter(routes, (r: Route) => Under(r.path, PrefixOf(m)))
  }

  /** `_unmount_prefix`. */
  function Without(routes: seq<Route>, m: Mount): seq<Route> {
    Filter(routes, (r: Route) => !Under(r.path, PrefixOf(m)))
  }

  /** The routes no mount in `mounts` covers. */
  function Others(routes: seq<Route>, mounts: set<Mount>): seq<Route> {
    Filter(routes, (r: Route) => forall m <- mounts :: !Under(r.path, PrefixOf(m)))
  }

  lemma WithoutRouted(routes: seq<Route>, m: Mount, n: Mount)
    requires Proper(m) && Proper(n)
    ensures Routed(Without(routes, m), n) == if m == n then [] else Routed(routes, n)
  {
    var f, g := (r: Route) => !Under(r.path, PrefixOf(m)), (r: Route) => Under(r.path, PrefixOf(n));
    FilterTwice(routes, f, g);
    var both := (r: Route) => f(r) && g(r);
    if m == n {
      FilterNone(routes, both);
    } else {
      forall r <- routes ensures both(r) == g(r) {
        if Under(r.path, PrefixOf(m)) && Under(r.path, PrefixOf(n)) {
          UnderOneMount(r.path, m, n);
        }
      }
      FilterSame(routes, both, g);
    }
  }

  /** A router's paths, each empty or beginning with a slash. */
  predicate RouterPaths(router: seq<string>) {
    forall rel <- router :: rel == "" || rel[0] == '/'
  }

  /** The route objects made for a router at a mount. */
  function Made(router: seq<string>, m: Mount, next: nat): seq<Route> {
    seq(|router|, i requires 0 <= i < |router| => Route(next + i, PrefixOf(m) + router[i]))
  }

  lemma RelativeUnder(prefix: string, rel: string)
    requires rel == "" || rel[0] == '/'
    ensures Under(prefix + rel, prefix)
  {
    if rel == "" {
      assert prefix + rel == prefix;
    } else {
      assert rel == "/" + rel[1..];
      assert prefix + rel == (prefix + "/") + rel[1..];
    }
  }

  lemma MadeUnder(router: seq<string>, m: Mount, next: nat)
    requires RouterPaths(router)
    ensures forall r <- Made(router, m, next) :: Under(r.path, PrefixOf(m))
  {
    forall r <- Made(router, m, next) ensures Under(r.path, PrefixOf(m)) {
      var i :| 0 <= i < |router| && r == Route(next + i, PrefixOf(m) + router[i]);
      assert router[i] in router;
      RelativeUnder(PrefixOf(m), router[i]);
    }
  }

  lemma AddedRouted(routes: seq<Route>, router: seq<string>, m: Mount, next: nat, n: Mount)
    requires Proper(m) && Proper(n) && RouterPaths(router)
    ensures Routed(routes + Made(router, m, next), n) ==
            Routed(routes, n) + if m == n then Made(router, m, next) else []
  {
    var g := (r: Route) => Under(r.path, PrefixOf(n));
    var made := Made(router, m, next);
    FilterAppend(routes, made, g);
    MadeUnder(router, m, next);
    if m == n {
      FilterAll(made, g);
    } else {
      forall r <- made ensures !g(r) {
        if g(r) {
          UnderOneMount(r.path, m, n);
        }
      }
      FilterNone(made, g);
    }
  }

  lemma OthersWithout(routes: seq<Route>, mounts: set<Mount>, m: Mount)
    requires m !in mounts ==> Routed(routes, m) == []
    ensures Others(Without(routes, m), mounts - {m}) == Others(routes, mounts)
  {
    var f := (r: Route) => !Under(r.path, PrefixOf(m));
    var g := (r: Route) => forall n <- mounts - {m} :: !Under(r.path, PrefixOf(n));
    var h := (r: Route) => forall n <- mounts :: !Under(r.path, PrefixOf(n));
    FilterTwice(routes, f, g);
    forall r <- routes ensures (f(r) && g(r)) == h(r) {
      InFilter(routes, (x: Route) => Under(x.path, PrefixOf(m)), r);
      if f(r) && g(r) {
        forall n <- mounts ensures !Under(r.path, PrefixOf(n)) {
        }
      }
    }
    FilterSame(routes, r => f(r) && g(r), h);
  }

  lemma OthersAdded(routes: seq<Route>, mounts: set<Mount>, router: seq<string>, m: Mount, next: nat)
    requires RouterPaths(router) && Routed(routes, m) == []
    ensures Others(routes + Made(router, m, next), mounts + {m}) == Others(routes, mounts)
  {
    var made := Made(router, m, next);
    var g := (r: Route) => forall n <- mounts + {m} :: !Under(r.path, PrefixOf(n));
    var h := (r: Route) => forall n <- mounts :: !Under(r.path, PrefixOf(n));
    FilterAppend(routes, made, g);
    MadeUnder(router, m, next);
    FilterNone(made, g);
    forall r <- routes ensures g(r) == h(r) {
      InFilter(routes, (x: Route) => Under(x.path, PrefixOf(m)), r);
    }
    FilterSame(routes, g, h);
  }

  // ---------------------------------------------------------------------
  // The registries
  // ---------------------------------------------------------------------

  type Patterns = seq<string>

  /** The app's route list, and the record of who is mounted: the routes of each
      mount's latest router. */
  datatype App = App(routes: seq<Route>, nextRoute: nat, mounted: map<Mount, seq<Route>>) {
    function Drop(m: Mount): App {
      this.(routes := Without(routes, m), mounted := mounted - {m})
    }

    function Include(m: Mount, router: seq<string>): App {
      var made := Made(router, m, nextRoute);
      App(routes + made, nextRoute + |router|, mounted[m := made])
    }
  }

  /** With the module's own tables: `_interface_generations` (keyed by the mount),
      `_active_aliases` and `_panel_reachable`. */
  datatype Registry = Registry(
    app: App,
    generations: map<Mount, nat>, nextGeneration: nat,
    aliases: map<string, string>,
    panelPaths: map<string, Patterns>)
  {
    function Generated(m: Mount): Registry {
      this.(generations := generations[m := nextGeneration], nextGeneration := nextGeneration + 1)
    }
  }

  /** `unmount_plugin_router`. */
  function UnmountExt(g: Registry, p: string): Registry {
    g.(app := g.app.Drop(Ext(p)), generations := g.generations - {Ext(p)}, panelPaths := g.panelPaths - {p})
  }

  /** `mount_plugin_router`; a malformed pattern list (none here) changes nothing. */
  function MountExt(g: Registry, p: string, router: seq<string>, panel: Option<Patterns>): Registry {
    if panel.None? then g
    else
      var u := UnmountExt(g, p).Generated(Ext(p));
      u.(app := u.app.Include(Ext(p), router),
         panelPaths := if panel.value != [] then u.panelPaths[p := panel.value] else u.panelPaths)
  }

  /** The alias a plugin holds, if any (it never holds two). */
  ghost function AliasOf(aliases: map<string, string>, p: string): Option<string> {
    if a :| a in aliases && aliases[a] == p then Some(a) else None
  }

  function WithoutAlias(g: Registry, a: string): Registry {
    g.(app := g.app.Drop(Alias(a)), aliases := g.aliases - {a})
  }

  function UnmountGuestOnly(g: Registry, p: string): Registry {
    g.(app := g.app.Drop(Guest(p)), generations := g.generations - {Guest(p)})
  }

  /** `unmount_plugin_guest_router`. */
  ghost function UnmountGuest(g: Registry, p: string): Registry {
    var u := UnmountGuestOnly(g, p);
    match AliasOf(g.aliases, p)
    case None => u
    case Some(a) => WithoutAlias(u, a)
  }

  function FirstSegment(path: string): string {
    Segment(TrimLeft(path, c => c == '/'))
  }

  /** No live route's first path segment is this one. */
  predicate SegmentFree(routes: seq<Route>, a: string) {
    forall r <- routes :: FirstSegment(r.path) != a
  }

  predicate AliasFree(g: Registry, p: string, a: string) {
    !(a in g.aliases && g.aliases[a] != p) && SegmentFree(g.app.routes, a)
  }

  /** `_mount_guest_alias`: only where nothing else owns the path. */
  function MountAlias(g: Registry, p: string, router: seq<string>, a: string): Registry {
    if !AliasFree(g, p, a) then g
    else g.(app := g.app.Include(Alias(a), router), aliases := g.aliases[a := p])
  }

  function MountGuestOnly(g: Registry, p: string, router: seq<string>): Registry {
    var u := g.Generated(Guest(p));
    u.(app := u.app.Include(Guest(p), router))
  }

  /** `mount_plugin_guest_router`. */
  ghost function MountGuest(g: Registry, p: string, router: seq<string>, alias: Option<string>): Registry {
    var a := MountGuestOnly(UnmountGuest(g, p), p, router);
    if alias.Some? then MountAlias(a, p, router, alias.value) else a
  }

  // ---------------------------------------------------------------------
  // Agreement of the route list
  // ---------------------------------------------------------------------

  /** The routes under each mount are exactly its latest router's, in order; under
      a plugin's prefix with no mount there are none; all other routes are the ones
      the app began with, in order. */
  ghost predicate RoutesAgree(app: App, base: seq<Route>) {
    && (forall m <- app.mounted :: Proper(m) && Routed(app.routes, m) == app.mounted[m])
    && (forall m :: Proper(m) && !m.Alias? && m !in app.mounted ==> Routed(app.routes, m) == [])
    && Others(app.routes, app.mounted.Keys) == base
  }

  lemma DroppedRoutes(app: App, base: seq<Route>, m: Mount)
    requires RoutesAgree(app, base) && Proper(m) && (m.Alias? ==> m in app.mounted)
    ensures RoutesAgree(app.Drop(m), base)
    ensures forall n :: Proper(n) ==>
              Routed(app.Drop(m).routes, n) == if m == n then [] else Routed(app.routes, n)
  {
    var r := app.Drop(m);
    forall n | Proper(n) ensures Routed(r.routes, n) == if m == n then [] else Routed(app.routes, n) {
      WithoutRouted(app.routes, m, n);
    }
    OthersWithout(app.routes, app.mounted.Keys, m);
    assert r.mounted.Keys == app.mounted.Keys - {m};
  }

  lemma IncludedRoutes(app: App, base: seq<Route>, m: Mount, router: seq<string>)
    requires RoutesAgree(app, base) && Proper(m) && RouterPaths(router) && Routed(app.routes, m) == []
    ensures RoutesAgree(app.Include(m, router), base)
  {
    var r := app.Include(m, router);
    forall n | Proper(n)
      ensures Routed(r.routes, n) == Routed(app.routes, n) + if m == n then Made(router, m, app.nextRoute) else []
    {
      AddedRouted(app.routes, router, m, app.nextRoute, n);
    }
    OthersAdded(app.routes, app.mounted.Keys, router, m, app.nextRoute);
    assert r.mounted.Keys == app.mounted.Keys + {m};
  }

  lemma FreeSegmentUnrouted(routes: seq<Route>, a: string)
    requires Proper(Alias(a)) && SegmentFree(routes, a)
    ensures Routed(routes, Alias(a)) == []
  {
    forall r <- routes ensures !Under(r.path, PrefixOf(Alias(a))) {
      if Under(r.path, PrefixOf(Alias(a))) {
        UnderAlias(r.path, a);
      }
    }
    FilterNone(routes, (r: Route) => Under(r.path, PrefixOf(Alias(a))));
  }

  // ---------------------------------------------------------------------
  // Agreement of the tables
  // ---------------------------------------------------------------------

  /** Each alias has one owner, whose guest router is mounted; a plugin has one alias
      at most; and the aliases mounted are those in the table. */
  ghost predicate AliasesAgree(aliases: map<string, string>, mounted: set<Mount>) {
    && (forall a :: a in aliases <==> Alias(a) in mounted)
    && (forall a <- aliases :: Guest(aliases[a]) in mounted)
    && (forall a, b :: a in aliases && b in aliases && aliases[a] == aliases[b] ==> a == b)
  }

  /** A live generation for exactly the routers mounted, none of them used up. */
  ghost predicate GenerationsAgree(generations: map<Mount, nat>, next: nat, mounted: set<Mount>) {
    && (forall m :: m in generations <==> m in mounted && !m.Alias?)
    && (forall m <- generations :: generations[m] < next)
  }

  ghost predicate TablesAgree(g: Registry, mounted: set<Mount>) {
    && AliasesAgree(g.aliases, mounted)
    && GenerationsAgree(g.generations, g.nextGeneration, mounted)
    && (forall p <- g.panelPaths :: Ext(p) in mounted)
  }

  /** What follows a mount's prefix in each of these paths: the router's own paths. */
  function Relative(routes: seq<Route>, m: Mount): seq<string> {
    var n := |PrefixOf(m)|;
    seq(|routes|, i requires 0 <= i < |routes| => if n <= |routes[i].path| then routes[i].path[n..] else routes[i].path)
  }

  lemma RelativeOfMade(router: seq<string>, m: Mount, next: nat)
    ensures Relative(Made(router, m, next), m) == router
  {
  }

  /** Each alias is its owner's guest router again, route for route, and so covers
      nobody else's. */
  ghost predicate AliasesCover(aliases: map<string, string>, mounted: map<Mount, seq<Route>>) {
    forall a <- aliases ::
      Alias(a) in mounted && Guest(aliases[a]) in mounted
      && Relative(mounted[Alias(a)], Alias(a)) == Relative(mounted[Guest(aliases[a])], Guest(aliases[a]))
  }

  ghost predicate Agrees(g: Registry, base: seq<Route>) {
    RoutesAgree(g.app, base) && TablesAgree(g, g.app.mounted.Keys) && AliasesCover(g.aliases, g.app.mounted)
  }

  predicate NoAlias(aliases: map<string, string>, p: string) {
    forall a <- aliases :: aliases[a] != p
  }

  lemma UnmountExtTables(g: Registry, p: string)
    requires TablesAgree(g, g.app.mounted.Keys)
    ensures TablesAgree(UnmountExt(g, p), UnmountExt(g, p).app.mounted.Keys)
  {
  }

  lemma MountExtTables(g: Registry, p: string, router: seq<string>, panel: Option<Patterns>)
    requires TablesAgree(g, g.app.mounted.Keys)
    ensures TablesAgree(MountExt(g, p, router, panel), MountExt(g, p, router, panel).app.mounted.Keys)
  {
    if panel.Some? {
      UnmountExtTables(g, p);
      var u, r := UnmountExt(g, p), MountExt(g, p, router, panel);
      assert r.app.mounted.Keys == u.app.mounted.Keys + {Ext(p)};
    }
  }

  lemma UnmountGuestAliases(aliases: map<string, string>, p: string, mounted: set<Mount>)
    requires AliasesAgree(aliases, mounted)
    ensures match AliasOf(aliases, p)
            case None => NoAlias(aliases, p) && AliasesAgree(aliases, mounted - {Guest(p)})
            case Some(a) => a in aliases && aliases[a] == p && NoAlias(aliases - {a}, p)
                            && AliasesAgree(aliases - {a}, mounted - {Guest(p)} - {Alias(a)})
  {
  }

  lemma UnmountGuestTables(g: Registry, p: string)
    requires TablesAgree(g, g.app.mounted.Keys)
    ensures TablesAgree(UnmountGuest(g, p), UnmountGuest(g, p).app.mounted.Keys)
    ensures NoAlias(UnmountGuest(g, p).aliases, p)
  {
    var r := UnmountGuest(g, p);
    UnmountGuestAliases(g.aliases, p, g.app.mounted.Keys);
    match AliasOf(g.aliases, p)
    case None =>
      assert r.app.mounted.Keys == g.app.mounted.Keys - {Guest(p)};
    case Some(a) =>
      assert r.app.mounted.Keys == g.app.mounted.Keys - {Guest(p)} - {Alias(a)};
  }

  lemma MountGuestOnlyTables(g: Registry, p: string, router: seq<string>)
    requires TablesAgree(g, g.app.mounted.Keys)
    ensures TablesAgree(MountGuestOnly(g, p, router), MountGuestOnly(g, p, router).app.mounted.Keys)
  {
    assert MountGuestOnly(g, p, router).app.mounted.Keys == g.app.mounted.Keys + {Guest(p)};
  }

  lemma MountAliasTables(g: Registry, p: string, router: seq<string>, a: string)
    requires TablesAgree(g, g.app.mounted.Keys) && Guest(p) in g.app.mounted && NoAlias(g.aliases, p)
    ensures TablesAgree(MountAlias(g, p, router, a), MountAlias(g, p, router, a).app.mounted.Keys)
  {
    if AliasFree(g, p, a) {
      assert MountAlias(g, p, router, a).app.mounted.Keys == g.app.mounted.Keys + {Alias(a)};
    }
  }

  lemma UnmountGuestCover(g: Registry, p: string)
    requires AliasesAgree(g.aliases, g.app.mounted.Keys) && AliasesCover(g.aliases, g.app.mounted)
    ensures AliasesCover(UnmountGuest(g, p).aliases, UnmountGuest(g, p).app.mounted)
  {
    UnmountGuestAliases(g.aliases, p, g.app.mounted.Keys);
    var r := UnmountGuest(g, p);
    forall a <- r.aliases
      ensures Alias(a) in r.app.mounted && Guest(r.aliases[a]) in r.app.mounted
      ensures r.app.mounted[Alias(a)] == g.app.mounted[Alias(a)] && r.aliases[a] == g.aliases[a]
      ensures r.app.mounted[Guest(r.aliases[a])] == g.app.mounted[Guest(g.aliases[a])]
    {
      assert r.aliases[a] != p;
    }
  }

  lemma MountGuestOnlyCover(g: Registry, p: string, router: seq<string>)
    requires AliasesCover(g.aliases, g.app.mounted) && NoAlias(g.aliases, p)
    ensures AliasesCover(MountGuestOnly(g, p, router).aliases, MountGuestOnly(g, p, router).app.mounted)
    ensures Relative(MountGuestOnly(g, p, router).app.mounted[Guest(p)], Guest(p)) == router
  {
    RelativeOfMade(router, Guest(p), g.app.nextRoute);
  }

  lemma MountAliasCover(g: Registry, p: string, router: seq<string>, a: string)
    requires AliasesCover(g.aliases, g.app.mounted) && Guest(p) in g.app.mounted && NoAlias(g.aliases, p)
    requires Relative(g.app.mounted[Guest(p)], Guest(p)) == router
    ensures AliasesCover(MountAlias(g, p, router, a).aliases, MountAlias(g, p, router, a).app.mounted)
  {
    RelativeOfMade(router, Alias(a), g.app.nextRoute);
  }

  // ---------------------------------------------------------------------
  // Each operation keeps the agreement
  // ---------------------------------------------------------------------

  lemma UnmountExtAgrees(g: Registry, base: seq<Route>, p: string)
    requires Agrees(g, base) && Proper(Ext(p))
    ensures Agrees(UnmountExt(g, p), base)
  {
    DroppedRoutes(g.app, base, Ext(p));
    UnmountExtTables(g, p);
  }

  lemma MountExtAgrees(g: Registry, base: seq<Route>, p: string, router: seq<string>, panel: Option<Patterns>)
    requires Agrees(g, base) && Proper(Ext(p)) && RouterPaths(router)
    ensures Agrees(MountExt(g, p, router, panel), base)
  {
    MountExtTables(g, p, router, panel);
    if panel.Some? {
      DroppedRoutes(g.app, base, Ext(p));
      IncludedRoutes(g.app.Drop(Ext(p)), base, Ext(p), router);
    }
  }

  lemma UnmountGuestRoutes(g: Registry, base: seq<Route>, p: string)
    requires Agrees(g, base) && Proper(Guest(p))
    ensures RoutesAgree(UnmountGuest(g, p).app, base) && Routed(UnmountGuest(g, p).app.routes, Guest(p)) == []
  {
    DroppedRoutes(g.app, base, Guest(p));
    match AliasOf(g.aliases, p) {
      case None =>
      case Some(a) =>
        assert Alias(a) in g.app.mounted;
        DroppedRoutes(g.app.Drop(Guest(p)), base, Alias(a));
    }
  }

  lemma UnmountGuestAgrees(g: Registry, base: seq<Route>, p: string)
    requires Agrees(g, base) && Proper(Guest(p))
    ensures Agrees(UnmountGuest(g, p), base)
  {
    UnmountGuestRoutes(g, base, p);
    UnmountGuestTables(g, p);
    UnmountGuestCover(g, p);
  }

  lemma MountAliasAgrees(g: Registry, base: seq<Route>, p: string, router: seq<string>, a: string)
    requires Agrees(g, base) && Proper(Alias(a)) && RouterPaths(router) && Guest(p) in g.app.mounted
    requires NoAlias(g.aliases, p) && Relative(g.app.mounted[Guest(p)], Guest(p)) == router
    ensures Agrees(MountAlias(g, p, router, a), base)
  {
    MountAliasTables(g, p, router, a);
    MountAliasCover(g, p, router, a);
    if AliasFree(g, p, a) {
      FreeSegmentUnrouted(g.app.routes, a);
      IncludedRoutes(g.app, base, Alias(a), router);
    }
  }

  lemma MountGuestAgrees(g: Registry, base: seq<Route>, p: string, router: seq<string>, alias: Option<string>)
    requires Agrees(g, base) && Proper(Guest(p)) && RouterPaths(router)
    requires alias.Some? ==> Proper(Alias(alias.value))
    ensures Agrees(MountGuest(g, p, router, alias), base)
  {
    var u := UnmountGuest(g, p);
    UnmountGuestRoutes(g, base, p);
    UnmountGuestTables(g, p);
    UnmountGuestCover(g, p);
    MountGuestOnlyTables(u, p, router);
    MountGuestOnlyCover(u, p, router);
    IncludedRoutes(u.app, base, Guest(p), router);
    if alias.Some? {
      MountAliasAgrees(MountGuestOnly(u, p, router), base, p, router, alias.value);
    }
  }

  // ---------------------------------------------------------------------
  // Every history
  // ---------------------------------------------------------------------

  datatype Op =
    | DoMountExt(plugin: string, router: seq<string>, panel: Option<Patterns>)
    | DoUnmountExt(plugin: string)
    | DoMountGuest(plugin: string, router: seq<string>, alias: Option<string>)
    | DoUnmountGuest(plugin: string)

  predicate Allowed(op: Op) {
    && '/' !in op.plugin
    && (op.DoMountExt? ==> RouterPaths(op.router))
    && (op.DoMountGuest? ==> RouterPaths(op.router) && (op.alias.Some? ==> Proper(Alias(op.alias.value))))
  }

  ghost function Apply(g: Registry, op: Op): Registry {
    match op
    case DoMountExt(p, r, panel) => MountExt(g, p, r, panel)
    case DoUnmountExt(p) => UnmountExt(g, p)
    case DoMountGuest(p, r, alias) => MountGuest(g, p, r, alias)
    case DoUnmountGuest(p) => UnmountGuest(g, p)
  }

  ghost function After(g: Registry, ops: seq<Op>): Registry {
    if ops == [] then g else Apply(After(g, ops[..|ops| - 1]), ops[|ops| - 1])
  }

  function Initial(base: seq<Route>, next: nat): Registry {
    Registry(App(base, next, map[]), map[], 0, map[], map[])
  }

  /** The app's own routes are under no plugin's prefix. */
  ghost predicate OwnRoutes(base: seq<Route>) {
    forall m :: Proper(m) && !m.Alias? ==> Routed(base, m) == []
  }

  lemma ApplyAgrees(g: Registry, base: seq<Route>, op: Op)
    requires Agrees(g, base) && Allowed(op)
    ensures Agrees(Apply(g, op), base)
  {
    match op
    case DoMountExt(p, r, panel) => MountExtAgrees(g, base, p, r, panel);
    case DoUnmountExt(p) => UnmountExtAgrees(g, base, p);
    case DoMountGuest(p, r, alias) => MountGuestAgrees(g, base, p, r, alias);
    case DoUnmountGuest(p) => UnmountGuestAgrees(g, base, p);
  }

  /** After any mounts, remounts and unmounts, the route table agrees with the
      record of who is mounted. */
  lemma {:induction false} EveryHistoryAgrees(base: seq<Route>, next: nat, ops: seq<Op>)
    requires OwnRoutes(base) && forall op <- ops :: Allowed(op)
    ensures Agrees(After(Initial(base, next), ops), base)
  {
    if ops == [] {
      FilterAll(base, (r: Route) => forall m <- Initial(base, next).app.mounted.Keys :: !Under(r.path, PrefixOf(m)));
    } else {
      var op := ops[|ops| - 1];
      assert op in ops;
      EveryHistoryAgrees(base, next, ops[..|ops| - 1]);
      ApplyAgrees(After(Initial(base, next), ops[..|ops| - 1]), base, op);
    }
  }

  /** Mounting records this router and these panel paths as the plugin's, and no one
      else's mount or panel path moves. */
  lemma LatestExtIsMounted(g: Registry, p: string, router: seq<string>, panel: Option<Patterns>)
    ensures var paths := MountExt(g, p, router, panel).panelPaths;
            && (forall q :: q != p ==> (q in paths <==> q in g.panelPaths) && (q in paths ==> paths[q] == g.panelPaths[q]))
            && (panel.None? ==> paths == g.panelPaths)
            && (panel.Some? ==> (p in paths <==> panel.value != []) && (p in paths ==> paths[p] == panel.value))
    ensures UnmountExt(g, p).panelPaths == g.panelPaths - {p}
    ensures MountExt(g, p, router, panel).app.mounted ==
            if panel.None? then g.app.mounted else g.app.mounted[Ext(p) := Made(router, Ext(p), g.app.nextRoute)]
    ensures UnmountExt(g, p).app.mounted == g.app.mounted - {Ext(p)}
  {
    assert panel.Some? ==>
      (g.app.mounted - {Ext(p)})[Ext(p) := Made(router, Ext(p), g.app.nextRoute)] ==
      g.app.mounted[Ext(p) := Made(router, Ext(p), g.app.nextRoute)];
  }

  /** The mounts a plugin's guest side owns. */
  predicate OwnedGuest(g: Registry, p: string, m: Mount) {
    m == Guest(p) || (m.Alias? && m.name in g.aliases && g.aliases[m.name] == p)
  }

  /** Unmounting a guest router removes it and every alias the plugin held, and
      nothing else. */
  lemma UnmountGuestRemovesOwned(g: Registry, base: seq<Route>, p: string)
    requires Agrees(g, base)
    ensures var u := UnmountGuest(g, p).app.mounted;
            forall m :: (m in u <==> m in g.app.mounted && !OwnedGuest(g, p, m))
                        && (m in u ==> u[m] == g.app.mounted[m])
  {
    UnmountGuestAliases(g.aliases, p, g.app.mounted.Keys);
    var u := UnmountGuest(g, p).app.mounted;
    forall m ensures m in u <==> m in g.app.mounted && !OwnedGuest(g, p, m) {
      if m.Alias? && OwnedGuest(g, p, m) {
        assert AliasOf(g.aliases, p) == Some(m.name);
      }
    }
  }

  lemma FirstSegmentIs(path: string, a: string)
    requires a != "" && '/' !in a
    ensures FirstSegment(path) == a <==> Under(TrimLeft(path, c => c == '/'), a)
  {
    var s := TrimLeft(path, c => c == '/');
    SegmentJoins(s);
    if Under(s, a) {
      var tail := s[|a|..];
      assert s == a + tail && (tail == "" || tail[0] == '/');
      SegmentOf(a, tail);
    }
  }

  /** Some live route begins with this segment, however many slashes lead it. */
  predicate SegmentTaken(routes: seq<Route>, a: string) {
    exists r <- routes :: Under(TrimLeft(r.path, c => c == '/'), a)
  }

  /** Mounting one then adds the router, and the alias exactly when no other plugin
      holds it and no route live then begins with it. */
  lemma LatestGuestIsMounted(g: Registry, p: string, router: seq<string>, alias: Option<string>)
    requires alias.Some? ==> Proper(Alias(alias.value))
    ensures var u := UnmountGuest(g, p);
            var v := MountGuestOnly(u, p, router);
            && v.app.mounted == u.app.mounted[Guest(p) := Made(router, Guest(p), g.app.nextRoute)]
            && MountGuest(g, p, router, alias).app.mounted ==
               if alias.Some? && (alias.value in u.aliases ==> u.aliases[alias.value] == p)
                  && !SegmentTaken(v.app.routes, alias.value)
               then v.app.mounted[Alias(alias.value) := Made(router, Alias(alias.value), v.app.nextRoute)]
               else v.app.mounted
  {
    if alias.Some? {
      var v := MountGuestOnly(UnmountGuest(g, p), p, router);
      forall r <- v.app.routes
        ensures FirstSegment(r.path) == alias.value <==> Under(TrimLeft(r.path, c => c == '/'), alias.value)
      {
        FirstSegmentIs(r.path, alias.value);
      }
    }
  }

  // ---------------------------------------------------------------------
  // Stopped registrations
  // ---------------------------------------------------------------------

  /** Whether the policy made for a registration still lets requests through. */
  predicate PolicyAdmits(g: Registry, m: Mount, generation: nat) {
    m in g.generations && g.generations[m] == generation
  }

  lemma StoppedStep(g: Registry, op: Op, m: Mount, generation: nat)
    requires generation < g.nextGeneration && !PolicyAdmits(g, m, generation)
    ensures generation < Apply(g, op).nextGeneration && !PolicyAdmits(Apply(g, op), m, generation)
  {
  }

  /** A policy whose registration has stopped or been replaced refuses forever,
      whatever is mounted afterwards, the same plugin included. */
  lemma {:induction false} StoppedForever(g: Registry, ops: seq<Op>, m: Mount, generation: nat)
    requires generation < g.nextGeneration && !PolicyAdmits(g, m, generation)
    ensures generation < After(g, ops).nextGeneration && !PolicyAdmits(After(g, ops), m, generation)
  {
    if ops != [] {
      StoppedForever(g, ops[..|ops| - 1], m, generation);
      StoppedStep(After(g, ops[..|ops| - 1]), ops[|ops| - 1], m, generation);
    }
  }

  /** A registration made now lets requests through, and no earlier number does for its
      mount any more. */
  lemma LatestIsLive(g: Registry, p: string, router: seq<string>, panel: Patterns, alias: Option<string>, generation: nat)
    ensures PolicyAdmits(MountExt(g, p, router, Some(panel)), Ext(p), generation) <==> generation == g.nextGeneration
    ensures PolicyAdmits(MountGuest(g, p, router, alias), Guest(p), generation) <==> generation == g.nextGeneration
    ensures MountExt(g, p, router, Some(panel)).nextGeneration > g.nextGeneration
    ensures MountGuest(g, p, router, alias).nextGeneration > g.nextGeneration
  {
    MountGuestGenerations(g, p, router, alias);
  }

  /** Whether an operation stops or replaces a mount's registration. */
  predicate Stops(op: Op, m: Mount) {
    || (m == Ext(op.plugin) && (op.DoUnmountExt? || (op.DoMountExt? && op.panel.Some?)))
    || (m == Guest(op.plugin) && (op.DoUnmountGuest? || op.DoMountGuest?))
  }

  lemma MountGuestGenerations(g: Registry, p: string, router: seq<string>, alias: Option<string>)
    ensures UnmountGuest(g, p).generations == g.generations - {Guest(p)}
    ensures MountGuest(g, p, router, alias).generations == (g.generations - {Guest(p)})[Guest(p) := g.nextGeneration]
  {
  }

  /** Unmounting or remounting is what stops a registration, and nothing else is. */
  lemma ReplacedStops(g: Registry, op: Op, m: Mount, generation: nat)
    requires GenerationsAgree(g.generations, g.nextGeneration, g.app.mounted.Keys) && PolicyAdmits(g, m, generation)
    ensures PolicyAdmits(Apply(g, op), m, generation) <==> !Stops(op, m)
  {
    assert generation < g.nextGeneration;
    match op
    case DoMountExt(p, r, panel) => assert Apply(g, op) == MountExt(g, p, r, panel);
    case DoUnmountExt(p) => assert Apply(g, op) == UnmountExt(g, p);
    case DoMountGuest(p, r, alias) => MountGuestGenerations(g, p, r, alias);
    case DoUnmountGuest(p) => MountGuestGenerations(g, p, [], None);
  }

  // ---------------------------------------------------------------------
  // Ids with a slash
  // ---------------------------------------------------------------------

  function Kind(m: Mount): string {
    if m.Ext? then "ext" else "guest"
  }

  lemma {:induction false} SegmentJoins(s: string)
    ensures '/' !in Segment(s)
    ensures if '/' in s then s == Segment(s) + "/" + AfterSegment(s) else s == Segment(s)
  {
    if s == "" {
    } else if s[0] == '/' {
      assert s == "" + "/" + s[1..];
    } else {
      var rest := s[1..];
      SegmentJoins(rest);
      assert s == [s[0]] + rest;
      if '/' in rest {
        assert [s[0]] + (Segment(rest) + "/" + AfterSegment(rest)) == [s[0]] + Segment(rest) + "/" + AfterSegment(rest);
      }
    }
  }

  lemma {:induction false} SegmentStops(s: string, rest: string)
    ensures Segment(s + "/" + rest) == Segment(s)
  {
    if s == "" {
      assert (s + "/" + rest)[0] == '/';
    } else if s[0] != '/' {
      SegmentStops(s[1..], rest);
      assert (s + "/" + rest)[1..] == s[1..] + "/" + rest;
    }
  }

  lemma UnderShifts(base: string, x: string, y: string)
    ensures Under(base + x, base + y) <==> Under(x, y)
  {
    assert base + x == base + y ==> (base + x)[|base|..] == (base + y)[|base|..];
    assert base + y + "/" == base + (y + "/");
    if base + (y + "/") <= base + x {
      assert (base + x)[|base|..] == x && y + "/" == (base + (y + "/"))[|base|..];
    }
    if y + "/" <= x {
      assert x == (y + "/") + x[|y| + 1..];
      assert base + x == (base + (y + "/")) + x[|y| + 1..];
    }
  }

  lemma UnderGoesOn(p: string, tail: string, d: string)
    requires Under(p, d) && tail != "" && tail[0] == '/'
    ensures Under(p + tail, d)
  {
    var more := p[|d|..];
    assert p == d + more && p + tail == d + (more + tail);
    assert (more + tail)[0] == '/';
    assert more + tail == "/" + (more + tail)[1..];
  }

  lemma PlaceBegins(s: string, q: string, kind: string)
    requires '/' !in q && '/' !in kind && Under(s, q + "/" + kind)
    ensures Segment(s) == q && Segment(AfterSegment(s)) == kind
  {
    var tail := s[|q + "/" + kind|..];
    assert s == q + ("/" + (kind + tail));
    SegmentOf(q, "/" + (kind + tail));
    assert ("/" + (kind + tail))[1..] == kind + tail;
    assert tail != "" ==> tail[0] == '/';
    SegmentOf(kind, tail);
  }

  lemma {:induction false} SegmentKept(p: string, tail: string)
    requires '/' in p
    ensures Segment(p + tail) == Segment(p) && AfterSegment(p + tail) == AfterSegment(p) + tail
  {
    assert (p + tail)[0] == p[0] && (p + tail)[1..] == p[1..] + tail;
    if p[0] != '/' {
      SegmentKept(p[1..], tail);
    }
  }

  lemma SlashedPlace(p: string, tail: string)
    requires '/' in p && tail != "" && tail[0] == '/'
    ensures Segment(p + tail) == Segment(p) && Segment(AfterSegment(p + tail)) == Segment(AfterSegment(p))
  {
    SegmentKept(p, tail);
    var b := AfterSegment(p);
    assert b + tail == b + "/" + tail[1..];
    SegmentStops(b, tail[1..]);
  }

  /** With a slash of its own, what follows the id decides nothing. */
  lemma SlashedUnder(p: string, tail: string, q: string, kind: string)
    requires '/' in p && '/' !in q && '/' !in kind && tail != "" && tail[0] == '/'
    requires Under(p + tail, q + "/" + kind)
    ensures Under(p, q + "/" + kind)
  {
    PlaceBegins(p + tail, q, kind);
    SlashedPlace(p, tail);
    SegmentJoins(p);
    BeginsWith(p, q, AfterSegment(p), kind);
  }

  lemma BeginsWith(p: string, q: string, b: string, kind: string)
    requires p == q + "/" + b && Segment(b) == kind
    ensures Under(p, q + "/" + kind)
  {
    SegmentJoins(b);
    if '/' in b {
      assert p == (q + "/" + kind) + ("/" + AfterSegment(b));
    }
  }

  lemma PlainNotUnder(p: string, d: string)
    requires '/' !in p && '/' in d
    ensures !Under(p, d)
  {
    var i :| 0 <= i < |d| && d[i] == '/';
    if i < |p| {
      assert p[i] in p;
    }
  }

  lemma PlainGoesOn(q: string, kind: string, rel: string)
    requires rel == "" || rel[0] == '/'
    ensures Under(q + ("/" + (kind + rel)), q + "/" + kind)
  {
    var d := q + "/" + kind;
    assert q + ("/" + (kind + rel)) == d + rel;
    if rel != "" {
      assert rel == "/" + rel[1..];
      assert d + rel == (d + "/") + rel[1..];
    }
  }

  lemma PlainUnder(p: string, k: string, rel: string, q: string, kind: string)
    requires '/' !in p && '/' !in k && '/' !in q && '/' !in kind && (rel == "" || rel[0] == '/')
    ensures Under(p + ("/" + (k + rel)), q + "/" + kind) <==> p == q && k == kind
  {
    var tail := "/" + (k + rel);
    SegmentOf(p, tail);
    assert tail[1..] == k + rel;
    SegmentOf(k, rel);
    if p == q && k == kind {
      PlainGoesOn(q, kind, rel);
    } else if Under(p + tail, q + "/" + kind) {
      PlaceBegins(p + tail, q, kind);
    }
  }

  lemma SweptPlace(p: string, k: string, rel: string, q: string, kind: string)
    requires '/' !in k && '/' !in q && '/' !in kind && (rel == "" || rel[0] == '/')
    ensures Under(p + ("/" + (k + rel)), q + "/" + kind) <==>
              ('/' !in p && p == q && k == kind) || Under(p, q + "/" + kind)
  {
    if '/' !in p {
      PlainUnder(p, k, rel, q, kind);
      assert '/' in q + "/" + kind;
      PlainNotUnder(p, q + "/" + kind);
    } else if Under(p, q + "/" + kind) {
      UnderGoesOn(p, "/" + (k + rel), q + "/" + kind);
    } else if Under(p + ("/" + (k + rel)), q + "/" + kind) {
      SlashedUnder(p, "/" + (k + rel), q, kind);
    }
  }

  lemma PrefixParts(m: Mount, rel: string)
    requires !m.Alias?
    ensures PrefixOf(m) + rel == PLUGINS + (m.plugin + ("/" + (Kind(m) + rel)))
    ensures PrefixOf(m) == PLUGINS + (m.plugin + "/" + Kind(m))
  {
  }

  lemma SweptRoute(rel: string, mine: Mount, his: Mount)
    requires (rel == "" || rel[0] == '/') && !mine.Alias? && !his.Alias? && '/' !in his.plugin
    ensures Under(PrefixOf(mine) + rel, PrefixOf(his)) <==>
              mine == his || Under(mine.plugin, his.plugin + "/" + Kind(his))
  {
    PrefixParts(mine, rel);
    PrefixParts(his, "");
    UnderShifts(PLUGINS, mine.plugin + ("/" + (Kind(mine) + rel)), his.plugin + "/" + Kind(his));
    SweptPlace(mine.plugin, Kind(mine), rel, his.plugin, Kind(his));
    assert "ext"[0] != "guest"[0];
  }

  /** Unmounting a plugin whose id holds no slash sweeps another mount's route exactly
      when the other id begins with this mount's own path after the plugins' prefix, on
      a segment boundary: it needs a slash, in that place. */
  lemma SweptExactly(router: seq<string>, mine: Mount, his: Mount, next: nat)
    requires RouterPaths(router) && !mine.Alias? && !his.Alias? && '/' !in his.plugin
    ensures forall r <- Made(router, mine, next) ::
              Under(r.path, PrefixOf(his)) <==> mine == his || Under(mine.plugin, his.plugin + "/" + Kind(his))
  {
    forall r <- Made(router, mine, next)
      ensures Under(r.path, PrefixOf(his)) <==> mine == his || Under(mine.plugin, his.plugin + "/" + Kind(his))
    {
      var i :| 0 <= i < |router| && r == Route(next + i, PrefixOf(mine) + router[i]);
      assert router[i] in router;
      SweptRoute(router[i], mine, his);
    }
  }
}
