/** A JSON value as system.json holds it, and the layering that puts one file
    over another (`_deep_merge`). */
module ConfigTree {
  import opened Text

  /** `Other` is a number that is not an integer, or an array: known here by
      how it prints and whether it counts as true. */
  datatype Json =
    | Null
    | Bool(b: bool)
    | Int(n: int)
    | Str(s: string)
    | Other(printed: string, truthy: bool)
    | Obj(fields: map<string, Json>)

  const EMPTY := Obj(map[])

  predicate Truthy(j: Json) {
    match j
    case Null => false
    case Bool(b) => b
    case Int(n) => n != 0
    case Str(s) => s != ""
    case Other(_, t) => t
    case Obj(fields) => |fields| > 0
  }

  /** `str(j)`. A number or an array never prints as nothing. */
  function Printed(j: Json): string {
    match j
    case Null => "None"
    case Bool(b) => if b then "True" else "False"
    case Int(n) => PrintInt(n)
    case Str(s) => s
    case Other(p, _) => if p == "" then "[]" else p
    case Obj(_) => "{...}"
  }

  /** `str(j or "")`. */
  function TextOf(j: Json): string {
    if Truthy(j) then Printed(j) else ""
  }

  lemma TruthyPrints(j: Json)
    requires Truthy(j)
    ensures Printed(j) != ""
  {
    if j.Int? {
      PrintIntParses(j.n);
    }
  }

  // ---------------------------------------------------------------------
  // Merging
  // ---------------------------------------------------------------------

  /** `_deep_merge`: `over` on top of `base`, recursing where both hold an
      object, and carrying through what only one of them has. */
  function Merge(base: Json, over: Json): Json
    decreases base
  {
    if base.Obj? && over.Obj? then
      Obj(map k | k in base.fields.Keys + over.fields.Keys ::
            if k !in over.fields then base.fields[k]
            else if k in base.fields then Merge(base.fields[k], over.fields[k])
            else over.fields[k])
    else over
  }

  function Lookup(j: Json, path: seq<string>): Option<Json> {
    if path == [] then Some(j)
    else if j.Obj? && path[0] in j.fields then Lookup(j.fields[path[0]], path[1..])
    else None
  }

  lemma {:induction false} MergeSelf(b: Json)
    ensures Merge(b, b) == b
    decreases b
  {
    if b.Obj? {
      forall k | k in b.fields ensures Merge(b.fields[k], b.fields[k]) == b.fields[k] {
        MergeSelf(b.fields[k]);
      }
      assert Merge(b, b).fields == b.fields;
    }
  }

  /** The persisted layer already carries every default, so layering it over
      the same defaults again changes nothing. */
  lemma {:induction false} MergeAbsorbs(b: Json, o: Json)
    ensures Merge(b, Merge(b, o)) == Merge(b, o)
    decreases b
  {
    if b.Obj? && o.Obj? {
      var m := Merge(b, o);
      forall k | k in b.fields ensures Merge(b.fields[k], m.fields[k]) == m.fields[k] {
        if k in o.fields {
          MergeAbsorbs(b.fields[k], o.fields[k]);
        } else {
          MergeSelf(b.fields[k]);
        }
      }
      assert Merge(b, m).fields == m.fields;
    }
  }

  /** Exactly what a path of the merged tree holds. Where the overriding file
      has the path, its value (merged with the base's when the base has the path
      too); where it does not, the base's, unless the file put something that is
      not an object on the way there. */
  lemma {:induction false} MergeLookup(b: Json, o: Json, p: seq<string>)
    ensures match Lookup(o, p)
            case Some(v) =>
              Lookup(Merge(b, o), p) ==
              Some(match Lookup(b, p) case Some(bv) => Merge(bv, v) case None => v)
            case None =>
              Lookup(Merge(b, o), p) == if Blocked(b, o, p) then None else Lookup(b, p)
    decreases p
  {
    if p != [] && b.Obj? && o.Obj? && p[0] in b.fields && p[0] in o.fields {
      MergeLookup(b.fields[p[0]], o.fields[p[0]], p[1..]);
    } else if p != [] && !b.Obj? {
      assert Lookup(b, p) == None;
    } else if p != [] && o.Obj? && p[0] in o.fields {
      assert Lookup(Merge(b, o), p) == Lookup(o, p);
    }
  }

  /** The file holds, at some proper prefix of `p` the base also has, a value
      that is not an object (or is an object the base has a plain value for). */
  predicate Blocked(b: Json, o: Json, p: seq<string>) {
    if p == [] || !b.Obj? || !o.Obj? then true
    else if p[0] !in o.fields then false
    else if p[0] !in b.fields then true
    else Blocked(b.fields[p[0]], o.fields[p[0]], p[1..])
  }

  /** No setting of the overriding file is lost or changed. */
  lemma MergeKeepsLeaves(b: Json, o: Json, p: seq<string>)
    requires Lookup(o, p).Some?
    ensures Lookup(Merge(b, o), p).Some?
    ensures !Lookup(o, p).value.Obj? ==> Lookup(Merge(b, o), p) == Lookup(o, p)
  {
    MergeLookup(b, o, p);
  }

  /** Nothing is invented: every setting of the result came from one of the two. */
  lemma MergeInventsNothing(b: Json, o: Json, p: seq<string>)
    requires Lookup(Merge(b, o), p).Some?
    ensures Lookup(o, p).Some? || Lookup(b, p) == Lookup(Merge(b, o), p)
    ensures !Lookup(Merge(b, o), p).value.Obj? ==>
              Lookup(Merge(b, o), p) in {Lookup(o, p), Lookup(b, p)}
  {
    MergeLookup(b, o, p);
  }

  // ---------------------------------------------------------------------
  // Retired keys, and what one release persists of a file
  // ---------------------------------------------------------------------

  type KeySet = set<(string, string)>

  function DropSection(s: string, section: Json, removed: KeySet): Json {
    if section.Obj? then
      Obj(map k | k in section.fields && (s, k) !in removed :: section.fields[k])
    else section
  }

  /** A release's retired fields, deleted from the sections that are objects. */
  function DropKeys(j: Json, removed: KeySet): Json
    requires j.Obj?
  {
    Obj(map s | s in j.fields :: DropSection(s, j.fields[s], removed))
  }

  /** One release: its shipped defaults and the fields it has retired. */
  datatype Release = Release(defaults: Json, removed: KeySet) {
    predicate Valid() { defaults.Obj? }

    /** What this release's `load()` snapshots, and its `save()` writes back. */
    function Persist(file: Json): (r: Json)
      requires Valid() && file.Obj?
      ensures r.Obj?
    {
      DropKeys(Merge(defaults, file), removed)
    }
  }

  predicate SectionIsObject(j: Json, s: string) {
    j.Obj? && s in j.fields && j.fields[s].Obj?
  }

  predicate SectionOpen(j: Json, s: string) {
    j.Obj? && (s in j.fields ==> j.fields[s].Obj?)
  }

  /** What a release persists of one section. */
  function PersistedSection(r: Release, s: string, section: Json): Json
    requires r.Valid()
  {
    DropSection(s, if s in r.defaults.fields then Merge(r.defaults.fields[s], section) else section, r.removed)
  }

  lemma PersistAt(r: Release, file: Json, s: string)
    requires r.Valid() && file.Obj?
    ensures s in r.Persist(file).fields <==> s in file.fields || s in r.defaults.fields
    ensures s in file.fields ==> r.Persist(file).fields[s] == PersistedSection(r, s, file.fields[s])
    ensures s in file.fields ==> (r.Persist(file).fields[s].Obj? <==> file.fields[s].Obj?)
    ensures s !in file.fields && s in r.defaults.fields ==>
              r.Persist(file).fields[s] == DropSection(s, r.defaults.fields[s], r.removed)
  {
    var m := Merge(r.defaults, file);
    if s in file.fields && s in r.defaults.fields {
      assert m.fields[s] == Merge(r.defaults.fields[s], file.fields[s]);
    }
  }

  /** The persisted layer is a fixpoint of load, save, load. */
  lemma PersistFixpoint(r: Release, file: Json)
    requires r.Valid() && file.Obj?
    ensures r.Persist(r.Persist(file)) == r.Persist(file)
  {
    var d, m := r.defaults, Merge(r.defaults, file);
    var p := r.Persist(file);
    MergeAbsorbs(d, file);
    var mp := Merge(d, p);
    assert mp.fields.Keys == p.fields.Keys == m.fields.Keys;
    forall s | s in m.fields
      ensures DropSection(s, mp.fields[s], r.removed) == p.fields[s]
    {
      PersistSection(s, if s in d.fields then Some(d.fields[s]) else None, m.fields[s], r.removed);
      assert s in d.fields ==> Merge(d.fields[s], m.fields[s]) == m.fields[s] by {
        assert Merge(d, m) == m;
        assert s in d.fields ==> Merge(d, m).fields[s] == Merge(d.fields[s], m.fields[s]);
      }
    }
    assert DropKeys(mp, r.removed).fields == p.fields;
  }

  lemma PersistSection(s: string, d: Option<Json>, m: Json, removed: KeySet)
    ensures var p := DropSection(s, m, removed);
            (d.Some? ==> Merge(d.value, m) == m) ==>
              DropSection(s, if d.Some? then Merge(d.value, p) else p, removed) == p
  {
    var p := DropSection(s, m, removed);
    if d.Some? && Merge(d.value, m) == m && m.Obj? && d.value.Obj? {
      var dv := d.value;
      var mp := Merge(dv, p);
      forall k | k in p.fields ensures k in mp.fields && mp.fields[k] == p.fields[k] {
        assert Merge(dv, m).fields[k] == m.fields[k];
      }
      forall k | k in mp.fields && (s, k) !in removed ensures k in p.fields {
        if k in dv.fields {
          assert k in Merge(dv, m).fields;
        }
      }
      assert DropSection(s, mp, removed).fields == p.fields;
    } else if m.Obj? {
      assert DropSection(s, p, removed).fields == p.fields;
    }
  }

  predicate Retired(p: seq<string>, removed: KeySet) {
    |p| >= 2 && (p[0], p[1]) in removed
  }

  lemma DropKeepsOthers(j: Json, removed: KeySet, p: seq<string>)
    requires j.Obj? && !Retired(p, removed)
    requires Lookup(j, p).Some?
    ensures Lookup(DropKeys(j, removed), p).Some?
    ensures !Lookup(j, p).value.Obj? ==> Lookup(DropKeys(j, removed), p) == Lookup(j, p)
  {
    if |p| >= 2 {
      var s := j.fields[p[0]];
      assert p[1..][0] == p[1];
      assert Lookup(j, p) == Lookup(s.fields[p[1]], p[1..][1..]);
      var t := DropSection(p[0], s, removed);
      assert Lookup(DropKeys(j, removed), p) == Lookup(t, p[1..]) == Lookup(t.fields[p[1]], p[1..][1..]);
    } else if |p| == 1 {
      assert Lookup(j, p) == Some(j.fields[p[0]]);
      assert Lookup(DropKeys(j, removed), p) == Some(DropSection(p[0], j.fields[p[0]], removed));
    }
  }

  // ---------------------------------------------------------------------
  // Rollbacks and upgrades
  // ---------------------------------------------------------------------

  /** The file after each release of `chain` in turn has loaded and saved it. */
  function Chain(chain: seq<Release>, file: Json): (r: Json)
    requires file.Obj? && forall r <- chain :: r.Valid()
    ensures r.Obj?
  {
    if chain == [] then file else Chain(chain[1..], chain[0].Persist(file))
  }

  /** However the system is rolled back and upgraded, a setting the file held
      is still there, unless a release on the way retired it. */
  lemma {:induction false} ChainKeepsSettings(chain: seq<Release>, file: Json, p: seq<string>)
    requires file.Obj? && forall r <- chain :: r.Valid()
    requires Lookup(file, p).Some?
    requires forall r <- chain :: !Retired(p, r.removed)
    ensures Lookup(Chain(chain, file), p).Some?
    ensures !Lookup(file, p).value.Obj? ==> Lookup(Chain(chain, file), p) == Lookup(file, p)
  {
    if chain != [] {
      var r := chain[0];
      MergeKeepsLeaves(r.defaults, file, p);
      DropKeepsOthers(Merge(r.defaults, file), r.removed, p);
      ChainKeepsSettings(chain[1..], r.Persist(file), p);
    }
  }

  /** A retired field is gone from the first save of a release that retired it. */
  lemma PersistDropsRetired(r: Release, file: Json, s: string, k: string)
    requires r.Valid() && file.Obj? && (s, k) in r.removed
    ensures Lookup(r.Persist(file), [s, k]) == None
  {
    var p := r.Persist(file);
    if s in p.fields && p.fields[s].Obj? {
      assert k !in p.fields[s].fields;
      assert Lookup(p, [s, k]) == Lookup(p.fields[s], [s, k][1..]);
    }
  }
}
