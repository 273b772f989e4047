/** The release check that published crates do not pull in unpublished ones by default, and that every
    crate is published after the crates it needs. */
module Preflight {
  import opened DepthFirst
  import opened Reach
  import opened Text

  datatype Kind = Normal | Build | Dev

  datatype Dep = Dep(name: string, rename: Option<string>, optional: bool, kind: Kind)

  datatype Package = Package(name: string, features: map<string, seq<string>>, deps: seq<Dep>)

  // ----- names in feature tables -----

  function Alias(d: Dep): string
  {
    if d.rename.Some? && d.rename.value != "" then d.rename.value else d.name
  }

  /** Feature-entry name to package name; the last dependency with a given alias wins. */
  function AliasMap(deps: seq<Dep>): map<string, string>
  {
    if deps == [] then map[]
    else AliasMap(deps[..|deps| - 1])[Alias(deps[|deps| - 1]) := deps[|deps| - 1].name]
  }

  /** A dependency goes by its new name if it has one. */
  predicate GoesBy(d: Dep, a: string)
  {
    || (d.rename == Some(a) && a != "")
    || ((d.rename == None || d.rename == Some("")) && a == d.name)
  }

  predicate LastToGoBy(deps: seq<Dep>, i: int, a: string)
  {
    0 <= i < |deps| && GoesBy(deps[i], a) && forall j :: i < j < |deps| ==> !GoesBy(deps[j], a)
  }

  /** The table holds every name that some dependency goes by, and the last such dependency decides. */
  lemma {:induction false} AliasMapIs(deps: seq<Dep>, a: string)
    ensures a in AliasMap(deps) <==> exists i :: 0 <= i < |deps| && GoesBy(deps[i], a)
    ensures forall i :: LastToGoBy(deps, i, a) ==> a in AliasMap(deps) && AliasMap(deps)[a] == deps[i].name
    decreases |deps|
  {
    if deps != [] {
      var init, last := deps[..|deps| - 1], deps[|deps| - 1];
      AliasMapIs(init, a);
      AliasIsGoneBy(last, a);
      hide GoesBy, Alias;
      assert forall i :: 0 <= i < |init| ==> init[i] == deps[i];
      forall i | LastToGoBy(deps, i, a)
        ensures a in AliasMap(deps) && AliasMap(deps)[a] == deps[i].name
      {
        if i < |init| {
          assert LastToGoBy(init, i, a);
          assert !GoesBy(deps[|deps| - 1], a);
        }
      }
    }
  }

  lemma AliasIsGoneBy(d: Dep, a: string)
    ensures Alias(d) == a <==> GoesBy(d, a)
  {
  }

  function Resolve(aliases: map<string, string>, a: string): string
  {
    if a in aliases then aliases[a] else a
  }

  /** `rstrip("?")`. */
  function WithoutTrailingMarks(s: string): string
  {
    s[..AfterLast(s, c => c != '?')]
  }

  /** A feature entry either pulls a dependency or names another feature. */
  datatype Entry = Pull(dep: string) | Feature(name: string)

  function ReadEntry(entry: string): Entry
  {
    if "dep:" <= entry then Pull(entry[4..])
    else
      var slash := FirstIndex(entry, c => c == '/');
      if slash < |entry| then Pull(WithoutTrailingMarks(entry[..slash])) else Feature(entry)
  }

  /** An entry `dep?/feature` only passes the feature on, should something else pull the dependency. */
  predicate IsWeak(entry: string)
  {
    && !("dep:" <= entry)
    && var slash := FirstIndex(entry, c => c == '/');
       0 < slash < |entry| && entry[slash - 1] == '?'
  }

  /** What each form of entry says: a dependency, another feature, or a feature of a dependency. */
  lemma EntryForms(name: string, feature: string)
    ensures ReadEntry("dep:" + feature) == Pull(feature)
    ensures '/' !in name && !("dep:" <= name) ==> ReadEntry(name) == Feature(name)
  {
    assert ("dep:" + feature)[4..] == feature && "dep:" <= "dep:" + feature;
    assert '/' !in name ==> FirstIndex(name, c => c == '/') == |name|;
  }

  lemma PathEntryForms(name: string, feature: string)
    requires '/' !in name && !("dep:" <= name) && (name == "" || name[|name| - 1] != '?')
    ensures ReadEntry(name + "/" + feature) == Pull(name) && ReadEntry(name + "?/" + feature) == Pull(name)
  {
    hide ReadEntry;
    PathForm(name, "", feature);
    PathForm(name, "?", feature);
    assert name + "" + "/" + feature == name + "/" + feature;
    assert name + "?" + "/" + feature == name + "?/" + feature;
  }

  lemma PathForm(name: string, mark: string, feature: string)
    requires '/' !in name && (mark == "" || mark == "?") && !("dep:" <= name)
    requires name == "" || name[|name| - 1] != '?'
    ensures ReadEntry(name + mark + "/" + feature) == Pull(name)
  {
    hide AfterLast, FirstIndex;
    var entry := name + mark + "/" + feature;
    NoDependencyPrefix(name, mark, feature);
    assert entry[..|name + mark|] == name + mark;
    assert forall i :: 0 <= i < |name + mark| ==> entry[i] == (name + mark)[i];
    assert entry[|name + mark|] == '/';
    AfterLastIs(name, mark, c => c != '?');
    assert (name + mark)[..|name|] == name;
  }

  lemma NoDependencyPrefix(name: string, mark: string, feature: string)
    requires (mark == "" || mark == "?") && !("dep:" <= name)
    ensures !("dep:" <= name + mark + "/" + feature)
  {
    var entry := name + mark + "/" + feature;
    if |name| < 4 {
      assert entry[|name|] == '/' || entry[|name|] == '?';
      assert "dep:"[|name|] != entry[|name|];
    } else {
      assert name[..4] == entry[..4];
    }
  }

  function EntriesOf(features: map<string, seq<string>>, name: string): seq<string>
  {
    if name in features then features[name] else []
  }

  /** The features a feature enables, and the dependencies it pulls. */
  ghost function FeatureEdges(features: map<string, seq<string>>): string -> set<string>
  {
    f => set e | e in EntriesOf(features, f) && ReadEntry(e).Feature? :: ReadEntry(e).name
  }

  ghost function PulledIn(entries: seq<string>): set<string>
  {
    set e | e in entries && ReadEntry(e).Pull? :: ReadEntry(e).dep
  }

  ghost function PulledForCertain(entries: seq<string>): set<string>
  {
    set e | e in entries && ReadEntry(e).Pull? && !IsWeak(e) :: ReadEntry(e).dep
  }

  ghost function PulledByFeatures(features: map<string, seq<string>>, names: set<string>): set<string>
  {
    set f, d | f in names && d in PulledIn(EntriesOf(features, f)) :: d
  }

  // ----- the walk over one package's features -----

  /** The closure that the walk updates as it recurses. */
  class FeatureWalk {
    const features: map<string, seq<string>>
    var seen: set<string>
    var raw: set<string>

    constructor (features: map<string, seq<string>>)
      ensures this.features == features && seen == {} && raw == {}
    {
      this.features := features;
      seen, raw := {}, {};
    }

    method Expand(name: string)
      modifies this
      ensures Explored(FeatureEdges(features), name, old(seen), seen)
      ensures raw == old(raw) + PulledByFeatures(features, seen - old(seen))
      decreases features.Keys - seen
    {
      hide Explored, Exploring, PulledByFeatures, PulledIn, ReadEntry, FeaturesIn;
      ghost var edges, before, raw0 := FeatureEdges(features), seen, raw;
      if name in seen {
        ExploreVisited(edges, name, seen);
        NothingPulled(features, seen);
        return;
      }
      ExploreStarts(edges, name, seen);
      seen := seen + {name};
      var entries := EntriesOf(features, name);
      FreshPulls(features, name, before);
      for i := 0 to |entries|
        invariant before + {name} <= seen
        invariant Exploring(edges, name, before, seen, FeaturesIn(entries[..i]))
        invariant raw == raw0 + PulledByFeatures(features, seen - before - {name}) + PulledIn(entries[..i])
      {
        NextEntry(entries, i);
        ExploringSeen(edges, name, before, seen, FeaturesIn(entries[..i]));
        match ReadEntry(entries[i]) {
          case Pull(dep) =>
            raw := raw + {dep};
          case Feature(feature) =>
            ghost var seen1 := seen;
            Expand(feature);
            ExploredGrows(edges, feature, seen1, seen);
            RootEdges(features, name);
            ExploreChild(edges, name, before, seen1, FeaturesIn(entries[..i]), feature, seen);
            PullsAddUp(features, name, before, seen1, seen);
        }
      }
      assert entries[..|entries|] == entries;
      RootEdges(features, name);
      ExploreEnds(edges, name, before, seen, FeaturesIn(entries));
      PullsOfRoot(features, name, before, seen);
    }
  }

  ghost function FeaturesIn(entries: seq<string>): set<string>
  {
    set e | e in entries && ReadEntry(e).Feature? :: ReadEntry(e).name
  }

  lemma RootEdges(features: map<string, seq<string>>, name: string)
    ensures FeatureEdges(features)(name) == FeaturesIn(EntriesOf(features, name))
  {
  }

  lemma NextEntry(entries: seq<string>, i: nat)
    requires i < |entries|
    ensures ReadEntry(entries[i]).Feature? ==>
              && FeaturesIn(entries[..i + 1]) == FeaturesIn(entries[..i]) + {ReadEntry(entries[i]).name}
              && PulledIn(entries[..i + 1]) == PulledIn(entries[..i])
    ensures ReadEntry(entries[i]).Pull? ==>
              && FeaturesIn(entries[..i + 1]) == FeaturesIn(entries[..i])
              && PulledIn(entries[..i + 1]) == PulledIn(entries[..i]) + {ReadEntry(entries[i]).dep}
    ensures ReadEntry(entries[i]).Feature? ==> ReadEntry(entries[i]).name in FeaturesIn(entries)
  {
    hide ReadEntry;
    assert forall e :: e in entries[..i + 1] <==> e in entries[..i] || e == entries[i];
    assert entries[i] in entries;
  }

  lemma NothingPulled(features: map<string, seq<string>>, seen: set<string>)
    ensures PulledByFeatures(features, seen - seen) == {}
  {
  }

  lemma FreshPulls(features: map<string, seq<string>>, name: string, before: set<string>)
    ensures PulledByFeatures(features, before + {name} - before - {name}) == {}
    ensures PulledIn(EntriesOf(features, name)[..0]) == {} && FeaturesIn(EntriesOf(features, name)[..0]) == {}
  {
  }

  lemma PullsAddUp(features: map<string, seq<string>>, name: string, before: set<string>, seen: set<string>,
                   after: set<string>)
    requires before + {name} <= seen <= after
    ensures PulledByFeatures(features, seen - before - {name}) + PulledByFeatures(features, after - seen)
         == PulledByFeatures(features, after - before - {name})
  {
    PullsOfUnion(features, seen - before - {name}, after - seen);
    assert (seen - before - {name}) + (after - seen) == after - before - {name};
  }

  lemma PullsOfUnion(features: map<string, seq<string>>, a: set<string>, b: set<string>)
    ensures PulledByFeatures(features, a + b) == PulledByFeatures(features, a) + PulledByFeatures(features, b)
  {
  }

  lemma PullsOfRoot(features: map<string, seq<string>>, name: string, before: set<string>, seen: set<string>)
    requires before + {name} <= seen && name !in before
    ensures PulledByFeatures(features, seen - before)
         == PulledByFeatures(features, seen - before - {name}) + PulledIn(EntriesOf(features, name))
  {
    assert seen - before == (seen - before - {name}) + {name};
    PullsOfUnion(features, seen - before - {name}, {name});
    assert PulledByFeatures(features, {name}) == PulledIn(EntriesOf(features, name));
  }

  lemma ExploringSeen(next: string -> set<string>, root: string, before: set<string>, now: set<string>,
                      done: set<string>)
    requires Exploring(next, root, before, now, done)
    ensures root !in before && before + {root} <= now
  {
  }

  lemma ExploredGrows(next: string -> set<string>, root: string, before: set<string>, after: set<string>)
    requires Explored(next, root, before, after)
    ensures before <= after
  {
  }

  // ----- one package -----

  /** The dependencies that the features behind `default` pull, by their names in the feature table. */
  ghost predicate PulledByDefault(features: map<string, seq<string>>, a: string)
  {
    exists f :: Reaches(FeatureEdges(features), "default", f) && a in PulledIn(EntriesOf(features, f))
  }

  ghost function DefaultPulls(features: map<string, seq<string>>): set<string>
  {
    set a | a in PulledByFeatures(features, features.Keys) && PulledByDefault(features, a)
  }

  /** Weak entries aside. */
  ghost predicate CertainlyPulledByDefault(features: map<string, seq<string>>, a: string)
  {
    exists f :: Reaches(FeatureEdges(features), "default", f) && a in PulledForCertain(EntriesOf(features, f))
  }

  ghost function CertainPulls(features: map<string, seq<string>>): set<string>
  {
    set a | a in DefaultPulls(features) && CertainlyPulledByDefault(features, a)
  }

  lemma CertainPullsAreAll(features: map<string, seq<string>>, a: string)
    ensures a in CertainPulls(features) <==> CertainlyPulledByDefault(features, a)
  {
    hide Reaches, ReadEntry;
    DefaultPullsAreAll(features, a);
    if CertainlyPulledByDefault(features, a) {
      var f :| Reaches(FeatureEdges(features), "default", f) && a in PulledForCertain(EntriesOf(features, f));
      assert a in PulledIn(EntriesOf(features, f));
    }
  }

  lemma DefaultPullsAreAll(features: map<string, seq<string>>, a: string)
    ensures a in DefaultPulls(features) <==> PulledByDefault(features, a)
  {
    hide Reaches, ReadEntry;
    if PulledByDefault(features, a) {
      var f :| Reaches(FeatureEdges(features), "default", f) && a in PulledIn(EntriesOf(features, f));
      assert f in features.Keys;
    }
  }

  /** The names of the dependencies that are always there. */
  function Unconditional(deps: seq<Dep>): set<string>
  {
    set d | d in deps && !d.kind.Dev? && !d.optional :: d.name
  }

  function Resolved(deps: seq<Dep>, names: set<string>): set<string>
  {
    set a | a in names :: Resolve(AliasMap(deps), a)
  }

  /** What the code takes a package to pull in by default: everything goes through the alias table, the
      real names of unconditional dependencies included. */
  ghost function Direct(pkg: Package): set<string>
  {
    Resolved(pkg.deps, DefaultPulls(pkg.features) + Unconditional(pkg.deps))
  }

  method OneHopDefaultPull(pkg: Package) returns (direct: set<string>)
    ensures direct == Direct(pkg)
  {
    hide Explored, Reaches, PulledIn, FeatureEdges, Resolve, AliasMap;
    var walk := new FeatureWalk(pkg.features);
    walk.Expand("default");
    WalkFindsDefaultPulls(pkg.features, walk.seen);
    assert walk.seen - {} == walk.seen;
    var raw := walk.raw;
    for i := 0 to |pkg.deps|
      invariant raw == DefaultPulls(pkg.features) + Unconditional(pkg.deps[..i])
    {
      var d := pkg.deps[i];
      assert forall x :: x in pkg.deps[..i + 1] <==> x in pkg.deps[..i] || x == d;
      if !d.kind.Dev? && !d.optional {
        raw := raw + {d.name};
      }
    }
    assert pkg.deps[..|pkg.deps|] == pkg.deps;
    direct := set a | a in raw :: Resolve(AliasMap(pkg.deps), a);
  }

  lemma WalkFindsDefaultPulls(features: map<string, seq<string>>, seen: set<string>)
    requires Explored(FeatureEdges(features), "default", {}, seen)
    ensures PulledByFeatures(features, seen) == DefaultPulls(features)
  {
    hide Reaches, Explored, PulledIn, FeatureEdges;
    SearchFromScratchIsReachability(FeatureEdges(features), "default", seen);
    forall a
      ensures a in PulledByFeatures(features, seen) <==> a in DefaultPulls(features)
    {
      DefaultPullsAreAll(features, a);
    }
  }

  // ----- where the alias table goes wrong -----

  /** What a package really pulls in by default: only feature entries are aliases, and weak ones pull nothing. */
  ghost function Intended(pkg: Package): set<string>
  {
    Resolved(pkg.deps, CertainPulls(pkg.features)) + Unconditional(pkg.deps)
  }

  /** Features whose weak entries, as far as `default` reaches them, name dependencies that others pull. */
  ghost predicate WeakEntriesAreBacked(features: map<string, seq<string>>)
  {
    DefaultPulls(features) == CertainPulls(features)
  }

  lemma NoFeaturesNoPulls()
    ensures DefaultPulls(map[]) == CertainPulls(map[]) == {}
  {
    hide Reaches;
    var none: map<string, seq<string>> := map[];
    forall a
      ensures a !in PulledByFeatures(none, none.Keys)
    {
    }
    assert DefaultPulls(none) == {};
    assert CertainPulls(none) == {};
  }

  lemma ResolvedOfUnion(deps: seq<Dep>, a: set<string>, b: set<string>)
    ensures Resolved(deps, a + b) == Resolved(deps, a) + Resolved(deps, b)
  {
    hide Resolve;
  }

  /** The alias table maps the unconditional dependencies to themselves. */
  ghost predicate SoundTable(deps: seq<Dep>)
  {
    Resolved(deps, Unconditional(deps)) == Unconditional(deps)
  }

  /** For a table of dependencies, the code is right about every feature table without unbacked weak entries
      exactly when aliasing the names of the unconditional dependencies gives back those names. */
  lemma RightForAllFeaturesIff(name: string, deps: seq<Dep>)
    ensures (forall features :: WeakEntriesAreBacked(features) ==> IsRight(Package(name, features, deps)))
       <==> SoundTable(deps)
  {
    hide Resolved, Unconditional, DefaultPulls, CertainPulls;
    forall features | WeakEntriesAreBacked(features)
      ensures IsRight(Package(name, features, deps))
         <==> Resolved(deps, DefaultPulls(features)) + Resolved(deps, Unconditional(deps))
              == Resolved(deps, DefaultPulls(features)) + Unconditional(deps)
    {
      ResolvedOfUnion(deps, DefaultPulls(features), Unconditional(deps));
    }
    if forall features :: WeakEntriesAreBacked(features) ==> IsRight(Package(name, features, deps)) {
      NoFeaturesNoPulls();
      assert WeakEntriesAreBacked(map[]);
      assert IsRight(Package(name, map[], deps));
      ResolvedOfNone(deps);
    }
  }

  ghost predicate IsRight(pkg: Package)
  {
    Direct(pkg) == Intended(pkg)
  }

  /** With a sound table, the code reports too much exactly when a dependency that default features name only
      weakly is pulled by nothing else. */
  lemma RightIffWeakPullsAreReal(pkg: Package)
    requires SoundTable(pkg.deps)
    ensures Intended(pkg) <= Direct(pkg)
    ensures IsRight(pkg)
      <==> Resolved(pkg.deps, DefaultPulls(pkg.features) - CertainPulls(pkg.features)) <= Intended(pkg)
  {
    hide Resolved, Unconditional, DefaultPulls, Reaches;
    var all, certain := DefaultPulls(pkg.features), CertainPulls(pkg.features);
    assert certain <= all && all == certain + (all - certain);
    hide CertainPulls;
    ResolvedOfUnion(pkg.deps, all, Unconditional(pkg.deps));
    ResolvedOfUnion(pkg.deps, certain, all - certain);
  }

  /** Only weakly named, and reported all the same. */
  lemma WeakEntryIsReported()
    ensures var pkg := Package("p", map["default" := ["x?/std"]], [Dep("x", None, true, Normal)]);
      "x" in Direct(pkg) && Intended(pkg) == {}
  {
    var features := map["default" := ["x?/std"]];
    var deps := [Dep("x", None, true, Normal)];
    WeakEntryReads();
    OnlyDefaultIsReached(features);
    DefaultPullsAreAll(features, "x");
    ReachesItself(FeatureEdges(features), "default");
    assert "x?/std" in EntriesOf(features, "default") && "x" in PulledIn(EntriesOf(features, "default"));
    assert Unconditional(deps) == {};
    assert deps[..0] == [];
    assert AliasMap(deps) == map["x" := "x"];
    forall a
      ensures a !in CertainPulls(features)
    {
      CertainPullsAreAll(features, a);
    }
    assert CertainPulls(features) == {};
    ResolvedOfNone(deps);
    assert Resolve(AliasMap(deps), "x") == "x";
  }

  lemma WeakEntryReads()
    ensures ReadEntry("x?/std") == Pull("x") && IsWeak("x?/std")
  {
    var e := "x?/std";
    assert e[0] != 'd' && e[1] == '?' && e[2] == '/';
    assert FirstIndex(e, c => c == '/') == 2;
    assert e[..2] == "x" + "?";
    AfterLastIs("x", "?", c => c != '?');
    assert e[..2][..1] == "x";
  }

  lemma OnlyDefaultIsReached(features: map<string, seq<string>>)
    requires features == map["default" := ["x?/std"]]
    ensures forall f :: Reaches(FeatureEdges(features), "default", f) ==> f == "default"
  {
    WeakEntryReads();
    assert EntriesOf(features, "default") == ["x?/std"];
    assert FeatureEdges(features)("default") == {};
    forall f | Reaches(FeatureEdges(features), "default", f)
      ensures f == "default"
    {
      var d: nat :| f in Ball({"default"}, FeatureEdges(features), d);
      BallStaysInside(FeatureEdges(features), "default", {"default"}, d);
    }
  }

  lemma ResolvedOfNone(deps: seq<Dep>)
    ensures Resolved(deps, {}) == {}
  {
  }

  lemma {:induction false} AliasMapSound(deps: seq<Dep>, a: string)
    requires a in AliasMap(deps)
    ensures exists e :: e in deps && Alias(e) == a && AliasMap(deps)[a] == e.name
    decreases |deps|
  {
    var init, last := deps[..|deps| - 1], deps[|deps| - 1];
    assert last in deps && forall e :: e in init ==> e in deps;
    if Alias(last) != a {
      AliasMapSound(init, a);
    }
  }

  /** In particular it is right whenever no dependency is renamed to the name of another. */
  lemma RightWithoutClashes(name: string, deps: seq<Dep>)
    requires forall d, e :: d in deps && e in deps && Alias(e) == d.name ==> e.name == d.name
    ensures forall features :: WeakEntriesAreBacked(features) ==> IsRight(Package(name, features, deps))
  {
    hide AliasMap, Alias, WeakEntriesAreBacked, IsRight;
    forall a | a in Unconditional(deps)
      ensures Resolve(AliasMap(deps), a) == a
    {
      if a in AliasMap(deps) {
        AliasMapSound(deps, a);
      }
    }
    assert SoundTable(deps);
    RightForAllFeaturesIff(name, deps);
  }

  /** And it is wrong for `foo` renamed `bar` beside an optional `baz` renamed `foo`: the unconditional
      `foo` is read as an alias, and reported as `baz`. */
  lemma RenamedDependencyIsMissed()
    ensures var deps := [Dep("foo", Some("bar"), false, Normal), Dep("baz", Some("foo"), true, Normal)];
      && Direct(Package("p", map[], deps)) == {"baz"}
      && Intended(Package("p", map[], deps)) == {"foo"}
  {
    var d0, d1 := Dep("foo", Some("bar"), false, Normal), Dep("baz", Some("foo"), true, Normal);
    var deps := [d0, d1];
    NoFeaturesNoPulls();
    assert Unconditional(deps) == {"foo"};
    assert deps[..1] == [d0] && [d0][..0] == [];
    assert AliasMap(deps) == AliasMap([d0])["foo" := "baz"];
    assert Resolve(AliasMap(deps), "foo") == "baz";
    assert DefaultPulls(map[]) + Unconditional(deps) == {"foo"};
    assert Resolved(deps, {"foo"}) == {"baz"};
    ResolvedOfNone(deps);
  }

  // ----- the chain over packages -----

  /** Names key the table. */
  ghost predicate WellNamed(byName: map<string, Package>)
  {
    forall n :: n in byName ==> byName[n].name == n
  }

  /** Default edges between workspace packages. */
  ghost function PackageEdges(byName: map<string, Package>): string -> set<string>
  {
    n => if n in byName then set k | k in Direct(byName[n]) && k in byName else {}
  }

  ghost function PulledByPackages(byName: map<string, Package>, names: set<string>): set<string>
  {
    set n, k | n in names && n in byName && k in Direct(byName[n]) :: k
  }

  /** The set that the recursion shares. */
  class Visited {
    var names: set<string>

    constructor ()
      ensures names == {}
    {
      names := {};
    }
  }

  method TransitiveDefaultChain(pkg: Package, byName: map<string, Package>, visited: Visited)
    returns (result: set<string>)
    requires WellNamed(byName) && pkg.name in byName && byName[pkg.name] == pkg
    modifies visited
    ensures Explored(PackageEdges(byName), pkg.name, old(visited.names), visited.names)
    ensures result == PulledByPackages(byName, visited.names - old(visited.names))
    decreases byName.Keys - visited.names
  {
    hide Explored, Exploring, PulledByPackages, Direct, PackageEdges;
    ghost var edges, before := PackageEdges(byName), visited.names;
    if pkg.name in visited.names {
      ExploreVisited(edges, pkg.name, visited.names);
      PackagesPullNothing(byName, visited.names);
      return {};
    }
    ExploreStarts(edges, pkg.name, visited.names);
    visited.names := visited.names + {pkg.name};
    var direct := OneHopDefaultPull(pkg);
    result := direct;
    var left := direct;
    PackagePulls(byName, pkg, before, visited.names);
    NoneDone(byName, direct);
    while left != {}
      invariant left <= direct
      invariant before + {pkg.name} <= visited.names
      invariant Exploring(edges, pkg.name, before, visited.names, Workspace(byName, direct - left))
      invariant result == PulledByPackages(byName, visited.names - before)
    {
      var depName :| depName in left;
      ghost var seen, done, left0 := visited.names, Workspace(byName, direct - left), left;
      left := left - {depName};
      assert left0 == left + {depName};
      OneMoreDone(byName, direct, left, depName);
      if depName in byName {
        var more := TransitiveDefaultChain(byName[depName], byName, visited);
        ExploredGrows(edges, depName, seen, visited.names);
        EdgesOf(byName, pkg, depName);
        ExploreChild(edges, pkg.name, before, seen, done, depName, visited.names);
        PackagePullsAddUp(byName, before, seen, visited.names);
        result := result + more;
      }
    }
    assert direct - left == direct;
    WholeEdges(byName, pkg);
    ExploreEnds(edges, pkg.name, before, visited.names, Workspace(byName, direct));
  }

  ghost function Workspace(byName: map<string, Package>, names: set<string>): set<string>
  {
    set k | k in names && k in byName
  }

  lemma NoneDone(byName: map<string, Package>, direct: set<string>)
    ensures Workspace(byName, direct - direct) == {}
  {
  }

  lemma OneMoreDone(byName: map<string, Package>, direct: set<string>, left: set<string>, k: string)
    requires k in direct && k !in left
    ensures var done := Workspace(byName, direct - (left + {k}));
      Workspace(byName, direct - left) == if k in byName then done + {k} else done
  {
  }

  lemma EdgesOf(byName: map<string, Package>, pkg: Package, k: string)
    requires pkg.name in byName && byName[pkg.name] == pkg && k in byName && k in Direct(pkg)
    ensures k in PackageEdges(byName)(pkg.name)
  {
    hide Direct;
  }

  lemma WholeEdges(byName: map<string, Package>, pkg: Package)
    requires pkg.name in byName && byName[pkg.name] == pkg
    ensures PackageEdges(byName)(pkg.name) == Workspace(byName, Direct(pkg))
  {
    hide Direct;
  }

  lemma PackagesPullNothing(byName: map<string, Package>, names: set<string>)
    ensures PulledByPackages(byName, names - names) == {}
  {
  }

  lemma PackagePulls(byName: map<string, Package>, pkg: Package, before: set<string>, now: set<string>)
    requires pkg.name in byName && byName[pkg.name] == pkg && pkg.name !in before && now == before + {pkg.name}
    ensures PulledByPackages(byName, now - before) == Direct(pkg)
  {
    hide Direct;
    assert now - before == {pkg.name};
  }

  lemma PackagePullsAddUp(byName: map<string, Package>, before: set<string>, seen: set<string>, after: set<string>)
    requires before <= seen <= after
    ensures PulledByPackages(byName, seen - before) + PulledByPackages(byName, after - seen)
         == PulledByPackages(byName, after - before)
  {
    hide Direct;
  }

  // ----- the checks -----

  /** `k` is pulled in, over one or more default edges through workspace packages, by package `name`. */
  ghost predicate PullsIn(byName: map<string, Package>, name: string, k: string)
  {
    exists n :: Reaches(PackageEdges(byName), name, n) && n in byName && k in Direct(byName[n])
  }

  method DefaultChain(pkg: Package, byName: map<string, Package>) returns (chain: set<string>)
    requires WellNamed(byName) && pkg.name in byName && byName[pkg.name] == pkg
    ensures forall k :: k in chain <==> PullsIn(byName, pkg.name, k)
  {
    hide Explored, Reaches, PackageEdges, Direct;
    var visited := new Visited();
    chain := TransitiveDefaultChain(pkg, byName, visited);
    assert visited.names - {} == visited.names;
    SearchFromScratchIsReachability(PackageEdges(byName), pkg.name, visited.names);
  }

  // ----- the chain that is meant -----

  ghost function IntendedEdges(byName: map<string, Package>): string -> set<string>
  {
    n => if n in byName then set k | k in Intended(byName[n]) && k in byName else {}
  }

  /** `k` really is pulled in over default edges: the closure over what packages really need. */
  ghost predicate ReallyPullsIn(byName: map<string, Package>, name: string, k: string)
  {
    exists n :: Reaches(IntendedEdges(byName), name, n) && n in byName && k in Intended(byName[n])
  }

  predicate IsUnconditional(d: Dep)
  {
    !d.kind.Dev? && !d.optional
  }

  ghost predicate ReadAsUnconditional(deps: seq<Dep>, a: string)
  {
    exists e :: e in deps && IsUnconditional(e) && Resolve(AliasMap(deps), a) == e.name
  }

  ghost predicate IsReading(deps: seq<Dep>, a: string)
  {
    exists c :: c in deps && IsUnconditional(c) && Resolve(AliasMap(deps), c.name) == a
  }

  /** Read from pairs of dependencies: each unconditional one is read as an unconditional one, and each is
      what some unconditional one is read as. */
  lemma SoundTableIff(deps: seq<Dep>)
    ensures SoundTable(deps) <==>
      forall d :: d in deps && IsUnconditional(d) ==> ReadAsUnconditional(deps, d.name) && IsReading(deps, d.name)
  {
    hide Resolve, AliasMap, Unconditional, Resolved, ReadAsUnconditional, IsReading, IsUnconditional;
    var names := Unconditional(deps);
    forall a
      ensures a in names ==> (ReadAsUnconditional(deps, a) <==> Resolve(AliasMap(deps), a) in names)
      ensures IsReading(deps, a) <==> a in Resolved(deps, names)
    {
      ReadingFacts(deps, a);
    }
    NamesOfDeps(deps);
    ResolvedWithinIff(deps, names);
    if forall d :: d in deps && IsUnconditional(d) ==> ReadAsUnconditional(deps, d.name) && IsReading(deps, d.name) {
      forall a | a in names
        ensures ReadAsUnconditional(deps, a) && IsReading(deps, a)
      {
        var d :| d in deps && IsUnconditional(d) && d.name == a;
      }
    }
    if SoundTable(deps) {
      assert forall d :: d in deps && IsUnconditional(d) ==> d.name in names && d.name in Resolved(deps, names);
      assert Resolved(deps, names) <= names;
      forall a | a in names
        ensures ReadAsUnconditional(deps, a)
      {
        assert Resolve(AliasMap(deps), a) in names;
      }
    }
  }

  lemma NamesOfDeps(deps: seq<Dep>)
    ensures forall d :: d in deps && IsUnconditional(d) ==> d.name in Unconditional(deps)
    ensures forall a :: a in Unconditional(deps) ==> exists d :: d in deps && IsUnconditional(d) && d.name == a
  {
  }

  ghost predicate StaysWithin(deps: seq<Dep>, names: set<string>)
  {
    forall a :: a in names ==> Resolve(AliasMap(deps), a) in names
  }

  lemma ResolvedWithinIff(deps: seq<Dep>, names: set<string>)
    ensures Resolved(deps, names) <= names <==> StaysWithin(deps, names)
  {
    hide Resolve, AliasMap;
    var read := Resolved(deps, names);
    if StaysWithin(deps, names) {
      forall b | b in read
        ensures b in names
      {
        var a :| a in names && Resolve(AliasMap(deps), a) == b;
      }
      assert read <= names;
    }
    if read <= names {
      forall a | a in names
        ensures Resolve(AliasMap(deps), a) in names
      {
        assert Resolve(AliasMap(deps), a) in read;
      }
      assert StaysWithin(deps, names);
    }
  }

  lemma ReadingFacts(deps: seq<Dep>, a: string)
    ensures ReadAsUnconditional(deps, a) <==> Resolve(AliasMap(deps), a) in Unconditional(deps)
    ensures IsReading(deps, a) <==> a in Resolved(deps, Unconditional(deps))
  {
    hide Resolve, AliasMap;
    if c :| c in deps && IsUnconditional(c) && Resolve(AliasMap(deps), c.name) == a {
      assert c.name in Unconditional(deps);
    }
    if b :| b in Unconditional(deps) && Resolve(AliasMap(deps), b) == a {
      var c :| c in deps && IsUnconditional(c) && c.name == b;
      assert IsReading(deps, a);
    }
  }

  /** With sound tables throughout the workspace, the chain misses nothing that is meant. */
  lemma SoundTablesMissNothing(byName: map<string, Package>, name: string, k: string)
    requires forall n :: n in byName ==> SoundTable(byName[n].deps)
    ensures ReallyPullsIn(byName, name, k) ==> PullsIn(byName, name, k)
  {
    hide Direct, Intended, SoundTable, Ball;
    forall n | n in byName
      ensures Intended(byName[n]) <= Direct(byName[n])
    {
      RightIffWeakPullsAreReal(byName[n]);
    }
    var next, other := IntendedEdges(byName), PackageEdges(byName);
    assert forall n :: next(n) <= other(n);
    forall n | Reaches(next, name, n)
      ensures Reaches(other, name, n)
    {
      var d: nat :| n in Ball({name}, next, d);
      WiderBall({name}, next, other, d);
    }
  }

  /** Where, besides, weak entries are backed, it is the one that is meant. */
  lemma SoundTablesGiveTheRealChain(byName: map<string, Package>, name: string, k: string)
    requires forall n :: n in byName ==> SoundTable(byName[n].deps) && WeakEntriesAreBacked(byName[n].features)
    ensures PullsIn(byName, name, k) <==> ReallyPullsIn(byName, name, k)
  {
    hide SoundTable, WeakEntriesAreBacked;
    forall n | n in byName
      ensures IsRight(byName[n])
    {
      BackedAndSoundIsRight(byName[n]);
    }
    RightPackagesGiveTheRealChain(byName, name, k);
  }

  lemma BackedAndSoundIsRight(pkg: Package)
    requires SoundTable(pkg.deps) && WeakEntriesAreBacked(pkg.features)
    ensures IsRight(pkg)
  {
    hide Resolved, Unconditional, DefaultPulls, CertainPulls;
    ResolvedOfUnion(pkg.deps, DefaultPulls(pkg.features), Unconditional(pkg.deps));
  }

  lemma RightPackagesGiveTheRealChain(byName: map<string, Package>, name: string, k: string)
    requires forall n :: n in byName ==> IsRight(byName[n])
    ensures PullsIn(byName, name, k) <==> ReallyPullsIn(byName, name, k)
  {
    hide Direct, Intended, Ball;
    var next, other := PackageEdges(byName), IntendedEdges(byName);
    assert forall n :: n in byName ==> IsRight(byName[n]) && Direct(byName[n]) == Intended(byName[n]);
    assert forall n :: next(n) == other(n);
    forall n
      ensures Reaches(next, name, n) <==> Reaches(other, name, n)
    {
      if d: nat :| n in Ball({name}, next, d) {
        SameBall({name}, next, other, d);
      }
      if d: nat :| n in Ball({name}, other, d) {
        SameBall({name}, next, other, d);
      }
    }
  }

  ghost predicate PullsInNone(byName: map<string, Package>, name: string, names: set<string>)
  {
    forall k :: k in names ==> !PullsIn(byName, name, k)
  }

  ghost predicate Reported(errors: seq<(string, set<string>)>, name: string)
  {
    exists e :: e in errors && e.0 == name
  }

  lemma ReportedAfter(errors: seq<(string, set<string>)>, error: (string, set<string>))
    ensures Reported(errors + [error], error.0)
    ensures forall name :: Reported(errors, name) ==> Reported(errors + [error], name)
  {
    assert error in errors + [error];
    assert forall e :: e in errors ==> e in errors + [error];
  }

  /** Check 3: which published packages pull in unpublished ones, and which ones. */
  method CheckDefaults(packages: seq<Package>, byName: map<string, Package>, published: set<string>,
                       unpublished: set<string>)
    returns (errors: seq<(string, set<string>)>)
    requires WellNamed(byName) && forall p :: p in packages ==> p.name in byName && byName[p.name] == p
    ensures errors == [] <==>
      forall p :: p in packages && p.name in published ==> PullsInNone(byName, p.name, unpublished)
    ensures forall e :: e in errors ==>
      e.0 in published && e.1 != {} && forall k :: k in e.1 <==> k in unpublished && PullsIn(byName, e.0, k)
    ensures forall p :: p in packages && p.name in published && !PullsInNone(byName, p.name, unpublished) ==>
      Reported(errors, p.name)
  {
    hide PullsIn;
    errors := [];
    for i := 0 to |packages|
      invariant errors == [] <==>
        forall p :: p in packages[..i] && p.name in published ==> PullsInNone(byName, p.name, unpublished)
      invariant forall e :: e in errors ==>
        e.0 in published && e.1 != {} && forall k :: k in e.1 <==> k in unpublished && PullsIn(byName, e.0, k)
      invariant forall p :: p in packages[..i] && p.name in published && !PullsInNone(byName, p.name, unpublished) ==>
        Reported(errors, p.name)
    {
      var pkg := packages[i];
      assert forall p :: p in packages[..i + 1] <==> p in packages[..i] || p == pkg;
      assert pkg in packages[..i + 1];
      if pkg.name !in published {
        continue;
      }
      var chain := DefaultChain(pkg, byName);
      var bad := chain * unpublished;
      assert forall k :: k in unpublished && k in chain ==> k in bad;
      if bad != {} {
        var k :| k in bad;
        assert !PullsInNone(byName, pkg.name, unpublished);
        ReportedAfter(errors, (pkg.name, bad));
        errors := errors + [(pkg.name, bad)];
      }
    }
    assert packages[..|packages|] == packages;
  }

  /** Check 3b finds nothing: every dependency that has a tier has an earlier one. */
  ghost predicate TiersInOrder(packages: seq<Package>, tierOf: map<string, int>)
  {
    forall p, d :: p in packages && p.name in tierOf && d in p.deps && !d.kind.Dev? && d.name in tierOf ==>
      tierOf[d.name] < tierOf[p.name]
  }

  /** Package `name` needs `dep`, which is not published in an earlier tier. */
  ghost predicate OutOfOrder(p: Package, d: Dep, tierOf: map<string, int>)
  {
    p.name in tierOf && !d.kind.Dev? && d.name in tierOf && tierOf[d.name] >= tierOf[p.name]
  }

  /** The error list names exactly the pairs of a package and a dependency that are out of order. */
  ghost predicate NamesAll(errors: seq<(string, string)>, packages: seq<Package>, tierOf: map<string, int>)
  {
    && (forall p, d :: p in packages && d in p.deps && OutOfOrder(p, d, tierOf) ==> (p.name, d.name) in errors)
    && (forall e :: e in errors ==> Justified(e, packages, tierOf))
  }

  ghost predicate Justified(e: (string, string), packages: seq<Package>, tierOf: map<string, int>)
  {
    exists p, d :: p in packages && d in p.deps && OutOfOrder(p, d, tierOf) && e == (p.name, d.name)
  }

  method CheckTiers(packages: seq<Package>, tierOf: map<string, int>) returns (errors: seq<(string, string)>)
    ensures NamesAll(errors, packages, tierOf)
    ensures errors == [] <==> TiersInOrder(packages, tierOf)
  {
    hide NamesAll, TiersInOrder;
    errors := [];
    NoneNamed(packages, tierOf);
    for i := 0 to |packages|
      invariant NamesAll(errors, packages[..i], tierOf)
    {
      var pkg := packages[i];
      ghost var errors0 := errors;
      if pkg.name !in tierOf {
        NamedFor(errors0, [], packages, i, tierOf);
        assert errors0 + [] == errors0;
        continue;
      }
      ghost var more: seq<(string, string)> := [];
      for j := 0 to |pkg.deps|
        invariant errors == errors0 + more
        invariant forall d :: d in pkg.deps[..j] && OutOfOrder(pkg, d, tierOf) ==> (pkg.name, d.name) in more
        invariant forall e :: e in more ==>
          exists d :: d in pkg.deps && OutOfOrder(pkg, d, tierOf) && e == (pkg.name, d.name)
      {
        var d := pkg.deps[j];
        assert forall x :: x in pkg.deps[..j + 1] <==> x in pkg.deps[..j] || x == d;
        if d.kind.Dev? {
          continue;
        }
        if d.name in tierOf && tierOf[d.name] >= tierOf[pkg.name] {
          errors := errors + [(pkg.name, d.name)];
          more := more + [(pkg.name, d.name)];
        }
      }
      assert pkg.deps[..|pkg.deps|] == pkg.deps;
      NamedFor(errors0, more, packages, i, tierOf);
    }
    assert packages[..|packages|] == packages;
    NoErrorsIffInOrder(errors, packages, tierOf);
  }

  lemma NoneNamed(packages: seq<Package>, tierOf: map<string, int>)
    ensures NamesAll([], packages[..0], tierOf)
  {
  }

  lemma NamedFor(errors: seq<(string, string)>, more: seq<(string, string)>, packages: seq<Package>, i: nat,
                 tierOf: map<string, int>)
    requires i < |packages| && NamesAll(errors, packages[..i], tierOf)
    requires forall d :: d in packages[i].deps && OutOfOrder(packages[i], d, tierOf) ==>
      (packages[i].name, d.name) in more
    requires forall e :: e in more ==>
      exists d :: d in packages[i].deps && OutOfOrder(packages[i], d, tierOf) && e == (packages[i].name, d.name)
    ensures NamesAll(errors + more, packages[..i + 1], tierOf)
  {
    hide OutOfOrder;
    assert forall p :: p in packages[..i + 1] <==> p in packages[..i] || p == packages[i];
    forall e | e in errors + more
      ensures Justified(e, packages[..i + 1], tierOf)
    {
      if e in errors {
        assert Justified(e, packages[..i], tierOf);
        var p, d :| p in packages[..i] && d in p.deps && OutOfOrder(p, d, tierOf) && e == (p.name, d.name);
        assert p in packages[..i + 1];
      } else {
        assert e in more && packages[i] in packages[..i + 1];
      }
    }
  }

  lemma NoErrorsIffInOrder(errors: seq<(string, string)>, packages: seq<Package>, tierOf: map<string, int>)
    requires NamesAll(errors, packages, tierOf)
    ensures errors == [] <==> TiersInOrder(packages, tierOf)
  {
    if errors != [] {
      assert errors[0] in errors && Justified(errors[0], packages, tierOf);
    }
    if errors == [] {
      forall p, d | p in packages && p.name in tierOf && d in p.deps && !d.kind.Dev? && d.name in tierOf
        ensures tierOf[d.name] < tierOf[p.name]
      {
        assert !OutOfOrder(p, d, tierOf);
      }
    }
  }

  /** Each name in `chain` is a tiered dependency of a tiered package before it. */
  ghost predicate DependencyChain(packages: seq<Package>, tierOf: map<string, int>, chain: seq<string>)
  {
    && (forall i :: 0 <= i < |chain| ==> chain[i] in tierOf)
    && forall i :: 0 < i < |chain| ==> DependsOn(packages, chain[i - 1], chain[i])
  }

  ghost predicate DependsOn(packages: seq<Package>, name: string, dep: string)
  {
    exists p, d :: p in packages && p.name == name && d in p.deps && !d.kind.Dev? && d.name == dep
  }

  /** So with tiers in order, whatever a crate needs, however indirectly, is published before it, and no
      crate needs itself. */
  lemma {:induction false} TiersOrderPublishing(packages: seq<Package>, tierOf: map<string, int>, chain: seq<string>)
    requires TiersInOrder(packages, tierOf) && DependencyChain(packages, tierOf, chain) && |chain| >= 2
    ensures tierOf[chain[|chain| - 1]] < tierOf[chain[0]] && chain[|chain| - 1] != chain[0]
    decreases |chain|
  {
    var n := |chain| - 1;
    assert DependsOn(packages, chain[n - 1], chain[n]);
    var p, d :| p in packages && p.name == chain[n - 1] && d in p.deps && !d.kind.Dev? && d.name == chain[n];
    if n >= 2 {
      TiersOrderPublishing(packages, tierOf, chain[..n]);
    }
  }
}
