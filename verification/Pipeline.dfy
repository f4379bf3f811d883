/** From manifests to a lockfile and back: `build_lockfile` and the whole pipeline. */
module Pipeline {
  import opened Wrappers
  import opened Sorting
  import opened TomlText
  import opened ResolveSpec
  import opened Lockfiles
  import opened LockfileRoundTrip
  import Manifests
  import ManifestRoundTrip

  // ---- build_lockfile ----

  /** The version recorded last for a name. */
  function VersionOf(ps: seq<ResolvedPackage>, n: string): Option<string> {
    if ps == [] then None
    else if ps[|ps| - 1].name == n then Some(ps[|ps| - 1].version)
    else VersionOf(ps[..|ps| - 1], n)
  }

  /** The dependency rows of the names that have a version; other names are dropped. */
  function Rows(ps: seq<ResolvedPackage>, names: seq<string>): seq<LockedDependency> {
    if names == [] then []
    else
      var n := names[|names| - 1];
      Rows(ps, names[..|names| - 1])
        + (match VersionOf(ps, n)
           case Some(v) => [LockedDependency(n, v)]
           case None => [])
  }

  /** A lockfile row holds its package's fields and, sorted, its dependency rows. */
  ghost predicate LocksPackage(ps: seq<ResolvedPackage>, pkg: ResolvedPackage, row: LockfilePackage) {
    && row.name == pkg.name && row.version == pkg.version && row.source == pkg.source
    && SortedPermutation(Rows(ps, pkg.dependencyNames), row.dependencies, DependencyBefore)
  }

  ghost predicate LocksAll(all: seq<ResolvedPackage>, ps: seq<ResolvedPackage>, rows: seq<LockfilePackage>) {
    |rows| == |ps| && forall i :: 0 <= i < |ps| ==> LocksPackage(all, ps[i], rows[i])
  }

  method BuildLockfile(graph: ResolvedGraph) returns (lockfile: Lockfile)
    ensures lockfile.schemaVersion == 1
    ensures LocksAll(graph.packages, graph.packages, lockfile.packages)
  {
    var ps := graph.packages;
    var versions: map<string, string> := map[];
    var i := 0;
    while i < |ps|
      invariant 0 <= i <= |ps|
      invariant forall n :: VersionOf(ps[..i], n) == if n in versions then Some(versions[n]) else None
    {
      assert ps[..i + 1][..i] == ps[..i];
      versions := versions[ps[i].name := ps[i].version];
      i := i + 1;
    }
    assert ps[..i] == ps;
    OrdersAreWeak();
    hide DependencyBefore, PackageBefore;
    var rows: seq<LockfilePackage> := [];
    i := 0;
    while i < |ps|
      invariant 0 <= i <= |ps|
      invariant LocksAll(ps, ps[..i], rows)
    {
      var dependencies := BuildRows(ps, versions, ps[i].dependencyNames);
      dependencies := Sort(dependencies, DependencyBefore);
      var row := LockfilePackage(ps[i].name, ps[i].version, ps[i].source, dependencies);
      assert LocksPackage(ps, ps[i], row);
      rows := rows + [row];
      i := i + 1;
    }
    lockfile := Lockfile(1, rows);
  }

  method BuildRows(ghost ps: seq<ResolvedPackage>, versions: map<string, string>, names: seq<string>)
    returns (rows: seq<LockedDependency>)
    requires forall n :: VersionOf(ps, n) == if n in versions then Some(versions[n]) else None
    ensures rows == Rows(ps, names)
  {
    rows := [];
    var i := 0;
    while i < |names|
      invariant 0 <= i <= |names|
      invariant rows == Rows(ps, names[..i])
    {
      assert names[..i + 1][..i] == names[..i];
      if names[i] in versions {
        rows := rows + [LockedDependency(names[i], versions[names[i]])];
      }
      i := i + 1;
    }
    assert names[..i] == names;
  }

  // ---- Nothing is lost ----

  lemma {:induction false} VersionFound(ps: seq<ResolvedPackage>, i: nat)
    requires i < |ps| && UniqueNames(ps)
    ensures VersionOf(ps, ps[i].name) == Some(ps[i].version)
  {
    if i < |ps| - 1 {
      assert ps[i].name != ps[|ps| - 1].name;
      VersionFound(ps[..|ps| - 1], i);
    }
  }

  /** The rows list exactly the names, in order, when every name is in the graph. */
  lemma {:induction false} RowsListNames(g: ResolvedGraph, names: seq<string>)
    requires UniqueNames(g.packages) && forall n :: n in names ==> NameInGraph(g, n)
    ensures |Rows(g.packages, names)| == |names|
    ensures forall k :: 0 <= k < |names| ==> Rows(g.packages, names)[k].name == names[k]
    ensures forall k :: 0 <= k < |names| ==> VersionInGraph(g, Rows(g.packages, names)[k])
  {
    if names != [] {
      var shorter, n := names[..|names| - 1], names[|names| - 1];
      RowsListNames(g, shorter);
      assert n in names;
      var i :| 0 <= i < |g.packages| && g.packages[i].name == n;
      VersionFound(g.packages, i);
    }
  }

  ghost predicate VersionInGraph(g: ResolvedGraph, d: LockedDependency) {
    exists i :: 0 <= i < |g.packages| && g.packages[i].name == d.name && g.packages[i].version == d.version
  }

  lemma SortedNamesStay(names: seq<string>, rows: seq<LockedDependency>, sorted: seq<LockedDependency>)
    requires StrictlySorted(names) && |rows| == |names|
    requires forall k :: 0 <= k < |names| ==> rows[k].name == names[k]
    requires SortedPermutation(rows, sorted, DependencyBefore)
    ensures sorted == rows && Sorted(rows, DependencyBefore)
  {
    LessIsTotalOrder();
    forall i, j | 0 <= i < j < |rows| ensures !DependencyBefore(rows[j], rows[i]) {
      assert Less(names[i], names[j]);
    }
    OrdersAreWeak();
    DependenciesDoNotTie(rows);
    SortedStays(rows, sorted, DependencyBefore);
  }

  /**
   For a resolved graph no dependency edge is dropped: every row lists exactly the package's
   dependency names, in order, each with the version that the graph holds under that name.
   */
  lemma BuildDropsNothing(w: World, o: Options, root: string, g: ResolvedGraph, rows: seq<LockfilePackage>, i: nat)
    requires Consistent(w, o, root) && IsResolution(w, o, root, g)
    requires LocksAll(g.packages, g.packages, rows) && i < |rows|
    ensures |rows[i].dependencies| == |g.packages[i].dependencyNames|
    ensures forall k :: 0 <= k < |rows[i].dependencies| ==> rows[i].dependencies[k].name == g.packages[i].dependencyNames[k]
    ensures forall k :: 0 <= k < |rows[i].dependencies| ==> VersionInGraph(g, rows[i].dependencies[k])
    ensures Sorted(rows[i].dependencies, DependencyBefore)
  {
    var names := g.packages[i].dependencyNames;
    assert LocksPackage(g.packages, g.packages[i], rows[i]);
    assert FinalRow(w, o, root, g.packages[i]);
    forall n | n in names ensures NameInGraph(g, n) {
      DependenciesAreInGraph(w, o, root, g, i, n);
    }
    hide Consistent, IsResolution, FinalRow, NameInGraph;
    assert UniqueNames(g.packages);
    RowsListNames(g, names);
    SortedNamesStay(names, Rows(g.packages, names), rows[i].dependencies);
  }

  // ---- Written and read back ----

  /** A dependency locator never claims the root's own source. */
  ghost predicate NoRootSource(o: Options) {
    o.locator.Some? ==> forall owner, d :: o.locator.value(owner, d).Ok? ==> o.locator.value(owner, d).value.source != "root"
  }

  lemma LocatedSource(w: World, o: Options, owner: string, d: Dependency)
    requires NoRootSource(o) && Locate(w, o, owner, d).Ok?
    ensures Locate(w, o, owner, d).value.source != "" && Locate(w, o, owner, d).value.source != "root"
  {
    if d.kind != Manifests.Path {
      assert SourceId(d) != "" && SourceId(d)[0] in {'g', 't'};
      if o.locator.None? {
        FirstLockedIsRow(o.lockfile.value.packages, d);
      }
    } else {
      var path := w.locatePath(owner, d.path).value;
      assert ("path+" + w.packageRoot(path))[0] == 'p';
    }
  }

  lemma RowSource(w: World, o: Options, root: string, pkg: ResolvedPackage)
    requires NoRootSource(o) && SourceIsKnown(w, o, root, pkg)
    ensures pkg.source != "" && (pkg.source == "root" <==> pkg.manifestPath == root)
  {
    if pkg.manifestPath != root {
      var p: string, d: Dependency :| Reachable(w, o, root, p) && EdgeVia(w, o, root, p, d, Location(pkg.manifestPath, pkg.source));
      LocatedSource(w, o, p, d);
    }
  }

  /** Every manifest on disk was accepted by the manifest parser. */
  ghost predicate ValidatedWorld(w: World) {
    forall p :: p in w.manifests ==> ManifestRoundTrip.Valid(w.manifests[p])
  }

  lemma {:induction false} DottedNumbersAreSemverish(s: string, dots: nat)
    requires Manifests.DottedNumbers(s, dots)
    ensures Semverish(s)
    decreases dots
  {
    var n := Manifests.DigitRun(s);
    assert IsDigit(s[0]);
    if dots == 0 {
      PreReleaseChars(s[n..]);
      assert forall i :: n <= i < |s| ==> s[i] == s[n..][i - n];
    } else {
      DottedNumbersAreSemverish(s[n + 1..], dots - 1);
      assert forall i :: n + 1 <= i < |s| ==> s[i] == s[n + 1..][i - n - 1];
    }
  }

  lemma BuildChars(s: string)
    requires Manifests.BuildPart(s)
    ensures forall i :: 0 <= i < |s| ==> SemverChar(s[i])
  {
    assert forall i :: 1 <= i < |s| ==> s[i] == s[1..][i - 1];
  }

  lemma PreReleaseChars(s: string)
    requires Manifests.PreReleasePart(s)
    ensures forall i :: 0 <= i < |s| ==> SemverChar(s[i])
  {
    if s != "" && s[0] == '-' {
      var n := Manifests.IdentifierRun(s[1..]);
      BuildChars(s[1 + n..]);
      assert forall i :: 1 <= i < 1 + n ==> s[i] == s[1..][i - 1];
      assert forall i :: 1 + n <= i < |s| ==> s[i] == s[1 + n..][i - 1 - n];
    } else {
      BuildChars(s);
    }
  }

  lemma ManifestNameIsPlain(m: Manifest)
    requires ManifestRoundTrip.Valid(m)
    ensures m.name != "" && '@' !in m.name && Semverish(m.version)
  {
    DottedNumbersAreSemverish(m.version, 2);
    assert forall i :: 0 <= i < |m.name| ==> Manifests.NameChar(m.name[i]);
  }

  lemma GraphRow(w: World, o: Options, root: string, g: ResolvedGraph, i: nat)
    requires IsResolution(w, o, root, g) && ValidatedWorld(w) && NoRootSource(o) && i < |g.packages|
    ensures g.packages[i].name != "" && '@' !in g.packages[i].name && Semverish(g.packages[i].version)
    ensures g.packages[i].source != "" && (g.packages[i].source == "root" <==> g.packages[i].manifestPath == root)
  {
    assert FinalRow(w, o, root, g.packages[i]);
    ManifestNameIsPlain(w.manifests[g.packages[i].manifestPath]);
    RowSource(w, o, root, g.packages[i]);
  }

  lemma RowsAreWellFormed(w: World, o: Options, root: string, g: ResolvedGraph, rows: seq<LockfilePackage>)
    requires Consistent(w, o, root) && IsResolution(w, o, root, g) && ValidatedWorld(w) && NoRootSource(o)
    requires LocksAll(g.packages, g.packages, rows)
    ensures WellFormed(rows)
  {
    hide Consistent, IsResolution, NoRootSource, Semverish;
    forall i | 0 <= i < |rows| ensures WellFormedPackage(rows[i]) {
      assert LocksPackage(g.packages, g.packages[i], rows[i]);
      GraphRow(w, o, root, g, i);
      BuildDropsNothing(w, o, root, g, rows, i);
      forall k | 0 <= k < |rows[i].dependencies| ensures WellFormedDependency(rows[i].dependencies[k]) {
        var j :| 0 <= j < |g.packages| && g.packages[j].name == rows[i].dependencies[k].name
          && g.packages[j].version == rows[i].dependencies[k].version;
        GraphRow(w, o, root, g, j);
      }
    }
  }

  /** Exactly the first package is the root. */
  lemma OnlyFirstIsRoot(w: World, o: Options, root: string, g: ResolvedGraph, i: nat)
    requires IsResolution(w, o, root, g) && ValidatedWorld(w) && NoRootSource(o) && i < |g.packages|
    ensures g.packages[i].source == "root" <==> i == 0
  {
    GraphRow(w, o, root, g, i);
    RootIsReachable(w, o, root);
    assert HasRow(g.packages, root);
    var k :| 0 <= k < |g.packages| && g.packages[k].manifestPath == root;
    assert FinalRow(w, o, root, g.packages[k]) && FinalRow(w, o, root, g.packages[i]);
    hide Reachable, SourceIsKnown, ListsNames;
    assert g.packages[k].name == g.packages[0].name;
    assert k == 0;
    assert i != 0 ==> g.packages[i].name != g.packages[0].name;
  }

  lemma RowsAreInOrder(w: World, o: Options, root: string, g: ResolvedGraph, rows: seq<LockfilePackage>)
    requires Consistent(w, o, root) && IsResolution(w, o, root, g) && ValidatedWorld(w) && NoRootSource(o)
    requires LocksAll(g.packages, g.packages, rows)
    ensures InOrder(rows) && DistinctRows(rows)
  {
    assert UniqueNames(g.packages) && RootFirstByName(g.rootName, g.packages);
    hide Consistent, IsResolution, ValidatedWorld;
    LessIsTotalOrder();
    forall i | 0 <= i < |rows|
      ensures rows[i].name == g.packages[i].name && (rows[i].source == "root" <==> i == 0)
      ensures Sorted(rows[i].dependencies, DependencyBefore)
    {
      assert LocksPackage(g.packages, g.packages[i], rows[i]);
      OnlyFirstIsRoot(w, o, root, g, i);
      BuildDropsNothing(w, o, root, g, rows, i);
    }
    hide NoRootSource, LocksAll;
    forall i, j | 0 <= i < j < |rows| ensures rows[i].name != rows[j].name && !PackageBefore(rows[j], rows[i]) {
      assert g.packages[i].name != g.packages[j].name;
      assert i > 0 ==> Less(g.packages[i].name, g.packages[j].name);
    }
  }

  /**
   The pipeline is lossless: whatever resolution returns, the lockfile built from it, written and
   parsed again is the lockfile itself, order included.
   */
  lemma PipelineIsLossless(
    w: World, o: Options, root: string, g: ResolvedGraph, lockfile: Lockfile, written: seq<LockfilePackage>)
    requires ValidatedWorld(w) && NoRootSource(o)
    requires Consistent(w, o, root) && IsResolution(w, o, root, g)
    requires lockfile.schemaVersion == 1 && LocksAll(g.packages, g.packages, lockfile.packages)
    requires WritingOrder(lockfile.packages, written)
    ensures Parse(Render(written)) == Ok(lockfile)
  {
    RowsAreWellFormed(w, o, root, g, lockfile.packages);
    RowsAreInOrder(w, o, root, g, lockfile.packages);
    InOrderIsWrittenAsIs(lockfile.packages, written);
    WrittenReadsBack(written);
  }

  // ---- Cycles among packages are not rejected ----

  const LOOP := Manifests.ManifestDependency("loop", Manifests.Path, ".", "", "", "", "")

  function LoopWorld(): World {
    World(map["eta.toml" := Manifests.Manifest("loop", "1.0.0", "MIT", ">=1", [LOOP], [])],
          (owner, path) => Some("eta.toml"), (owner, name, version) => None, path => "")
  }

  /** A package that depends on itself resolves, to a graph with a cycle. */
  lemma SelfDependencyResolves(g: ResolvedGraph)
    ensures var o := Options(false, None, None); Consistent(LoopWorld(), o, "eta.toml") && Loops(LoopWorld(), o, "eta.toml")
    ensures IsResolution(LoopWorld(), Options(false, None, None), "eta.toml", g) ==> HasCycle(g)
  {
    var w, o, root := LoopWorld(), Options(false, None, None), "eta.toml";
    OnlyTheRoot(w, o, root);
    RootIsReachable(w, o, root);
    hide Edge, Reachable, Consistent, IsResolution;
    assert IsLoop(w, o, root, [root, root]);
    if IsResolution(w, o, root, g) {
      CyclicIffLoops(w, o, root, g);
    }
  }

  lemma OnlyTheRoot(w: World, o: Options, root: string)
    requires w == LoopWorld() && o == Options(false, None, None) && root == "eta.toml"
    ensures Consistent(w, o, root) && Edge(w, o, root, root, root)
  {
    assert DependenciesOf(w, o, root, root) == [LOOP] && [LOOP][0] == LOOP;
    assert "path+" + "" == "path+";
    assert EdgeVia(w, o, root, root, LOOP, Location(root, "path+"));
    forall p | Reachable(w, o, root, p) ensures p == root {
      var ps :| IsWalk(w, o, root, ps) && ps[|ps| - 1] == p;
      ClosedHoldsReachable(w, o, root, {root}, ps);
    }
  }
}
