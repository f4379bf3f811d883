/**
 What dependency resolution means: reachability over manifests, and when a root can be
 resolved. The file system is a finite map from canonical manifest paths to manifests.
 */
module ResolveSpec {
  import opened Wrappers
  import opened Sorting
  import Manifests
  import Lockfiles

  type Manifest = Manifests.Manifest
  type Dependency = Manifests.ManifestDependency

  datatype ErrorCode =
    | ManifestReadError
    | MissingDependencyManifest
    | DependencyNameMismatch
    | DuplicatePackageName
    | CycleDetected
    | UnsupportedDependencySource

  /** Where a dependency edge leads, and the source string recorded for it. */
  datatype Location = Location(path: string, source: string)

  /**
   `manifests`: canonical manifest path -> its validated manifest. `locatePath`: owner path and
   relative path -> canonical manifest path, if a file is there. `locateModule`: owner path, name
   and version of a locked package -> its materialized manifest. `packageRoot`: the parent directory.
   */
  datatype World = World(
    manifests: map<string, Manifest>,
    locatePath: (string, string) -> Option<string>,
    locateModule: (string, string, string) -> Option<string>,
    packageRoot: string -> string)

  datatype Options = Options(
    includeDev: bool,
    lockfile: Option<Lockfiles.Lockfile>,
    locator: Option<(string, Dependency) -> Result<Location, ErrorCode>>)

  datatype ResolvedPackage = ResolvedPackage(
    name: string, version: string, manifestPath: string, packageRoot: string,
    source: string, dependencyNames: seq<string>)

  datatype ResolvedGraph = ResolvedGraph(rootName: string, packages: seq<ResolvedPackage>)

  // ---- Locating one dependency ----

  function SourceId(d: Dependency): string {
    match d.kind
    case Path => ""
    case Git => "git+" + d.git + "#" + d.rev
    case Tarball => "tarball+" + d.tarball + "#sha256=" + d.sha256
  }

  predicate IsLockedRow(p: Lockfiles.LockfilePackage, d: Dependency) {
    p.name == d.name && p.source != "root" && (SourceId(d) == "" || p.source == SourceId(d))
  }

  /** The first lockfile row for the dependency. */
  function FirstLocked(ps: seq<Lockfiles.LockfilePackage>, d: Dependency): Option<Lockfiles.LockfilePackage> {
    if ps == [] then None
    else if IsLockedRow(ps[0], d) then Some(ps[0])
    else FirstLocked(ps[1..], d)
  }

  lemma {:induction false} FirstLockedIsRow(ps: seq<Lockfiles.LockfilePackage>, d: Dependency)
    requires FirstLocked(ps, d).Some?
    ensures FirstLocked(ps, d).value in ps && IsLockedRow(FirstLocked(ps, d).value, d)
  {
    if !IsLockedRow(ps[0], d) {
      FirstLockedIsRow(ps[1..], d);
    }
  }

  function LocateFromLockfile(w: World, o: Options, owner: string, d: Dependency): Result<Location, ErrorCode> {
    if o.lockfile.None? then Err(UnsupportedDependencySource)
    else
      match FirstLocked(o.lockfile.value.packages, d)
      case None => Err(MissingDependencyManifest)
      case Some(row) =>
        match w.locateModule(owner, row.name, row.version)
        case None => Err(MissingDependencyManifest)
        case Some(path) => Ok(Location(path, row.source))
  }

  function Locate(w: World, o: Options, owner: string, d: Dependency): Result<Location, ErrorCode> {
    if d.kind == Manifests.Path then
      match w.locatePath(owner, d.path)
      case None => Err(MissingDependencyManifest)
      case Some(path) => Ok(Location(path, "path+" + w.packageRoot(path)))
    else if o.locator.Some? then
      match o.locator.value(owner, d)
      case Err(e) => Err(e)
      case Ok(l) => Ok(if l.source == "" then Location(l.path, SourceId(d)) else l)
    else LocateFromLockfile(w, o, owner, d)
  }

  // ---- The manifest graph ----

  /** Development dependencies count at the root only. */
  function DependenciesOf(w: World, o: Options, root: string, p: string): seq<Dependency>
    requires p in w.manifests
  {
    var m := w.manifests[p];
    if o.includeDev && p == root then m.dependencies + m.devDependencies else m.dependencies
  }

  ghost predicate EdgeVia(w: World, o: Options, root: string, p: string, d: Dependency, l: Location) {
    p in w.manifests && d in DependenciesOf(w, o, root, p) && Locate(w, o, p, d) == Ok(l)
  }

  ghost predicate Edge(w: World, o: Options, root: string, p: string, q: string) {
    exists d, l :: EdgeVia(w, o, root, p, d, l) && l.path == q
  }

  ghost predicate IsWalk(w: World, o: Options, root: string, ps: seq<string>) {
    |ps| > 0 && ps[0] == root && forall i :: 0 <= i < |ps| - 1 ==> Edge(w, o, root, ps[i], ps[i + 1])
  }

  ghost predicate Reachable(w: World, o: Options, root: string, p: string) {
    exists ps :: IsWalk(w, o, root, ps) && ps[|ps| - 1] == p
  }

  lemma RootIsReachable(w: World, o: Options, root: string)
    ensures Reachable(w, o, root, root)
  {
    assert IsWalk(w, o, root, [root]);
  }

  lemma EdgeExtendsReach(w: World, o: Options, root: string, p: string, q: string)
    requires Reachable(w, o, root, p) && Edge(w, o, root, p, q)
    ensures Reachable(w, o, root, q)
  {
    var ps :| IsWalk(w, o, root, ps) && ps[|ps| - 1] == p;
    var qs := ps + [q];
    forall i | 0 <= i < |qs| - 1 ensures Edge(w, o, root, qs[i], qs[i + 1]) {
      if i < |ps| - 1 { assert qs[i] == ps[i] && qs[i + 1] == ps[i + 1]; }
    }
    assert IsWalk(w, o, root, qs);
  }

  /** A set with the root that every edge stays within holds everything reachable. */
  lemma {:induction false} ClosedHoldsReachable(w: World, o: Options, root: string, s: set<string>, ps: seq<string>)
    requires root in s && IsWalk(w, o, root, ps)
    requires forall p, q :: p in s && Edge(w, o, root, p, q) ==> q in s
    ensures ps[|ps| - 1] in s
    decreases |ps|
  {
    if |ps| > 1 {
      var shorter := ps[..|ps| - 1];
      forall i | 0 <= i < |shorter| - 1 ensures Edge(w, o, root, shorter[i], shorter[i + 1]) {
        assert Edge(w, o, root, ps[i], ps[i + 1]);
      }
      ClosedHoldsReachable(w, o, root, s, shorter);
      assert Edge(w, o, root, ps[|ps| - 2], ps[|ps| - 1]);
    }
  }

  // ---- When resolution succeeds ----

  /** Every dependency of `p` leads to a readable manifest of that name. */
  ghost predicate EdgesResolve(w: World, o: Options, root: string, p: string) {
    && p in w.manifests
    && forall d :: d in DependenciesOf(w, o, root, p) ==> DependencyResolves(w, o, p, d)
  }

  predicate DependencyResolves(w: World, o: Options, p: string, d: Dependency) {
    var l := Locate(w, o, p, d);
    l.Ok? && l.value.path in w.manifests && w.manifests[l.value.path].name == d.name
  }

  ghost predicate SameName(w: World, p: string, q: string) {
    p in w.manifests && q in w.manifests && w.manifests[p].name == w.manifests[q].name
  }

  /** The condition for success: all reachable edges resolve and no two reachable manifests share a name. */
  ghost predicate Consistent(w: World, o: Options, root: string) {
    && (forall p :: Reachable(w, o, root, p) ==> EdgesResolve(w, o, root, p))
    && (forall p, q :: Reachable(w, o, root, p) && Reachable(w, o, root, q) && SameName(w, p, q) ==> p == q)
  }

  ghost predicate StrictlySorted(names: seq<string>) {
    forall i, j :: 0 <= i < j < |names| ==> Less(names[i], names[j])
  }

  /** `names` lists the names of `ds`, each once, in order. */
  ghost predicate ListsNames(names: seq<string>, ds: seq<Dependency>) {
    && StrictlySorted(names)
    && forall n :: n in names <==> exists i :: 0 <= i < |ds| && ds[i].name == n
  }

  /** The recorded source: "root" for the root, otherwise that of some edge into the manifest. */
  ghost predicate SourceIsKnown(w: World, o: Options, root: string, pkg: ResolvedPackage) {
    if pkg.manifestPath == root then pkg.source == "root"
    else exists p, d :: Reachable(w, o, root, p) && EdgeVia(w, o, root, p, d, Location(pkg.manifestPath, pkg.source))
  }

  /** The package row agrees with its manifest. */
  ghost predicate Describes(w: World, o: Options, root: string, pkg: ResolvedPackage) {
    var p := pkg.manifestPath;
    && p in w.manifests
    && pkg.name == w.manifests[p].name && pkg.version == w.manifests[p].version
    && pkg.packageRoot == w.packageRoot(p)
    && SourceIsKnown(w, o, root, pkg)
  }

  /** The row agrees with its manifest, down to its dependency names. */
  ghost predicate FinalRow(w: World, o: Options, root: string, pkg: ResolvedPackage) {
    && Describes(w, o, root, pkg)
    && ListsNames(pkg.dependencyNames, DependenciesOf(w, o, root, pkg.manifestPath))
  }

  ghost predicate HasRow(packages: seq<ResolvedPackage>, p: string) {
    exists i :: 0 <= i < |packages| && packages[i].manifestPath == p
  }

  ghost predicate RootFirstByName(rootName: string, packages: seq<ResolvedPackage>) {
    && packages != [] && packages[0].name == rootName
    && forall i, j :: 1 <= i < j < |packages| ==> Less(packages[i].name, packages[j].name)
  }

  ghost predicate UniqueNames(packages: seq<ResolvedPackage>) {
    forall i, j :: 0 <= i < j < |packages| ==> packages[i].name != packages[j].name
  }

  /** What a successful resolution returns. */
  ghost predicate IsResolution(w: World, o: Options, root: string, g: ResolvedGraph) {
    && root in w.manifests && g.rootName == w.manifests[root].name
    && RootFirstByName(g.rootName, g.packages)
    && UniqueNames(g.packages)
    && (forall i :: 0 <= i < |g.packages| ==> FinalRow(w, o, root, g.packages[i]))
    && (forall p :: Reachable(w, o, root, p) <==> HasRow(g.packages, p))
  }

  ghost predicate NameInGraph(g: ResolvedGraph, n: string) {
    exists i :: 0 <= i < |g.packages| && g.packages[i].name == n
  }

  /** Closure: every dependency name of every package is in the graph. */
  lemma DependenciesAreInGraph(w: World, o: Options, root: string, g: ResolvedGraph, i: nat, n: string)
    requires Consistent(w, o, root) && IsResolution(w, o, root, g)
    requires i < |g.packages| && n in g.packages[i].dependencyNames
    ensures NameInGraph(g, n)
  {
    var p := g.packages[i].manifestPath;
    assert FinalRow(w, o, root, g.packages[i]);
    assert HasRow(g.packages, p);
    var ds := DependenciesOf(w, o, root, p);
    var k :| 0 <= k < |ds| && ds[k].name == n;
    assert EdgesResolve(w, o, root, p) && ds[k] in ds;
    assert DependencyResolves(w, o, p, ds[k]);
    var l := Locate(w, o, p, ds[k]).value;
    assert EdgeVia(w, o, root, p, ds[k], l);
    EdgeExtendsReach(w, o, root, p, l.path);
    assert HasRow(g.packages, l.path);
    var j :| 0 <= j < |g.packages| && g.packages[j].manifestPath == l.path;
    assert FinalRow(w, o, root, g.packages[j]);
  }

  // ---- Cycles ----

  /** A row of the graph lists another as its dependency. */
  predicate RowEdge(g: ResolvedGraph, i: nat, j: nat) {
    i < |g.packages| && j < |g.packages| && g.packages[j].name in g.packages[i].dependencyNames
  }

  /** The edges of a resolved graph are exactly the edges between its manifests. */
  lemma EdgesAreKept(w: World, o: Options, root: string, g: ResolvedGraph, i: nat, j: nat)
    requires Consistent(w, o, root) && IsResolution(w, o, root, g)
    requires i < |g.packages| && j < |g.packages|
    ensures RowEdge(g, i, j) <==> Edge(w, o, root, g.packages[i].manifestPath, g.packages[j].manifestPath)
  {
    var p, q := g.packages[i].manifestPath, g.packages[j].manifestPath;
    assert HasRow(g.packages, p) && HasRow(g.packages, q);
    assert FinalRow(w, o, root, g.packages[i]) && FinalRow(w, o, root, g.packages[j]);
    hide SourceIsKnown, IsResolution, StrictlySorted;
    assert EdgesResolve(w, o, root, p);
    var ds := DependenciesOf(w, o, root, p);
    if RowEdge(g, i, j) {
      var k :| 0 <= k < |ds| && ds[k].name == g.packages[j].name;
      assert DependencyResolves(w, o, p, ds[k]);
      var l := Locate(w, o, p, ds[k]).value;
      assert EdgeVia(w, o, root, p, ds[k], l);
      EdgeExtendsReach(w, o, root, p, l.path);
      assert SameName(w, l.path, q);
    }
    if Edge(w, o, root, p, q) {
      var d, l :| EdgeVia(w, o, root, p, d, l) && l.path == q;
      assert DependencyResolves(w, o, p, d);
    }
  }

  ghost predicate IsTour(g: ResolvedGraph, rows: seq<nat>) {
    |rows| >= 2 && rows[0] == rows[|rows| - 1] && forall k :: 0 <= k < |rows| - 1 ==> RowEdge(g, rows[k], rows[k + 1])
  }

  /** Some package of the graph depends on itself, directly or through others. */
  ghost predicate HasCycle(g: ResolvedGraph) {
    exists rows :: IsTour(g, rows)
  }

  ghost predicate IsLoop(w: World, o: Options, root: string, ps: seq<string>) {
    |ps| >= 2 && ps[0] == ps[|ps| - 1] && forall k :: 0 <= k < |ps| - 1 ==> Edge(w, o, root, ps[k], ps[k + 1])
  }

  /** Some manifest that the root leads to leads back to itself. */
  ghost predicate Loops(w: World, o: Options, root: string) {
    exists ps :: IsLoop(w, o, root, ps) && Reachable(w, o, root, ps[0])
  }

  lemma {:induction false} LoopIsReachable(w: World, o: Options, root: string, ps: seq<string>, k: nat)
    requires IsLoop(w, o, root, ps) && Reachable(w, o, root, ps[0]) && k < |ps|
    ensures Reachable(w, o, root, ps[k])
  {
    if k > 0 {
      LoopIsReachable(w, o, root, ps, k - 1);
      EdgeExtendsReach(w, o, root, ps[k - 1], ps[k]);
    }
  }

  ghost function RowOf(packages: seq<ResolvedPackage>, p: string): (i: nat)
    requires HasRow(packages, p)
    ensures i < |packages| && packages[i].manifestPath == p
  {
    var i: nat :| i < |packages| && packages[i].manifestPath == p;
    i
  }

  /** A resolved graph has a cycle exactly when the manifests it was resolved from have one. */
  lemma CyclicIffLoops(w: World, o: Options, root: string, g: ResolvedGraph)
    requires Consistent(w, o, root) && IsResolution(w, o, root, g)
    ensures HasCycle(g) <==> Loops(w, o, root)
  {
    hide Edge, Reachable, RowEdge, Consistent;
    if HasCycle(g) {
      var rows :| IsTour(g, rows);
      TourIsLoop(w, o, root, g, rows);
    }
    if Loops(w, o, root) {
      var ps :| IsLoop(w, o, root, ps) && Reachable(w, o, root, ps[0]);
      LoopIsTour(w, o, root, g, ps);
    }
  }

  lemma TourIsLoop(w: World, o: Options, root: string, g: ResolvedGraph, rows: seq<nat>)
    requires Consistent(w, o, root) && IsResolution(w, o, root, g) && IsTour(g, rows)
    ensures Loops(w, o, root)
  {
    hide Edge, Reachable, Consistent, FinalRow;
    assert RowEdge(g, rows[0], rows[1]);
    forall k | 0 <= k < |rows| ensures rows[k] < |g.packages| {
      if k < |rows| - 1 { assert RowEdge(g, rows[k], rows[k + 1]); }
    }
    var ps := seq(|rows|, k requires 0 <= k < |rows| => g.packages[rows[k]].manifestPath);
    forall k | 0 <= k < |ps| - 1 ensures Edge(w, o, root, ps[k], ps[k + 1]) {
      EdgesAreKept(w, o, root, g, rows[k], rows[k + 1]);
    }
    assert HasRow(g.packages, ps[0]);
  }

  lemma LoopIsTour(w: World, o: Options, root: string, g: ResolvedGraph, ps: seq<string>)
    requires Consistent(w, o, root) && IsResolution(w, o, root, g)
    requires IsLoop(w, o, root, ps) && Reachable(w, o, root, ps[0])
    ensures HasCycle(g)
  {
    hide Edge, Reachable, Consistent, FinalRow, RowEdge;
    forall k | 0 <= k < |ps| ensures HasRow(g.packages, ps[k]) {
      LoopIsReachable(w, o, root, ps, k);
    }
    var rows := seq(|ps|, k requires 0 <= k < |ps| => RowOf(g.packages, ps[k]));
    forall k | 0 <= k < |rows| - 1 ensures RowEdge(g, rows[k], rows[k + 1]) {
      EdgesAreKept(w, o, root, g, rows[k], rows[k + 1]);
    }
    assert IsTour(g, rows);
  }
}
