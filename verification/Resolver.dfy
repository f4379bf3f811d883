/** Dependency resolution: eta/core/src/eta/package/resolver.cpp. */
module Resolvers {
  import opened Wrappers
  import opened Sorting
  import opened ResolveSpec
  import Manifests

  datatype ResolveError = ResolveError(code: ErrorCode, cycle: seq<string>)

  /** The problem a resolver is created for. */
  datatype Problem = Problem(world: World, options: Options, root: string) {
    function Deps(p: string): seq<Dependency>
      requires p in world.manifests
    {
      DependenciesOf(world, options, root, p)
    }

    ghost predicate Reach(p: string) {
      Reachable(world, options, root, p)
    }

    ghost predicate Solvable() {
      Consistent(world, options, root)
    }
  }

  /** The packages found so far, and the two indexes over them. */
  ghost predicate Indexed(q: Problem, packages: seq<ResolvedPackage>, indexByName: map<string, nat>, known: set<string>) {
    && (forall i :: 0 <= i < |packages| ==>
          && Describes(q.world, q.options, q.root, packages[i])
          && q.Reach(packages[i].manifestPath)
          && packages[i].manifestPath in known
          && packages[i].name in indexByName && indexByName[packages[i].name] == i)
    && (forall n :: n in indexByName ==> indexByName[n] < |packages| && packages[indexByName[n]].name == n)
    && (forall p :: p in known ==> exists i :: 0 <= i < |packages| && packages[i].manifestPath == p)
  }

  predicate LeadsInto(q: Problem, p: string, d: Dependency, known: set<string>) {
    DependencyResolves(q.world, q.options, p, d) && Locate(q.world, q.options, p, d).value.path in known
  }

  /** Some reachable manifest has a dependency of this name leading to `path` from `source`. */
  ghost predicate ComesFrom(q: Problem, path: string, name: string, source: string) {
    exists p: string, d: Dependency ::
      q.Reach(p) && d.name == name && EdgeVia(q.world, q.options, q.root, p, d, Location(path, source))
  }

  /** Every dependency in `ds` of manifest `p` resolves to a known manifest. */
  ghost predicate Followed(q: Problem, p: string, ds: seq<Dependency>, known: set<string>) {
    forall i :: 0 <= i < |ds| ==> LeadsInto(q, p, ds[i], known)
  }

  /** The package's dependencies are all followed and its name list is final. */
  ghost predicate Done(q: Problem, pkg: ResolvedPackage, known: set<string>) {
    && pkg.manifestPath in q.world.manifests
    && Followed(q, pkg.manifestPath, q.Deps(pkg.manifestPath), known)
    && ListsNames(pkg.dependencyNames, q.Deps(pkg.manifestPath))
  }

  ghost predicate AllDone(q: Problem, packages: seq<ResolvedPackage>, from: nat, known: set<string>) {
    forall i :: from <= i < |packages| ==> Done(q, packages[i], known)
  }

  // ---- What a failure says ----

  /** A manifest of the first name that the root leads to has a dependency of the second. */
  ghost predicate NamesEdge(q: Problem, a: string, b: string) {
    exists p, d :: q.Reach(p) && p in q.world.manifests && q.world.manifests[p].name == a && d in q.Deps(p) && d.name == b
  }

  ghost predicate NamesWalk(q: Problem, names: seq<string>) {
    forall i :: 0 <= i < |names| - 1 ==> NamesEdge(q, names[i], names[i + 1])
  }

  ghost predicate BothNamed(q: Problem, a: string, b: string, name: string) {
    q.Reach(a) && q.Reach(b) && a != b && SameName(q.world, a, b) && q.world.manifests[a].name == name
  }

  /** The root leads to two manifests of that name. */
  ghost predicate Clash(q: Problem, name: string) {
    exists a, b :: BothNamed(q, a, b, name)
  }

  /** The error of locating some dependency. */
  ghost predicate PassedOn(q: Problem, code: ErrorCode) {
    exists p, d ::
      q.Reach(p) && p in q.world.manifests && d in q.Deps(p) && Locate(q.world, q.options, p, d) == Err(code)
  }

  ghost predicate Misnamed(q: Problem, p: string, d: Dependency, l: Location) {
    && q.Reach(p) && EdgeVia(q.world, q.options, q.root, p, d, l)
    && l.path in q.world.manifests && q.world.manifests[l.path].name != d.name
  }

  /** What is wrong with the world when resolution itself fails with this error. */
  ghost predicate Found(q: Problem, e: ResolveError) {
    match e.code
    case ManifestReadError => e.cycle == [] && exists p :: q.Reach(p) && p !in q.world.manifests
    case MissingDependencyManifest => e.cycle == [] && q.root !in q.world.manifests
    case DependencyNameMismatch => e.cycle == [] && exists p, d, l :: Misnamed(q, p, d, l)
    case DuplicatePackageName => e.cycle == [] && exists name :: Clash(q, name)
    case CycleDetected =>
      |e.cycle| >= 2 && e.cycle[0] == e.cycle[|e.cycle| - 1] && NamesWalk(q, e.cycle) && Clash(q, e.cycle[0])
    case UnsupportedDependencySource => false
  }

  /** Every failure is found in the world or passed on from locating a dependency. */
  ghost predicate Justified(q: Problem, e: ResolveError) {
    Found(q, e) || (e.cycle == [] && PassedOn(q, e.code))
  }

  lemma JustifiedIsUnsolvable(q: Problem, e: ResolveError)
    requires Justified(q, e)
    ensures !q.Solvable()
  {
    hide Reachable, NamesWalk;
    if !Found(q, e) {
      var p, d :| q.Reach(p) && p in q.world.manifests && d in q.Deps(p) && Locate(q.world, q.options, p, d) == Err(e.code);
      assert !DependencyResolves(q.world, q.options, p, d);
      assert !EdgesResolve(q.world, q.options, q.root, p);
    } else {
      match e.code
      case ManifestReadError =>
        var p :| q.Reach(p) && p !in q.world.manifests;
        assert !EdgesResolve(q.world, q.options, q.root, p);
      case MissingDependencyManifest =>
        RootIsReachable(q.world, q.options, q.root);
        assert !EdgesResolve(q.world, q.options, q.root, q.root);
      case DependencyNameMismatch =>
        var p, d, l :| Misnamed(q, p, d, l);
        assert !DependencyResolves(q.world, q.options, p, d);
        assert !EdgesResolve(q.world, q.options, q.root, p);
      case DuplicatePackageName =>
        var name :| Clash(q, name);
        ClashIsUnsolvable(q, name);
      case CycleDetected =>
        ClashIsUnsolvable(q, e.cycle[0]);
      case UnsupportedDependencySource =>
    }
  }

  lemma ClashIsUnsolvable(q: Problem, name: string)
    requires Clash(q, name)
    ensures !q.Solvable()
  {
    var a, b :| BothNamed(q, a, b, name);
  }

  class Resolver {
    const problem: Problem
    var packages: seq<ResolvedPackage>
    var indexByName: map<string, nat>
    var nameByManifest: map<string, string>
    var stack: seq<string>
    var visiting: set<string>

    constructor (problem: Problem)
      ensures this.problem == problem && Valid()
      ensures packages == [] && nameByManifest == map[] && stack == [] && visiting == {}
    {
      this.problem := problem;
      packages, indexByName, nameByManifest, stack, visiting := [], map[], map[], [], {};
    }

    ghost predicate Valid()
      reads this
    {
      && Indexed(problem, packages, indexByName, nameByManifest.Keys)
      && nameByManifest.Keys <= problem.world.manifests.Keys
      && visiting <= indexByName.Keys
      && (forall n :: n in visiting <==> n in stack)
      && NamesWalk(problem, stack)
    }

    /**
     Visits one manifest, depth first. On success it and everything below it is known and done;
     a failure is justified by the world.
     */
    method Visit(path: string, expectedName: Option<string>, isRoot: bool, source: Option<string>)
      returns (r: Option<ResolveError>)
      requires Valid() && problem.Reach(path)
      requires isRoot ==> path == problem.root && expectedName.None? && nameByManifest == map[] && stack == []
      requires !isRoot ==> problem.root in nameByManifest && expectedName.Some? && source.Some?
      requires !isRoot ==> ComesFrom(problem, path, expectedName.value, source.value)
      requires !isRoot ==> stack != [] && NamesEdge(problem, stack[|stack| - 1], expectedName.value)
      modifies this
      decreases problem.world.manifests.Keys - nameByManifest.Keys, 0
      ensures r.Some? ==> Justified(problem, r.value)
      ensures r.None? ==> Valid() && stack == old(stack) && visiting == old(visiting)
      ensures r.None? ==> path in nameByManifest && old(nameByManifest.Keys) <= nameByManifest.Keys
      ensures r.None? ==> old(packages) <= packages && AllDone(problem, packages, |old(packages)|, nameByManifest.Keys)
      ensures r.None? && expectedName.Some? ==> problem.world.manifests[path].name == expectedName.value
      ensures r.None? && isRoot ==> |packages| > |old(packages)| && packages[|old(packages)|].manifestPath == path
    {
      hide Indexed, AllDone, EdgeVia, Reachable, Consistent, ComesFrom, NamesEdge, NamesWalk, Justified, ListsNames, Describes,
        Clash, Followed, DependenciesOf, StrictlySorted, SortedPermutation;
      if path !in problem.world.manifests {
        UnreadableManifest(problem, path);
        return Some(ResolveError(ManifestReadError, []));
      }
      var manifest := problem.world.manifests[path];
      if expectedName.Some? && manifest.name != expectedName.value {
        WrongName(problem, path, expectedName.value, source.value);
        return Some(ResolveError(DependencyNameMismatch, []));
      }
      if path in nameByManifest {
        NothingNew(problem, packages, nameByManifest.Keys);
        return None;
      }
      if manifest.name in visiting {
        TwoManifests(problem, packages, indexByName, nameByManifest.Keys, path);
        var cycle := NameCycle(manifest.name);
        CycleIsReal(problem, cycle);
        return Some(ResolveError(CycleDetected, cycle));
      }
      if manifest.name in indexByName {
        TwoManifests(problem, packages, indexByName, nameByManifest.Keys, path);
        DuplicateIsReal(problem, manifest.name);
        return Some(ResolveError(DuplicatePackageName, []));
      }
      var nodeIndex := |packages|;
      ghost var known := nameByManifest.Keys;
      ghost var stack0, visiting0 := stack, visiting;
      Enter(path, isRoot, source);
      assert path in nameByManifest.Keys && path !in known;
      var dependencies := SortedDependencies(path, isRoot);
      r := VisitAll(path, nodeIndex, dependencies);
      if r.Some? {
        return;
      }
      Leave(path, nodeIndex, dependencies, visiting0);
      assert stack == stack0;
    }

    /** Opens the node of a manifest that is not known yet. */
    method Enter(path: string, isRoot: bool, source: Option<string>)
      requires Valid() && problem.Reach(path)
      requires path in problem.world.manifests && path !in nameByManifest
      requires problem.world.manifests[path].name !in indexByName
      requires isRoot ==> path == problem.root
      requires !isRoot ==> problem.root in nameByManifest && source.Some?
      requires !isRoot ==> exists name :: ComesFrom(problem, path, name, source.value)
      requires stack != [] ==> NamesEdge(problem, stack[|stack| - 1], problem.world.manifests[path].name)
      modifies this
      ensures Valid()
      ensures nameByManifest.Keys == old(nameByManifest.Keys) + {path}
      ensures |packages| == |old(packages)| + 1 && old(packages) <= packages
      ensures packages[|old(packages)|].manifestPath == path && packages[|old(packages)|].dependencyNames == []
      ensures stack == old(stack) + [problem.world.manifests[path].name]
      ensures visiting == old(visiting) + {problem.world.manifests[path].name}
    {
      hide Indexed, Describes, EdgeVia, Reachable, NamesEdge;
      var manifest := problem.world.manifests[path];
      var node := ResolvedPackage(
        manifest.name, manifest.version, path, problem.world.packageRoot(path),
        if isRoot then "root" else source.value, []);
      NewNode(problem, node, isRoot, source);
      NodeAdded(problem, packages, indexByName, nameByManifest.Keys, node);
      ghost var known := nameByManifest.Keys;
      visiting := visiting + {manifest.name};
      stack := stack + [manifest.name];
      var nodeIndex := |packages|;
      packages := packages + [node];
      indexByName := indexByName[manifest.name := nodeIndex];
      nameByManifest := nameByManifest[path := manifest.name];
      assert nameByManifest.Keys == known + {path};
    }

    method SortedDependencies(path: string, isRoot: bool) returns (ds: seq<Dependency>)
      requires path in problem.world.manifests && (isRoot <==> path == problem.root)
      ensures SortedPermutation(problem.Deps(path), ds, Manifests.NameBefore)
    {
      var manifest := problem.world.manifests[path];
      ds := manifest.dependencies;
      if problem.options.includeDev && isRoot {
        ds := ds + manifest.devDependencies;
      }
      Manifests.NameOrderIsWeak();
      ds := Sort(ds, Manifests.NameBefore);
    }

    /** Follows the dependencies of the node at `k`, recording their names as it goes. */
    method VisitAll(path: string, k: nat, ds: seq<Dependency>) returns (r: Option<ResolveError>)
      requires Valid() && problem.Reach(path) && path in problem.world.manifests
      requires |packages| == k + 1 && packages[k].manifestPath == path && packages[k].dependencyNames == []
      requires problem.root in nameByManifest && multiset(ds) == multiset(problem.Deps(path))
      requires stack != [] && stack[|stack| - 1] == problem.world.manifests[path].name
      modifies this
      decreases problem.world.manifests.Keys - nameByManifest.Keys, 1
      ensures r.Some? ==> Justified(problem, r.value)
      ensures r.None? ==> Valid() && stack == old(stack) && visiting == old(visiting)
      ensures r.None? ==> old(nameByManifest.Keys) <= nameByManifest.Keys
      ensures r.None? ==> |packages| > k && packages[..k] == old(packages[..k])
      ensures r.None? ==> packages[k] == old(packages[k]).(dependencyNames := NamesOf(ds))
      ensures r.None? ==> AllDone(problem, packages, k + 1, nameByManifest.Keys)
      ensures r.None? ==> Followed(problem, path, ds, nameByManifest.Keys)
    {
      hide Indexed, AllDone, Followed, EdgeVia, Reachable, Consistent, ComesFrom, Locate, NamesEdge, NamesWalk, Justified, ListsNames,
        Describes;
      ghost var packages0 := packages;
      ghost var keys0 := nameByManifest.Keys;
      NothingNew(problem, packages, nameByManifest.Keys);
      NothingFollowed(problem, path, nameByManifest.Keys);
      SameElements(ds, problem.Deps(path));
      r := None;
      var i := 0;
      while i < |ds|
        invariant 0 <= i <= |ds|
        invariant r.None? && Valid() && stack == old(stack) && visiting == old(visiting)
        invariant keys0 <= nameByManifest.Keys
        invariant |packages| > k && packages[..k] == packages0[..k]
        invariant packages[k] == packages0[k].(dependencyNames := NamesOf(ds[..i]))
        invariant AllDone(problem, packages, k + 1, nameByManifest.Keys)
        invariant Followed(problem, path, ds[..i], nameByManifest.Keys)
      {
        var d := ds[i];
        assert ds[..i + 1] == ds[..i] + [d];
        RecordName(k, d.name);
        var location := Locate(problem.world, problem.options, path, d);
        if location.Err? {
          NotLocated(problem, path, d);
          return Some(ResolveError(location.error, []));
        }
        FollowEdge(path, d, location.value);
        ghost var mid, known := packages, nameByManifest.Keys;
        r := Visit(location.value.path, Some(d.name), false, Some(location.value.source));
        if r.Some? {
          return;
        }
        assert packages[k] == mid[k] && packages[..k] == mid[..k];
        DoneGrows(problem, mid, packages, k + 1, known, nameByManifest.Keys);
        FollowedOneMore(problem, path, ds[..i], d, known, nameByManifest.Keys);
        i := i + 1;
      }
      assert ds[..i] == ds;
    }

    lemma FollowEdge(path: string, d: Dependency, l: Location)
      requires problem.Reach(path) && path in problem.world.manifests && d in problem.Deps(path)
      requires Locate(problem.world, problem.options, path, d) == Ok(l)
      ensures ComesFrom(problem, l.path, d.name, l.source) && problem.Reach(l.path)
      ensures NamesEdge(problem, problem.world.manifests[path].name, d.name)
    {
      assert EdgeVia(problem.world, problem.options, problem.root, path, d, Location(l.path, l.source));
      EdgeExtendsReach(problem.world, problem.options, problem.root, path, l.path);
    }

    method RecordName(k: nat, name: string)
      requires Valid() && k < |packages|
      modifies this`packages
      ensures Valid() && |packages| == |old(packages)|
      ensures packages == old(packages)[k := old(packages[k]).(dependencyNames := old(packages[k].dependencyNames) + [name])]
      ensures AllDone(problem, old(packages), k + 1, nameByManifest.Keys) ==> AllDone(problem, packages, k + 1, nameByManifest.Keys)
    {
      hide Indexed, Done;
      packages := packages[k := packages[k].(dependencyNames := packages[k].dependencyNames + [name])];
      SameRows(problem, old(packages), packages, indexByName, nameByManifest.Keys);
    }

    /** Closes the node at `k`: its dependency names become sorted and unique. */
    method Leave(path: string, k: nat, ds: seq<Dependency>, ghost visiting0: set<string>)
      requires Valid() && path in problem.world.manifests && k < |packages|
      requires packages[k].manifestPath == path && packages[k].dependencyNames == NamesOf(ds)
      requires multiset(ds) == multiset(problem.Deps(path))
      requires Followed(problem, path, ds, nameByManifest.Keys)
      requires AllDone(problem, packages, k + 1, nameByManifest.Keys)
      requires stack != [] && stack[|stack| - 1] == problem.world.manifests[path].name
      requires visiting == visiting0 + {problem.world.manifests[path].name}
      requires problem.world.manifests[path].name !in visiting0
      requires forall n :: n in visiting0 <==> n in stack[..|stack| - 1]
      modifies this
      ensures Valid() && nameByManifest == old(nameByManifest)
      ensures stack == old(stack[..|stack| - 1]) && visiting == visiting0
      ensures |packages| == |old(packages)| && packages[..k] == old(packages[..k])
      ensures AllDone(problem, packages, k, nameByManifest.Keys) && packages[k].manifestPath == path
    {
      hide Indexed, AllDone, Followed, StrictlySorted;
      var names := SortedUnique(packages[k].dependencyNames);
      packages := packages[k := packages[k].(dependencyNames := names)];
      SameRows(problem, old(packages), packages, indexByName, nameByManifest.Keys);
      stack := stack[..|stack| - 1];
      visiting := visiting - {problem.world.manifests[path].name};
      DoneAbove(problem, old(packages), packages, k, nameByManifest.Keys);
      NodeIsDone(problem, packages, k, ds, nameByManifest.Keys);
    }

    /** The names from the first occurrence of `name` on the stack, closed by `name`. */
    method NameCycle(name: string) returns (cycle: seq<string>)
      requires Valid() && name in visiting && NamesEdge(problem, stack[|stack| - 1], name)
      ensures |cycle| >= 2 && cycle[0] == name && cycle[|cycle| - 1] == name
      ensures exists i :: 0 <= i < |stack| && cycle == stack[i..] + [name]
      ensures NamesWalk(problem, cycle)
    {
      hide Indexed, NamesEdge;
      var i := 0;
      while stack[i] != name
        invariant 0 <= i < |stack| && name in stack[i..]
        decreases |stack| - i
      {
        assert stack[i..] == [stack[i]] + stack[i + 1..];
        i := i + 1;
      }
      cycle := stack[i..] + [name];
    }
  }

  function NamesOf(ds: seq<Dependency>): seq<string> {
    seq(|ds|, i requires 0 <= i < |ds| => ds[i].name)
  }

  /** `std::sort` followed by `std::unique`. */
  method SortedUnique(names: seq<string>) returns (r: seq<string>)
    ensures StrictlySorted(r) && forall n :: n in r <==> n in names
  {
    LessIsTotalOrder();
    var sorted := Sort(names, Less);
    SameElements(names, sorted);
    r := Unique(sorted);
  }

  method Unique(sorted: seq<string>) returns (r: seq<string>)
    requires Sorted(sorted, Less)
    ensures StrictlySorted(r) && forall n :: n in r <==> n in sorted
  {
    hide StrictlySorted;
    EmptyIsSorted();
    r := [];
    var i := 0;
    while i < |sorted|
      invariant 0 <= i <= |sorted|
      invariant StrictlySorted(r) && forall n :: n in r <==> n in sorted[..i]
      invariant r != [] ==> i > 0 && r[|r| - 1] == sorted[i - 1]
    {
      assert sorted[..i + 1] == sorted[..i] + [sorted[i]];
      if r == [] || r[|r| - 1] != sorted[i] {
        AppendGreater(r, sorted[i]);
        r := r + [sorted[i]];
      }
      i := i + 1;
    }
    assert sorted[..i] == sorted;
  }

  lemma EmptyIsSorted()
    ensures StrictlySorted([])
  {
  }

  lemma AppendGreater(r: seq<string>, n: string)
    requires StrictlySorted(r)
    requires r != [] ==> r[|r| - 1] != n && !Less(n, r[|r| - 1])
    ensures StrictlySorted(r + [n])
  {
    LessIsTotalOrder();
    var longer := r + [n];
    forall i, j | 0 <= i < j < |longer| ensures Less(longer[i], longer[j]) {
      if j == |r| && i < |r| - 1 {
        assert Less(r[i], r[|r| - 1]) && Less(r[|r| - 1], n);
      }
    }
  }

  // ---- Failures are inconsistencies ----

  lemma UnreadableManifest(q: Problem, path: string)
    requires q.Reach(path) && path !in q.world.manifests
    ensures Justified(q, ResolveError(ManifestReadError, []))
  {
  }

  lemma NotLocated(q: Problem, path: string, d: Dependency)
    requires q.Reach(path) && path in q.world.manifests && d in q.Deps(path)
    requires Locate(q.world, q.options, path, d).Err?
    ensures Justified(q, ResolveError(Locate(q.world, q.options, path, d).error, []))
  {
    hide Found;
  }

  lemma WrongName(q: Problem, path: string, name: string, source: string)
    requires path in q.world.manifests && q.world.manifests[path].name != name
    requires ComesFrom(q, path, name, source)
    ensures Justified(q, ResolveError(DependencyNameMismatch, []))
  {
    var p: string, d: Dependency :| q.Reach(p) && d.name == name && EdgeVia(q.world, q.options, q.root, p, d, Location(path, source));
    assert Misnamed(q, p, d, Location(path, source));
  }

  lemma TwoManifests(q: Problem, packages: seq<ResolvedPackage>, indexByName: map<string, nat>, known: set<string>, path: string)
    requires Indexed(q, packages, indexByName, known)
    requires q.Reach(path) && path in q.world.manifests && path !in known
    requires q.world.manifests[path].name in indexByName
    ensures Clash(q, q.world.manifests[path].name)
  {
    var other := packages[indexByName[q.world.manifests[path].name]].manifestPath;
    assert BothNamed(q, path, other, q.world.manifests[path].name);
  }

  lemma CycleIsReal(q: Problem, cycle: seq<string>)
    requires |cycle| >= 2 && cycle[0] == cycle[|cycle| - 1] && NamesWalk(q, cycle) && Clash(q, cycle[0])
    ensures Justified(q, ResolveError(CycleDetected, cycle))
  {
    hide NamesWalk, Clash;
  }

  lemma DuplicateIsReal(q: Problem, name: string)
    requires Clash(q, name)
    ensures Justified(q, ResolveError(DuplicatePackageName, []))
  {
    hide Clash;
  }

  // ---- Bookkeeping ----

  lemma NothingNew(q: Problem, packages: seq<ResolvedPackage>, known: set<string>)
    ensures AllDone(q, packages, |packages|, known)
  {
  }

  lemma NothingFollowed(q: Problem, path: string, known: set<string>)
    ensures Followed(q, path, [], known)
  {
  }

  lemma NewNode(q: Problem, node: ResolvedPackage, isRoot: bool, source: Option<string>)
    requires node.manifestPath in q.world.manifests
    requires node.name == q.world.manifests[node.manifestPath].name
    requires node.version == q.world.manifests[node.manifestPath].version
    requires node.packageRoot == q.world.packageRoot(node.manifestPath)
    requires isRoot ==> node.manifestPath == q.root && node.source == "root"
    requires !isRoot ==> node.manifestPath != q.root && source == Some(node.source)
    requires !isRoot ==> exists name :: ComesFrom(q, node.manifestPath, name, node.source)
    ensures Describes(q.world, q.options, q.root, node)
  {
    hide EdgeVia, Reachable;
  }

  lemma NodeAdded(q: Problem, packages: seq<ResolvedPackage>, indexByName: map<string, nat>, known: set<string>, node: ResolvedPackage)
    requires Indexed(q, packages, indexByName, known)
    requires Describes(q.world, q.options, q.root, node) && q.Reach(node.manifestPath)
    requires node.manifestPath !in known && node.name !in indexByName
    ensures Indexed(q, packages + [node], indexByName[node.name := |packages|], known + {node.manifestPath})
  {
    var longer := packages + [node];
    hide Describes;
    forall p | p in known + {node.manifestPath} ensures exists i :: 0 <= i < |longer| && longer[i].manifestPath == p {
      if p in known {
        var i :| 0 <= i < |packages| && packages[i].manifestPath == p;
        assert longer[i].manifestPath == p;
      } else {
        assert longer[|packages|].manifestPath == p;
      }
    }
  }

  /** The rows agree in everything but their dependency names. */
  lemma SameRows(q: Problem, before: seq<ResolvedPackage>, after: seq<ResolvedPackage>, indexByName: map<string, nat>, known: set<string>)
    requires Indexed(q, before, indexByName, known) && |before| == |after|
    requires forall i :: 0 <= i < |before| ==> after[i] == before[i].(dependencyNames := after[i].dependencyNames)
    ensures Indexed(q, after, indexByName, known)
  {
    hide Describes, Reachable;
    forall i | 0 <= i < |after| ensures Describes(q.world, q.options, q.root, after[i]) {
      assert Describes(q.world, q.options, q.root, before[i]);
      DescribesIgnoresNames(q, before[i], after[i]);
    }
    SamePaths(before, after, known);
  }

  lemma SamePaths(before: seq<ResolvedPackage>, after: seq<ResolvedPackage>, known: set<string>)
    requires |before| == |after| && forall i :: 0 <= i < |before| ==> after[i].manifestPath == before[i].manifestPath
    requires forall p :: p in known ==> exists i :: 0 <= i < |before| && before[i].manifestPath == p
    ensures forall p :: p in known ==> exists i :: 0 <= i < |after| && after[i].manifestPath == p
  {
    forall p | p in known ensures exists i :: 0 <= i < |after| && after[i].manifestPath == p {
      var i :| 0 <= i < |before| && before[i].manifestPath == p;
      assert after[i].manifestPath == p;
    }
  }

  lemma DescribesIgnoresNames(q: Problem, before: ResolvedPackage, after: ResolvedPackage)
    requires Describes(q.world, q.options, q.root, before)
    requires after == before.(dependencyNames := after.dependencyNames)
    ensures Describes(q.world, q.options, q.root, after)
  {
  }

  lemma DoneGrows(q: Problem, mid: seq<ResolvedPackage>, now: seq<ResolvedPackage>, from: nat, known: set<string>, more: set<string>)
    requires AllDone(q, mid, from, known) && mid <= now && known <= more
    requires AllDone(q, now, |mid|, more)
    ensures AllDone(q, now, from, more)
  {
    forall i | from <= i < |now| ensures Done(q, now[i], more) {
      if i < |mid| {
        assert Done(q, mid[i], known);
      }
    }
  }

  lemma DoneAbove(q: Problem, before: seq<ResolvedPackage>, after: seq<ResolvedPackage>, k: nat, known: set<string>)
    requires AllDone(q, before, k + 1, known) && |before| == |after|
    requires forall i :: k < i < |before| ==> after[i] == before[i]
    ensures AllDone(q, after, k + 1, known)
  {
  }

  lemma FollowedOneMore(q: Problem, path: string, ds: seq<Dependency>, d: Dependency, known: set<string>, more: set<string>)
    requires Followed(q, path, ds, known) && known <= more
    requires LeadsInto(q, path, d, more)
    ensures Followed(q, path, ds + [d], more)
  {
  }

  lemma NodeIsDone(q: Problem, packages: seq<ResolvedPackage>, k: nat, ds: seq<Dependency>, known: set<string>)
    requires k < |packages| && AllDone(q, packages, k + 1, known)
    requires packages[k].manifestPath in q.world.manifests
    requires multiset(ds) == multiset(q.Deps(packages[k].manifestPath))
    requires Followed(q, packages[k].manifestPath, ds, known)
    requires StrictlySorted(packages[k].dependencyNames)
    requires forall n :: n in packages[k].dependencyNames <==> n in NamesOf(ds)
    ensures AllDone(q, packages, k, known)
  {
    var path := packages[k].manifestPath;
    var deps := q.Deps(path);
    SameElements(ds, deps);
    forall i | 0 <= i < |deps| ensures LeadsInto(q, path, deps[i], known) {
      assert deps[i] in ds;
    }
    SameNames(ds, deps);
    assert Done(q, packages[k], known);
  }

  lemma SameNames(ds: seq<Dependency>, deps: seq<Dependency>)
    requires forall d :: d in ds <==> d in deps
    ensures forall n :: n in NamesOf(ds) <==> exists i :: 0 <= i < |deps| && deps[i].name == n
  {
    forall n ensures n in NamesOf(ds) <==> exists i :: 0 <= i < |deps| && deps[i].name == n {
      if n in NamesOf(ds) {
        var j :| 0 <= j < |ds| && NamesOf(ds)[j] == n;
        assert ds[j] in deps;
      }
      if i :| 0 <= i < |deps| && deps[i].name == n {
        assert deps[i] in ds;
        var j :| 0 <= j < |ds| && ds[j] == deps[i];
        assert NamesOf(ds)[j] == n;
      }
    }
  }

  // ---- The whole resolution ----

  predicate PackageBefore(rootName: string, a: ResolvedPackage, b: ResolvedPackage) {
    if (a.name == rootName) != (b.name == rootName) then a.name == rootName
    else if a.name != b.name then Less(a.name, b.name)
    else Less(a.version, b.version)
  }

  lemma PackageOrderIsWeak(rootName: string)
    ensures StrictWeakOrder((a, b) => PackageBefore(rootName, a, b))
  {
    LessIsTotalOrder();
  }

  /** The packages found are complete: nothing leads out of them. */
  ghost predicate Complete(q: Problem, found: seq<ResolvedPackage>) {
    && found != [] && found[0].manifestPath == q.root
    && (forall i :: 0 <= i < |found| ==> FinalRow(q.world, q.options, q.root, found[i]))
    && UniqueNames(found)
    && (forall p :: q.Reach(p) <==> HasRow(found, p))
  }

  lemma KnownIsReachable(q: Problem, found: seq<ResolvedPackage>, indexByName: map<string, nat>, known: set<string>)
    requires Indexed(q, found, indexByName, known) && AllDone(q, found, 0, known)
    requires q.root in known
    ensures forall p :: q.Reach(p) <==> p in known
    ensures forall p :: p in known ==> EdgesResolve(q.world, q.options, q.root, p)
  {
    hide Describes, EdgesResolve, Done, Edge;
    forall a | a in known
      ensures q.Reach(a) && EdgesResolve(q.world, q.options, q.root, a)
      ensures forall b :: Edge(q.world, q.options, q.root, a, b) ==> b in known
    {
      var i :| 0 <= i < |found| && found[i].manifestPath == a;
      assert Done(q, found[i], known);
      KnownEdges(q, found[i], known);
    }
    forall p ensures q.Reach(p) ==> p in known {
      if q.Reach(p) {
        var ps :| IsWalk(q.world, q.options, q.root, ps) && ps[|ps| - 1] == p;
        ClosedHoldsReachable(q.world, q.options, q.root, known, ps);
      }
    }
  }

  lemma RowsAreFinal(q: Problem, found: seq<ResolvedPackage>, indexByName: map<string, nat>, known: set<string>)
    requires Indexed(q, found, indexByName, known) && AllDone(q, found, 0, known)
    ensures forall i :: 0 <= i < |found| ==> FinalRow(q.world, q.options, q.root, found[i])
  {
    hide Reachable, Describes, ListsNames, Followed;
    forall i | 0 <= i < |found| ensures FinalRow(q.world, q.options, q.root, found[i]) {
      assert Done(q, found[i], known);
    }
  }

  lemma KnownHaveRows(q: Problem, found: seq<ResolvedPackage>, indexByName: map<string, nat>, known: set<string>)
    requires Indexed(q, found, indexByName, known)
    ensures forall p :: p in known <==> HasRow(found, p)
  {
    hide Reachable, Describes;
  }

  lemma FoundIsReachable(q: Problem, found: seq<ResolvedPackage>, indexByName: map<string, nat>, known: set<string>)
    requires Indexed(q, found, indexByName, known) && AllDone(q, found, 0, known)
    requires found != [] && found[0].manifestPath == q.root && q.root in known
    ensures q.Solvable() && Complete(q, found)
  {
    hide Reachable, EdgesResolve, FinalRow, Indexed, AllDone, HasRow, UniqueNames, SameName;
    KnownIsReachable(q, found, indexByName, known);
    RowsAreFinal(q, found, indexByName, known);
    KnownHaveRows(q, found, indexByName, known);
    KnownNamesDiffer(q, found, indexByName, known);
  }

  lemma KnownNamesDiffer(q: Problem, found: seq<ResolvedPackage>, indexByName: map<string, nat>, known: set<string>)
    requires Indexed(q, found, indexByName, known)
    ensures UniqueNames(found)
    ensures forall a, b :: a in known && b in known && SameName(q.world, a, b) ==> a == b
  {
    hide Reachable, SourceIsKnown;
    forall a, b | a in known && b in known && SameName(q.world, a, b) ensures a == b {
      var i :| 0 <= i < |found| && found[i].manifestPath == a;
      var j :| 0 <= j < |found| && found[j].manifestPath == b;
      assert Describes(q.world, q.options, q.root, found[i]) && Describes(q.world, q.options, q.root, found[j]);
      assert found[i].name == found[j].name;
    }
  }

  lemma KnownEdges(q: Problem, pkg: ResolvedPackage, known: set<string>)
    requires Done(q, pkg, known)
    ensures EdgesResolve(q.world, q.options, q.root, pkg.manifestPath)
    ensures forall b :: Edge(q.world, q.options, q.root, pkg.manifestPath, b) ==> b in known
  {
    var p := pkg.manifestPath;
    forall d | d in q.Deps(p) ensures LeadsInto(q, p, d, known) {
      var i :| 0 <= i < |q.Deps(p)| && q.Deps(p)[i] == d;
    }
  }

  lemma SortedIsResolution(q: Problem, found: seq<ResolvedPackage>, packages: seq<ResolvedPackage>)
    requires q.root in q.world.manifests && Complete(q, found)
    requires SortedPermutation(found, packages, (a, b) => PackageBefore(found[0].name, a, b))
    ensures IsResolution(q.world, q.options, q.root, ResolvedGraph(found[0].name, packages))
  {
    SameElements(found, packages);
    PermutedKeysDiffer(found, packages, (p: ResolvedPackage) => p.name);
    SortedKeepsRows(q, found, packages);
    assert FinalRow(q.world, q.options, q.root, found[0]) && found[0] in packages;
    hide FinalRow, PackageBefore, Reachable;
    RootComesFirst(found[0].name, packages);
  }

  lemma SortedKeepsRows(q: Problem, found: seq<ResolvedPackage>, packages: seq<ResolvedPackage>)
    requires Complete(q, found) && forall x :: x in found <==> x in packages
    ensures forall i :: 0 <= i < |packages| ==> FinalRow(q.world, q.options, q.root, packages[i])
    ensures forall p :: q.Reach(p) <==> HasRow(packages, p)
  {
    hide FinalRow, Reachable;
    forall i | 0 <= i < |packages| ensures FinalRow(q.world, q.options, q.root, packages[i]) {
      assert packages[i] in found;
    }
    forall p ensures HasRow(found, p) <==> HasRow(packages, p) {
      if i :| 0 <= i < |packages| && packages[i].manifestPath == p {
        assert packages[i] in found;
      }
      if i :| 0 <= i < |found| && found[i].manifestPath == p {
        assert found[i] in packages;
      }
    }
  }

  lemma RootComesFirst(rootName: string, packages: seq<ResolvedPackage>)
    requires exists i :: 0 <= i < |packages| && packages[i].name == rootName
    requires UniqueNames(packages) && Sorted(packages, (a, b) => PackageBefore(rootName, a, b))
    ensures RootFirstByName(rootName, packages)
  {
    var k :| 0 <= k < |packages| && packages[k].name == rootName;
    assert k > 0 ==> !PackageBefore(rootName, packages[k], packages[0]);
    LessIsTotalOrder();
    forall i, j | 1 <= i < j < |packages| ensures Less(packages[i].name, packages[j].name) {
      assert !PackageBefore(rootName, packages[j], packages[i]);
      assert packages[0].name != packages[i].name && packages[0].name != packages[j].name;
      assert packages[i].name != packages[j].name;
    }
  }

  /**
   Resolves a root manifest. It succeeds exactly when the reachable part of the world is
   consistent, and then returns exactly the reachable manifests. A failure is justified: a cycle
   error not passed on from a locator names a real cycle of dependency names, and two manifests
   share the name that closes it.
   */
  method ResolveDependencies(root: string, world: World, options: Options) returns (r: Result<ResolvedGraph, ResolveError>)
    ensures r.Ok? <==> Consistent(world, options, root)
    ensures r.Ok? ==> IsResolution(world, options, root, r.value)
    ensures r.Err? ==> Justified(Problem(world, options, root), r.error)
  {
    var problem := Problem(world, options, root);
    RootIsReachable(world, options, root);
    if root !in world.manifests {
      JustifiedIsUnsolvable(problem, ResolveError(MissingDependencyManifest, []));
      return Err(ResolveError(MissingDependencyManifest, []));
    }
    var resolver := new Resolver(problem);
    var failure := resolver.Visit(root, None, true, None);
    if failure.Some? {
      JustifiedIsUnsolvable(problem, failure.value);
      return Err(failure.value);
    }
    var found := resolver.packages;
    FoundIsReachable(problem, found, resolver.indexByName, resolver.nameByManifest.Keys);
    var rootName := found[0].name;
    PackageOrderIsWeak(rootName);
    var packages := Sort(found, (a, b) => PackageBefore(rootName, a, b));
    SortedIsResolution(problem, found, packages);
    r := Ok(ResolvedGraph(rootName, packages));
  }
}
