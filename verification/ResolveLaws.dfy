/**
 Laws of locating and listing dependencies, in the terms of manifests and lockfile rows
 (eta/core/src/eta/package/resolver.cpp).
 */
module ResolveLaws {
  import opened Wrappers
  import opened ResolveSpec
  import Lockfiles

  // ---- Which names a package lists ----

  ghost predicate Declares(ds: seq<Dependency>, n: string) {
    exists d :: d in ds && d.name == n
  }

  lemma RowOfRoot(w: World, o: Options, root: string, g: ResolvedGraph, i: nat)
    requires Consistent(w, o, root) && IsResolution(w, o, root, g) && i < |g.packages|
    ensures g.packages[i].manifestPath == root <==> i == 0
  {
    hide Edge, SourceIsKnown, EdgesResolve, ListsNames;
    RootIsReachable(w, o, root);
    hide Reachable;
    assert FinalRow(w, o, root, g.packages[0]) && FinalRow(w, o, root, g.packages[i]);
    assert HasRow(g.packages, g.packages[0].manifestPath);
    assert SameName(w, g.packages[0].manifestPath, root);
  }

  /**
   A resolved package lists the names its manifest declares under dependencies; the root alone
   lists its development dependencies too, and only when they are asked for.
   */
  lemma NamesAreDeclared(w: World, o: Options, root: string, g: ResolvedGraph, i: nat, n: string)
    requires Consistent(w, o, root) && IsResolution(w, o, root, g) && i < |g.packages|
    ensures g.packages[i].manifestPath in w.manifests
    ensures
      var m := w.manifests[g.packages[i].manifestPath];
      n in g.packages[i].dependencyNames <==>
        Declares(m.dependencies, n) || (i == 0 && o.includeDev && Declares(m.devDependencies, n))
  {
    RowOfRoot(w, o, root, g, i);
    assert FinalRow(w, o, root, g.packages[i]);
    hide Consistent, IsResolution, SourceIsKnown, StrictlySorted;
    var p := g.packages[i].manifestPath;
    Listed(DependenciesOf(w, o, root, p), n);
    var m := w.manifests[p];
    assert Declares(m.dependencies + m.devDependencies, n) <==>
      Declares(m.dependencies, n) || Declares(m.devDependencies, n);
  }

  lemma Listed(ds: seq<Dependency>, n: string)
    ensures (exists i :: 0 <= i < |ds| && ds[i].name == n) <==> Declares(ds, n)
  {
  }

  /** The manifests with other development dependencies; the root's too when they do not count. */
  ghost predicate SameButDev(w: World, o: Options, root: string, ms: map<string, Manifest>) {
    && ms.Keys == w.manifests.Keys
    && (forall p :: p in ms ==> ms[p] == w.manifests[p].(devDependencies := ms[p].devDependencies))
    && (o.includeDev && root in ms ==> ms[root] == w.manifests[root])
  }

  lemma SameEdges(w: World, o: Options, root: string, ms: map<string, Manifest>, p: string, d: Dependency, l: Location)
    requires SameButDev(w, o, root, ms)
    ensures EdgeVia(w.(manifests := ms), o, root, p, d, l) <==> EdgeVia(w, o, root, p, d, l)
  {
  }

  lemma SameReach(w: World, o: Options, root: string, ms: map<string, Manifest>)
    requires SameButDev(w, o, root, ms)
    ensures forall p, q :: Edge(w.(manifests := ms), o, root, p, q) <==> Edge(w, o, root, p, q)
    ensures forall ps :: IsWalk(w.(manifests := ms), o, root, ps) <==> IsWalk(w, o, root, ps)
    ensures forall p :: Reachable(w.(manifests := ms), o, root, p) <==> Reachable(w, o, root, p)
  {
    hide SameButDev, EdgeVia;
    var w' := w.(manifests := ms);
    forall p, q ensures Edge(w', o, root, p, q) <==> Edge(w, o, root, p, q) {
      SameEdge(w, o, root, ms, p, q);
    }
    hide Edge;
    forall ps ensures IsWalk(w', o, root, ps) <==> IsWalk(w, o, root, ps) {
    }
    hide IsWalk;
    forall p ensures Reachable(w', o, root, p) <==> Reachable(w, o, root, p) {
      if Reachable(w', o, root, p) {
        var ps :| IsWalk(w', o, root, ps) && ps[|ps| - 1] == p;
        assert IsWalk(w, o, root, ps);
      }
      if Reachable(w, o, root, p) {
        var ps :| IsWalk(w, o, root, ps) && ps[|ps| - 1] == p;
        assert IsWalk(w', o, root, ps);
      }
    }
  }

  lemma SameEdge(w: World, o: Options, root: string, ms: map<string, Manifest>, p: string, q: string)
    requires SameButDev(w, o, root, ms)
    ensures Edge(w.(manifests := ms), o, root, p, q) <==> Edge(w, o, root, p, q)
  {
    hide SameButDev, EdgeVia;
    var w' := w.(manifests := ms);
    if Edge(w', o, root, p, q) {
      var d, l :| EdgeVia(w', o, root, p, d, l) && l.path == q;
      SameEdges(w, o, root, ms, p, d, l);
    }
    if Edge(w, o, root, p, q) {
      var d, l :| EdgeVia(w, o, root, p, d, l) && l.path == q;
      SameEdges(w, o, root, ms, p, d, l);
    }
  }

  /** Whose development dependencies change matters to no resolution, unless they are the root's. */
  lemma OthersDevelopmentDoesNotMatter(w: World, o: Options, root: string, ms: map<string, Manifest>, g: ResolvedGraph)
    requires SameButDev(w, o, root, ms)
    ensures Consistent(w.(manifests := ms), o, root) <==> Consistent(w, o, root)
    ensures IsResolution(w.(manifests := ms), o, root, g) <==> IsResolution(w, o, root, g)
  {
    hide *;
    var w' := w.(manifests := ms);
    SameReach(w, o, root, ms);
    forall p ensures EdgesResolve(w', o, root, p) <==> EdgesResolve(w, o, root, p) {
      SameResolving(w, o, root, ms, p);
    }
    forall p, q ensures SameName(w', p, q) <==> SameName(w, p, q) {
      SameNames(w, o, root, ms, p, q);
    }
    forall pkg ensures FinalRow(w', o, root, pkg) <==> FinalRow(w, o, root, pkg) {
      SameRow(w, o, root, ms, pkg);
    }
    SameConsistency(w, w', o, root);
    SameRootName(w, o, root, ms);
    SameResolution(w, w', o, root, g);
  }

  lemma SameResolving(w: World, o: Options, root: string, ms: map<string, Manifest>, p: string)
    requires SameButDev(w, o, root, ms)
    ensures EdgesResolve(w.(manifests := ms), o, root, p) <==> EdgesResolve(w, o, root, p)
  {
    var w' := w.(manifests := ms);
    forall d ensures DependencyResolves(w', o, p, d) <==> DependencyResolves(w, o, p, d) {
      assert Locate(w', o, p, d) == Locate(w, o, p, d);
    }
  }

  lemma SameNames(w: World, o: Options, root: string, ms: map<string, Manifest>, p: string, q: string)
    requires SameButDev(w, o, root, ms)
    ensures SameName(w.(manifests := ms), p, q) <==> SameName(w, p, q)
  {
  }

  lemma SameRootName(w: World, o: Options, root: string, ms: map<string, Manifest>)
    requires SameButDev(w, o, root, ms)
    ensures root in ms <==> root in w.manifests
    ensures root in ms ==> ms[root].name == w.manifests[root].name
  {
  }

  lemma SameResolution(w: World, w': World, o: Options, root: string, g: ResolvedGraph)
    requires root in w'.manifests <==> root in w.manifests
    requires root in w'.manifests ==> w'.manifests[root].name == w.manifests[root].name
    requires forall p :: Reachable(w', o, root, p) <==> Reachable(w, o, root, p)
    requires forall pkg :: FinalRow(w', o, root, pkg) <==> FinalRow(w, o, root, pkg)
    ensures IsResolution(w', o, root, g) <==> IsResolution(w, o, root, g)
  {
    hide Reachable, FinalRow, RootFirstByName, UniqueNames, HasRow;
  }

  lemma SameConsistency(w: World, w': World, o: Options, root: string)
    requires forall p :: Reachable(w', o, root, p) <==> Reachable(w, o, root, p)
    requires forall p :: EdgesResolve(w', o, root, p) <==> EdgesResolve(w, o, root, p)
    requires forall p, q :: SameName(w', p, q) <==> SameName(w, p, q)
    ensures Consistent(w', o, root) <==> Consistent(w, o, root)
  {
    hide EdgesResolve, SameName, Reachable;
  }

  lemma SameRow(w: World, o: Options, root: string, ms: map<string, Manifest>, pkg: ResolvedPackage)
    requires SameButDev(w, o, root, ms)
    requires forall p :: Reachable(w.(manifests := ms), o, root, p) <==> Reachable(w, o, root, p)
    ensures FinalRow(w.(manifests := ms), o, root, pkg) <==> FinalRow(w, o, root, pkg)
  {
    hide Reachable, EdgeVia, ListsNames;
    var w' := w.(manifests := ms);
    forall p, d, l ensures EdgeVia(w', o, root, p, d, l) <==> EdgeVia(w, o, root, p, d, l) {
      SameEdges(w, o, root, ms, p, d, l);
    }
  }

  // ---- Where a dependency is found, and its source ----

  /** The first row with the dependency's name that is not the root's and has the wanted source. */
  ghost predicate IsFirstRow(ps: seq<Lockfiles.LockfilePackage>, i: nat, name: string, source: string) {
    && i < |ps| && FitsRow(ps[i], name, source)
    && forall j :: 0 <= j < i ==> !FitsRow(ps[j], name, source)
  }

  predicate FitsRow(p: Lockfiles.LockfilePackage, name: string, source: string) {
    p.name == name && p.source == source && source != "root"
  }

  /** A git or tarball dependency's source: its kind, where it is, and what pins it. */
  ghost predicate IsSourceOf(d: Dependency, source: string) {
    match d.kind
    case Path => false
    case Git => |source| > 4 && source[..4] == "git+" && source[4..] == d.git + "#" + d.rev
    case Tarball => |source| > 8 && source[..8] == "tarball+" && source[8..] == d.tarball + "#sha256=" + d.sha256
  }

  lemma SourceIdIsSource(d: Dependency)
    requires !d.kind.Path?
    ensures IsSourceOf(d, SourceId(d)) && SourceId(d) != "root" && SourceId(d) != ""
  {
    var s := SourceId(d);
    if d.kind.Git? {
      assert s == "git+" + (d.git + "#" + d.rev);
    } else {
      assert s == "tarball+" + (d.tarball + "#sha256=" + d.sha256);
    }
  }

  lemma SourceIsUnique(d: Dependency, s: string, s': string)
    requires IsSourceOf(d, s) && IsSourceOf(d, s')
    ensures s == s'
  {
    var n := if d.kind.Git? then 4 else 8;
    assert s == s[..n] + s[n..] && s' == s'[..n] + s'[n..];
  }

  /** The source tells two valid dependencies apart: kind, place and pin can be read off it. */
  lemma SourceTellsDependency(d: Dependency, d': Dependency, source: string)
    requires IsSourceOf(d, source) && IsSourceOf(d', source)
    requires d.kind.Git? && d'.kind.Git? ==> |d.rev| == |d'.rev|
    requires d.kind.Tarball? && d'.kind.Tarball? ==> |d.sha256| == |d'.sha256|
    ensures d.kind == d'.kind
    ensures d.kind.Git? ==> d.git == d'.git && d.rev == d'.rev
    ensures d.kind.Tarball? ==> d.tarball == d'.tarball && d.sha256 == d'.sha256
  {
    KindShows(d, source);
    KindShows(d', source);
    if d.kind.Git? {
      SamePlaceAndPin(d.git, "#", d.rev, d'.git, d'.rev);
    } else {
      SamePlaceAndPin(d.tarball, "#sha256=", d.sha256, d'.tarball, d'.sha256);
    }
  }

  lemma KindShows(d: Dependency, source: string)
    requires IsSourceOf(d, source)
    ensures source != "" && (d.kind.Git? <==> source[0] == 'g') && (d.kind.Tarball? <==> source[0] == 't')
  {
    if d.kind.Git? {
      assert source[..4][0] == source[0];
    } else {
      assert source[..8][0] == source[0];
    }
  }

  lemma SamePlaceAndPin(place: string, mark: string, pin: string, place': string, pin': string)
    requires place + mark + pin == place' + mark + pin' && |pin| == |pin'|
    ensures place == place' && pin == pin'
  {
    var s := place + mark + pin;
    assert s[..|place|] == place && s[|place| + |mark|..] == pin;
    assert (place' + mark + pin')[..|place'|] == place' && (place' + mark + pin')[|place'| + |mark|..] == pin';
  }

  lemma {:induction false} FirstLockedIsFirst(ps: seq<Lockfiles.LockfilePackage>, d: Dependency) returns (i: nat)
    requires !d.kind.Path?
    ensures FirstLocked(ps, d).Some? <==> exists j :: 0 <= j < |ps| && FitsRow(ps[j], d.name, SourceId(d))
    ensures FirstLocked(ps, d).Some? ==> IsFirstRow(ps, i, d.name, SourceId(d)) && FirstLocked(ps, d) == Some(ps[i])
    decreases ps
  {
    SourceIdIsSource(d);
    hide SourceId, IsSourceOf;
    i := 0;
    if ps != [] && !FitsRow(ps[0], d.name, SourceId(d)) {
      var k := FirstLockedIsFirst(ps[1..], d);
      i := k + 1;
      assert forall j :: 1 <= j < |ps| ==> ps[j] == ps[1..][j - 1];
      if j :| 0 <= j < |ps| && FitsRow(ps[j], d.name, SourceId(d)) {
        assert FitsRow(ps[1..][j - 1], d.name, SourceId(d));
      }
      if j :| 0 <= j < |ps[1..]| && FitsRow(ps[1..][j], d.name, SourceId(d)) {
        assert FitsRow(ps[j + 1], d.name, SourceId(d));
      }
    }
  }

  /** The row of the lockfile that a dependency without a path is taken from. */
  ghost predicate FoundInLockfile(w: World, ps: seq<Lockfiles.LockfilePackage>, owner: string, d: Dependency, i: nat, l: Location) {
    && IsFirstRow(ps, i, d.name, l.source) && IsSourceOf(d, l.source)
    && w.locateModule(owner, ps[i].name, ps[i].version) == Some(l.path)
  }

  /**
   Without a locator, a dependency is found under its path, with that package's directory as its
   source, or in the first lockfile row of its name and its own source, once materialized.
   */
  lemma LocatedExactly(w: World, o: Options, owner: string, d: Dependency, l: Location)
    requires o.locator.None?
    ensures d.kind.Path? ==>
      (Locate(w, o, owner, d) == Ok(l) <==>
        w.locatePath(owner, d.path) == Some(l.path) && l.source == "path+" + w.packageRoot(l.path))
    ensures !d.kind.Path? ==>
      (Locate(w, o, owner, d) == Ok(l) <==>
        o.lockfile.Some? && exists i :: FoundInLockfile(w, o.lockfile.value.packages, owner, d, i, l))
    ensures Locate(w, o, owner, d) == Err(UnsupportedDependencySource) <==> !d.kind.Path? && o.lockfile.None?
    ensures Locate(w, o, owner, d).Err? ==>
      Locate(w, o, owner, d).error in {UnsupportedDependencySource, MissingDependencyManifest}
  {
    if !d.kind.Path? && o.lockfile.Some? {
      LockedExactly(w, o, owner, d, l);
    }
  }

  lemma LockedExactly(w: World, o: Options, owner: string, d: Dependency, l: Location)
    requires o.locator.None? && !d.kind.Path? && o.lockfile.Some?
    ensures Locate(w, o, owner, d) == Ok(l) <==>
      exists i :: FoundInLockfile(w, o.lockfile.value.packages, owner, d, i, l)
  {
    var ps := o.lockfile.value.packages;
    SourceIdIsSource(d);
    var k := FirstLockedIsFirst(ps, d);
    hide SourceId, IsSourceOf, FirstLocked;
    if Locate(w, o, owner, d) == Ok(l) {
      assert FoundInLockfile(w, ps, owner, d, k, l);
    }
    if i: nat :| FoundInLockfile(w, ps, owner, d, i, l) {
      SourceIsUnique(d, l.source, SourceId(d));
      assert FitsRow(ps[i], d.name, SourceId(d));
      assert i == k;
    }
  }

  /** A locator decides where a git or tarball dependency is; one it gives no source gets its own. */
  lemma LocatorDecides(w: World, o: Options, owner: string, d: Dependency)
    requires o.locator.Some? && !d.kind.Path?
    ensures Locate(w, o, owner, d).Ok? <==> o.locator.value(owner, d).Ok?
    ensures Locate(w, o, owner, d).Err? ==> Locate(w, o, owner, d) == o.locator.value(owner, d)
    ensures Locate(w, o, owner, d).Ok? ==>
      var found, l := o.locator.value(owner, d).value, Locate(w, o, owner, d).value;
      l.path == found.path && if found.source == "" then IsSourceOf(d, l.source) else l.source == found.source
  {
    SourceIdIsSource(d);
  }
}
