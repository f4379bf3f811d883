/**
 The import graph of a set of modules, and the depth-first cycle detector that
 orders it (module_linker.cpp, `CycleDetector`).
 */
module ImportGraph {
  import opened Wrappers

  datatype ImportKind =
    | Plain
    | Only(ids: seq<string>)
    | Except(ids: seq<string>)
    | Rename(renames: seq<(string, string)>)
    | Prefix(prefix: string)

  /** One import clause: which module it names and what it takes from it. */
  datatype ImportSpec = ImportSpec(source: string, kind: ImportKind)

  /** Target module name -> its import clauses in textual order. */
  type Pending = map<string, seq<ImportSpec>>

  function ImportsOf(g: Pending, m: string): seq<ImportSpec> {
    if m in g then g[m] else []
  }

  ghost predicate Edge(g: Pending, a: string, b: string) {
    exists i :: 0 <= i < |ImportsOf(g, a)| && ImportsOf(g, a)[i].source == b
  }

  ghost predicate IsWalk(g: Pending, p: seq<string>) {
    |p| > 0 && forall i :: 0 <= i < |p| - 1 ==> Edge(g, p[i], p[i + 1])
  }

  ghost predicate IsCycle(g: Pending, p: seq<string>) {
    |p| >= 2 && IsWalk(g, p) && p[0] == p[|p| - 1]
  }

  ghost predicate Acyclic(g: Pending) {
    forall p :: !IsCycle(g, p)
  }

  ghost predicate Reaches(g: Pending, a: string, b: string) {
    exists p :: IsWalk(g, p) && p[0] == a && p[|p| - 1] == b
  }

  /** `universe` holds every imported name. */
  ghost predicate Covers(g: Pending, universe: set<string>) {
    forall a, b :: Edge(g, a, b) ==> b in universe
  }

  ghost predicate NoDuplicates(s: seq<string>) {
    forall i, j :: 0 <= i < j < |s| ==> s[i] != s[j]
  }

  /** Every import of a listed name is listed, and listed earlier. */
  ghost predicate DependenciesFirst(g: Pending, order: seq<string>) {
    forall i, b :: 0 <= i < |order| && Edge(g, order[i], b) ==> b in order[..i]
  }

  lemma ReachesSelf(g: Pending, a: string)
    ensures Reaches(g, a, a)
  {
    assert IsWalk(g, [a]);
  }

  lemma ReachesThrough(g: Pending, a: string, b: string, c: string)
    requires Edge(g, a, b) && Reaches(g, b, c)
    ensures Reaches(g, a, c)
  {
    var p :| IsWalk(g, p) && p[0] == b && p[|p| - 1] == c;
    var q := [a] + p;
    assert forall i :: 0 <= i < |q| - 1 ==> Edge(g, q[i], q[i + 1]) by {
      forall i | 0 <= i < |q| - 1 ensures Edge(g, q[i], q[i + 1]) {
        if i > 0 { assert q[i] == p[i - 1] && q[i + 1] == p[i]; }
      }
    }
    assert IsWalk(g, q);
  }

  /** A walk from a listed name visits only listed names, each no later than the one before it. */
  lemma {:induction false} WalkGoesDown(g: Pending, order: seq<string>, p: seq<string>, k: nat)
    requires DependenciesFirst(g, order) && IsWalk(g, p)
    requires k < |order| && order[k] == p[0]
    ensures |p| >= 2 ==> p[|p| - 1] in order[..k]
    ensures p[|p| - 1] in order
    decreases |p|
  {
    if |p| >= 2 {
      assert Edge(g, p[0], p[1]);
      assert p[1] in order[..k];
      var j :| 0 <= j < k && order[..k][j] == p[1];
      assert order[j] == p[1];
      var q := p[1..];
      forall i | 0 <= i < |q| - 1 ensures Edge(g, q[i], q[i + 1]) {
        assert Edge(g, p[i + 1], p[i + 2]);
      }
      WalkGoesDown(g, order, q, j);
      if |q| >= 2 {
        assert order[..j] <= order[..k];
        var i :| 0 <= i < j && order[..j][i] == q[|q| - 1];
        assert order[..k][i] == q[|q| - 1];
      }
    }
  }

  /** A duplicate-free order that lists dependencies first leaves no cycle among its names. */
  lemma OrderedNamesLieOnNoCycle(g: Pending, order: seq<string>, p: seq<string>)
    requires NoDuplicates(order) && DependenciesFirst(g, order)
    requires IsCycle(g, p)
    ensures p[0] !in order
  {
    if p[0] in order {
      var k :| 0 <= k < |order| && order[k] == p[0];
      WalkGoesDown(g, order, p, k);
      assert false;
    }
  }

  datatype VisitState = Unvisited | Visiting | Visited

  /** The three-state depth-first search; `topoOrder` is its post-order. */
  class CycleDetector {
    const pending: Pending
    var states: map<string, VisitState>
    var path: seq<string>
    var topoOrder: seq<string>

    constructor (pending: Pending)
      ensures Valid() && this.pending == pending
      ensures states == map[] && path == [] && topoOrder == []
    {
      this.pending := pending;
      states, path, topoOrder := map[], [], [];
    }

    ghost predicate Valid()
      reads this
    {
      && (forall n :: n in states ==> states[n] != Unvisited)
      && NoDuplicates(path)
      && (path != [] ==> IsWalk(pending, path))
      && (forall n :: n in path <==> n in states && states[n] == Visiting)
      && NoDuplicates(topoOrder)
      && (forall n :: n in topoOrder <==> n in states && states[n] == Visited)
      && DependenciesFirst(pending, topoOrder)
    }

    /** Visits `name`; a failure carries the cycle that the error message spells out. */
    method Visit(name: string, ghost universe: set<string>) returns (cycle: Option<seq<string>>)
      requires Valid()
      requires path != [] ==> Edge(pending, path[|path| - 1], name)
      requires name in universe && states.Keys <= universe && Covers(pending, universe)
      modifies this
      decreases universe - states.Keys, 0
      ensures states.Keys <= universe && old(states.Keys) <= states.Keys
      ensures cycle.None? ==> Valid() && path == old(path) && name in topoOrder
      ensures cycle.None? ==> Grown(pending, name, old(topoOrder), topoOrder)
      ensures cycle.Some? ==> IsCycle(pending, cycle.value)
    {
      hide DependenciesFirst, NoDuplicates, Grown, IsWalk, Edge, IsCycle, Covers;
      var state := if name in states then states[name] else Unvisited;
      if state == Visiting {
        var c := ReportCycle(name);
        return Some(c);
      }
      NothingGrown(pending, name, topoOrder);
      if state == Visited {
        return None;
      }
      ghost var path0, topo0 := path, topoOrder;
      Enter(name);
      assert name in states.Keys;
      cycle := VisitImports(name, universe);
      if cycle.Some? {
        return;
      }
      Leave(name, path0, topo0);
    }

    /** Visits the imports of the module just entered, in clause order. */
    method VisitImports(name: string, ghost universe: set<string>) returns (cycle: Option<seq<string>>)
      requires Valid() && path != [] && path[|path| - 1] == name
      requires states.Keys <= universe && Covers(pending, universe)
      modifies this
      decreases universe - states.Keys, 1
      ensures states.Keys <= universe && old(states.Keys) <= states.Keys
      ensures cycle.None? ==> Valid() && path == old(path)
      ensures cycle.None? ==> Grown(pending, name, old(topoOrder), topoOrder)
      ensures cycle.None? ==> forall j :: 0 <= j < |ImportsOf(pending, name)| ==> ImportsOf(pending, name)[j].source in topoOrder
      ensures cycle.Some? ==> IsCycle(pending, cycle.value)
    {
      hide Valid, Grown, Edge, IsCycle, Covers;
      ghost var topo0, keys0 := topoOrder, states.Keys;
      var imports := ImportsOf(pending, name);
      NothingGrown(pending, name, topoOrder);
      cycle := None;
      var i := 0;
      while i < |imports|
        invariant 0 <= i <= |imports|
        invariant cycle.None? && Valid() && path == old(path)
        invariant states.Keys <= universe && keys0 <= states.Keys
        invariant forall j :: 0 <= j < i ==> imports[j].source in topoOrder
        invariant Grown(pending, name, topo0, topoOrder)
      {
        ghost var before := topoOrder;
        ImportIsEdge(pending, name, i, universe);
        cycle := Visit(imports[i].source, universe);
        if cycle.Some? {
          return;
        }
        GrownThrough(pending, name, imports[i].source, topo0, before, topoOrder);
        i := i + 1;
      }
    }

    method Enter(name: string)
      requires Valid() && name !in states
      requires path != [] ==> Edge(pending, path[|path| - 1], name)
      modifies this`states, this`path
      ensures Valid() && path == old(path) + [name]
      ensures states == old(states)[name := Visiting]
    {
      ExtendWalk(pending, path, name);
      states := states[name := Visiting];
      path := path + [name];
    }

    method Leave(name: string, ghost outer: seq<string>, ghost topo0: seq<string>)
      requires Valid() && path == outer + [name]
      requires Grown(pending, name, topo0, topoOrder)
      requires forall j :: 0 <= j < |ImportsOf(pending, name)| ==> ImportsOf(pending, name)[j].source in topoOrder
      modifies this
      ensures Valid() && path == outer && topoOrder == old(topoOrder) + [name]
      ensures states == old(states)[name := Visited]
      ensures Grown(pending, name, topo0, topoOrder)
    {
      GrownByOne(pending, name, topo0, topoOrder);
      assert path[|outer|] == name;
      assert states[name] == Visiting && name !in topoOrder;
      assert forall j :: 0 <= j < |outer| ==> path[j] == outer[j];
      path := path[..|path| - 1];
      assert path == outer;
      states := states[name := Visited];
      ExtendOrder(pending, topoOrder, name);
      topoOrder := topoOrder + [name];
    }

    /** The part of `path` from `name` on, closed by `name` again. */
    method ReportCycle(name: string) returns (cycle: seq<string>)
      requires Valid() && name in path
      requires Edge(pending, path[|path| - 1], name)
      ensures IsCycle(pending, cycle) && cycle[0] == name
      ensures exists k :: 0 <= k < |path| && cycle == path[k..] + [name]
    {
      cycle := [];
      var inCycle := false;
      var i := 0;
      ghost var k := 0;
      while i < |path|
        invariant 0 <= i <= |path| && 0 <= k <= |path|
        invariant !inCycle ==> name !in path[..i] && cycle == []
        invariant inCycle ==> k < i && path[k] == name && cycle == path[k..i]
      {
        if path[i] == name {
          if !inCycle { k := i; }
          inCycle := true;
        }
        if inCycle {
          cycle := cycle + [path[i]];
        }
        i := i + 1;
      }
      assert path[..i] == path;
      assert path[k..i] == path[k..];
      CloseCycle(pending, path, k);
      cycle := cycle + [name];
    }
  }

  /** `now` extends `was` by names that `from` reaches. */
  ghost predicate Grown(g: Pending, from: string, was: seq<string>, now: seq<string>) {
    was <= now && forall n :: n in now[|was|..] ==> Reaches(g, from, n)
  }

  lemma NothingGrown(g: Pending, from: string, names: seq<string>)
    ensures Grown(g, from, names, names)
  {
  }

  lemma ImportIsEdge(g: Pending, name: string, i: nat, universe: set<string>)
    requires i < |ImportsOf(g, name)| && Covers(g, universe)
    ensures Edge(g, name, ImportsOf(g, name)[i].source) && ImportsOf(g, name)[i].source in universe
  {
  }

  lemma GrownThrough(g: Pending, name: string, imported: string, was: seq<string>, mid: seq<string>, now: seq<string>)
    requires Grown(g, name, was, mid) && Grown(g, imported, mid, now) && Edge(g, name, imported)
    ensures Grown(g, name, was, now)
    ensures mid <= now
  {
    assert now[|was|..] == mid[|was|..] + now[|mid|..];
    forall n | n in now[|was|..] ensures Reaches(g, name, n) {
      if n in now[|mid|..] {
        ReachesThrough(g, name, imported, n);
      }
    }
  }

  lemma GrownByOne(g: Pending, name: string, was: seq<string>, now: seq<string>)
    requires Grown(g, name, was, now)
    ensures Grown(g, name, was, now + [name])
  {
    ReachesSelf(g, name);
    assert (now + [name])[|was|..] == now[|was|..] + [name];
  }

  lemma CloseCycle(g: Pending, p: seq<string>, k: nat)
    requires IsWalk(g, p) && k < |p| && Edge(g, p[|p| - 1], p[k])
    ensures IsCycle(g, p[k..] + [p[k]])
  {
    var q := p[k..];
    forall i | 0 <= i < |q| - 1 ensures Edge(g, q[i], q[i + 1]) {
      assert Edge(g, p[k + i], p[k + i + 1]);
    }
    ExtendWalk(g, q, p[k]);
  }

  lemma ExtendWalk(g: Pending, p: seq<string>, name: string)
    requires p != [] ==> IsWalk(g, p) && Edge(g, p[|p| - 1], name)
    ensures IsWalk(g, p + [name])
  {
    var q := p + [name];
    forall i | 0 <= i < |q| - 1 ensures Edge(g, q[i], q[i + 1]) {
      if i < |p| - 1 { assert q[i] == p[i] && q[i + 1] == p[i + 1]; }
    }
  }

  lemma ExtendOrder(g: Pending, order: seq<string>, name: string)
    requires NoDuplicates(order) && DependenciesFirst(g, order) && name !in order
    requires forall b :: Edge(g, name, b) ==> b in order
    ensures NoDuplicates(order + [name]) && DependenciesFirst(g, order + [name])
  {
    var longer := order + [name];
    forall i, b | 0 <= i < |longer| && Edge(g, longer[i], b) ensures b in longer[..i] {
      if i < |order| {
        assert longer[..i] == order[..i];
      } else {
        assert longer[..i] == order;
      }
    }
  }
}
