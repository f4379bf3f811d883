/**
 "Find paths to root": the breadth-first search inside `findPaths` of
 editors/vscode/src/heapView.ts, over a fixed object graph.
 */
module HeapPaths {
  import opened Wrappers

  const MAX_BFS_NODES := 4000
  const MAX_PATHS := 5

  datatype Inspection = Inspection(kind: string, preview: string, children: seq<int>)

  datatype Root = Root(name: string, objectIds: seq<int>)

  /** The objects the debugger can inspect; a request about any other id fails. */
  type Heap = map<int, Inspection>

  datatype PathNode = PathNode(objectId: int, kind: string, preview: string)

  datatype FoundPath = FoundPath(rootName: string, nodes: seq<PathNode>)

  datatype PathsResult = PathsResult(paths: seq<FoundPath>, visited: nat, truncated: bool)

  datatype Step = Step(oid: int, rootName: string, parent: Option<Step>)

  // ---- Paths ----

  ghost predicate IsEdge(heap: Heap, a: int, b: int) {
    a in heap && b in heap[a].children
  }

  ghost predicate IsRootObject(roots: seq<Root>, oid: int) {
    exists i :: 0 <= i < |roots| && oid in roots[i].objectIds
  }

  /** The root of that name is the first one that lists the object. */
  ghost predicate IsFirstListing(roots: seq<Root>, name: string, oid: int) {
    exists i :: 0 <= i < |roots| && roots[i].name == name && oid in roots[i].objectIds && NotListed(roots[..i], oid)
  }

  ghost predicate NotListed(roots: seq<Root>, oid: int) {
    forall k :: 0 <= k < |roots| ==> oid !in roots[k].objectIds
  }

  /** A walk along child edges that starts at some root object. */
  ghost predicate IsPath(roots: seq<Root>, heap: Heap, p: seq<int>) {
    && p != [] && IsRootObject(roots, p[0])
    && forall i :: 0 <= i < |p| - 1 ==> IsEdge(heap, p[i], p[i + 1])
  }

  ghost predicate IsPathTo(roots: seq<Root>, heap: Heap, target: int, p: seq<int>) {
    IsPath(roots, heap, p) && p[|p| - 1] == target
  }

  ghost predicate Reachable(roots: seq<Root>, heap: Heap, target: int) {
    exists p :: IsPathTo(roots, heap, target, p)
  }

  function Ids(nodes: seq<PathNode>): seq<int> {
    seq(|nodes|, i requires 0 <= i < |nodes| => nodes[i].objectId)
  }

  /** A path worth reporting: from an object first listed by the root it names, and no longer than any other. */
  ghost predicate IsShortest(roots: seq<Root>, heap: Heap, target: int, found: FoundPath) {
    && IsPathTo(roots, heap, target, Ids(found.nodes))
    && IsFirstListing(roots, found.rootName, found.nodes[0].objectId)
    && forall p :: IsPathTo(roots, heap, target, p) ==> |p| >= |found.nodes|
  }

  // ---- Steps ----

  function Chain(s: Step): (c: seq<int>)
    ensures c != [] && c[|c| - 1] == s.oid
  {
    match s.parent
    case None => [s.oid]
    case Some(parent) => Chain(parent) + [s.oid]
  }

  ghost predicate ValidStep(roots: seq<Root>, heap: Heap, s: Step) {
    match s.parent
    case None => IsFirstListing(roots, s.rootName, s.oid)
    case Some(parent) =>
      ValidStep(roots, heap, parent) && parent.rootName == s.rootName && IsEdge(heap, parent.oid, s.oid)
  }

  lemma {:induction false} ChainIsPath(roots: seq<Root>, heap: Heap, s: Step)
    requires ValidStep(roots, heap, s)
    ensures IsPathTo(roots, heap, s.oid, Chain(s)) && IsFirstListing(roots, s.rootName, Chain(s)[0])
  {
    if s.parent.Some? {
      ChainIsPath(roots, heap, s.parent.value);
      var c := Chain(s.parent.value);
      var longer := c + [s.oid];
      assert forall i :: 0 <= i < |longer| - 1 ==> IsEdge(heap, longer[i], longer[i + 1]);
    }
  }

  // ---- The search ----

  /** Depths at which objects were discovered. */
  type Depths = map<int, nat>

  /** The frontier holds discovered, unprocessed objects, one or two levels deep, in order. */
  ghost predicate IsFrontier(roots: seq<Root>, heap: Heap, frontier: seq<Step>, depth: Depths, done: set<int>, level: nat) {
    && (forall i :: 0 <= i < |frontier| ==> frontier[i].oid in depth && frontier[i].oid !in done)
    && (forall i, j :: 0 <= i < j < |frontier| ==> frontier[i].oid != frontier[j].oid)
    && (forall i :: 0 <= i < |frontier| ==> ValidStep(roots, heap, frontier[i]))
    && (forall i :: 0 <= i < |frontier| ==> |Chain(frontier[i])| == depth[frontier[i].oid] + 1)
    && (forall i :: 0 <= i < |frontier| ==> level <= depth[frontier[i].oid] <= level + 1)
    && (forall i, j :: 0 <= i < j < |frontier| ==> depth[frontier[i].oid] <= depth[frontier[j].oid])
    && (forall x :: x in depth ==> x in done || exists i :: 0 <= i < |frontier| && frontier[i].oid == x)
    && (forall x :: x in done ==> x in depth && depth[x] <= level)
  }

  /** The children of `x`, of which the first `n` have been looked at, are discovered. */
  ghost predicate Expanded(heap: Heap, depth: Depths, x: int, n: nat)
    requires x in heap && n <= |heap[x].children|
  {
    forall i :: 0 <= i < n ==>
      heap[x].children[i] in depth && x in depth && depth[heap[x].children[i]] <= depth[x] + 1
  }

  ghost predicate AllExpanded(heap: Heap, target: int, depth: Depths, done: set<int>) {
    forall x :: x in done && x != target && x in heap ==> Expanded(heap, depth, x, |heap[x].children|)
  }

  ghost predicate RootsAtZero(roots: seq<Root>, depth: Depths) {
    forall x :: IsRootObject(roots, x) ==> x in depth && depth[x] == 0
  }

  method FetchChildren(heap: Heap, cache: map<int, Inspection>, oid: int)
    returns (meta: Option<Inspection>, cache': map<int, Inspection>)
    requires CacheIsSound(heap, cache)
    ensures CacheIsSound(heap, cache')
    ensures meta == if oid in heap then Some(heap[oid]) else None
  {
    cache' := cache;
    if oid in cache {
      return Some(cache[oid]), cache;
    }
    if oid !in heap {
      return None, cache;
    }
    meta, cache' := Some(heap[oid]), cache[oid := heap[oid]];
  }

  /** The parent chain of a step, root first, with what inspection tells about each object. */
  method Reconstruct(roots: seq<Root>, heap: Heap, cache: map<int, Inspection>, step: Step)
    returns (found: FoundPath, cache': map<int, Inspection>)
    requires CacheIsSound(heap, cache) && ValidStep(roots, heap, step)
    ensures CacheIsSound(heap, cache')
    ensures found == FoundPath(step.rootName, Described(heap, Chain(step)))
  {
    hide ValidStep;
    var chain: seq<int> := [];
    var cur := Some(step);
    while cur.Some?
      invariant Upwards(Some(step)) == chain + Upwards(cur)
      decreases cur
    {
      chain := chain + [cur.value.oid];
      cur := cur.value.parent;
    }
    assert chain + [] == chain;
    chain := Reversed(chain);
    ReversedIsChain(step);
    var nodes: seq<PathNode> := [];
    cache' := cache;
    var i := 0;
    while i < |chain|
      invariant 0 <= i <= |chain| && CacheIsSound(heap, cache')
      invariant nodes == Described(heap, chain[..i])
    {
      var meta;
      meta, cache' := FetchChildren(heap, cache', chain[i]);
      nodes := nodes + [match meta
                        case Some(m) => PathNode(chain[i], m.kind, m.preview)
                        case None => PathNode(chain[i], "unknown", "")];
      i := i + 1;
    }
    assert chain[..i] == chain;
    found := FoundPath(step.rootName, nodes);
  }

  /** The objects from a step up to its root. */
  function Upwards(s: Option<Step>): seq<int> {
    if s.None? then [] else [s.value.oid] + Upwards(s.value.parent)
  }

  function Reversed(xs: seq<int>): seq<int> {
    if xs == [] then [] else Reversed(xs[1..]) + [xs[0]]
  }

  lemma {:induction false} ReversedIsChain(s: Step)
    ensures Reversed(Upwards(Some(s))) == Chain(s)
  {
    if s.parent.Some? {
      ReversedIsChain(s.parent.value);
    }
    assert ([s.oid] + Upwards(s.parent))[1..] == Upwards(s.parent);
  }

  function Describe(heap: Heap, oid: int): PathNode {
    if oid in heap then PathNode(oid, heap[oid].kind, heap[oid].preview) else PathNode(oid, "unknown", "")
  }

  function Described(heap: Heap, chain: seq<int>): (nodes: seq<PathNode>)
    ensures |nodes| == |chain| && Ids(nodes) == chain
  {
    seq(|chain|, i requires 0 <= i < |chain| => Describe(heap, chain[i]))
  }

  ghost predicate CacheIsSound(heap: Heap, cache: map<int, Inspection>) {
    forall x :: x in cache ==> x in heap && cache[x] == heap[x]
  }

  /** Steps without a parent, each under the first root that lists its object. */
  ghost predicate AreEntries(roots: seq<Root>, frontier: seq<Step>) {
    forall k :: 0 <= k < |frontier| ==>
      frontier[k].parent.None? && IsFirstListing(roots, frontier[k].rootName, frontier[k].oid)
  }

  /** Every distinct root object enters the frontier once, under the first root that lists it. */
  method InitialFrontier(roots: seq<Root>, heap: Heap) returns (frontier: seq<Step>, visited: set<int>, ghost depth: Depths)
    ensures depth.Keys == visited && RootsAtZero(roots, depth)
    ensures IsFrontier(roots, heap, frontier, depth, {}, 0)
    ensures AreEntries(roots, frontier)
  {
    hide IsFrontier, IsFirstListing;
    frontier, visited, depth := [], {}, map[];
    NothingFound(roots, heap);
    var i := 0;
    while i < |roots|
      invariant 0 <= i <= |roots| && depth.Keys == visited
      invariant RootsAtZero(roots[..i], depth) && forall x :: x in depth ==> depth[x] == 0
      invariant IsFrontier(roots, heap, frontier, depth, {}, 0) && AreEntries(roots, frontier)
    {
      var ids := roots[i].objectIds;
      var j := 0;
      while j < |ids|
        invariant 0 <= j <= |ids| && depth.Keys == visited
        invariant RootsAtZero(roots[..i], depth) && forall x :: x in depth ==> depth[x] == 0
        invariant forall k :: 0 <= k < j ==> ids[k] in depth
        invariant IsFrontier(roots, heap, frontier, depth, {}, 0) && AreEntries(roots, frontier)
      {
        if ids[j] !in visited {
          var step := Step(ids[j], roots[i].name, None);
          FirstListed(roots, i, ids[j], depth);
          PushStep(roots, heap, frontier, depth, {}, 0, step, 0);
          visited, frontier, depth := visited + {ids[j]}, frontier + [step], depth[ids[j] := 0];
        }
        j := j + 1;
      }
      OneMoreRoot(roots, i, depth);
      i := i + 1;
    }
    assert roots[..i] == roots;
  }

  /** What the roots before this one list has been found, so an object not found is first listed here. */
  lemma FirstListed(roots: seq<Root>, i: nat, oid: int, depth: Depths)
    requires i < |roots| && oid in roots[i].objectIds && RootsAtZero(roots[..i], depth) && oid !in depth
    ensures IsFirstListing(roots, roots[i].name, oid)
  {
    assert !IsRootObject(roots[..i], oid);
  }

  lemma NothingFound(roots: seq<Root>, heap: Heap)
    ensures IsFrontier(roots, heap, [], map[], {}, 0) && RootsAtZero([], map[])
  {
  }

  lemma OneMoreRoot(roots: seq<Root>, i: nat, depth: Depths)
    requires i < |roots| && RootsAtZero(roots[..i], depth) && forall x :: x in depth ==> depth[x] == 0
    requires forall k :: 0 <= k < |roots[i].objectIds| ==> roots[i].objectIds[k] in depth
    ensures RootsAtZero(roots[..i + 1], depth)
  {
    forall x | IsRootObject(roots[..i + 1], x) ensures x in depth {
      var k :| 0 <= k < i + 1 && x in roots[..i + 1][k].objectIds;
      if k < i {
        assert roots[..i][k] == roots[k];
        assert IsRootObject(roots[..i], x);
      }
    }
  }

  lemma PushStep(
    roots: seq<Root>, heap: Heap, frontier: seq<Step>, depth: Depths, done: set<int>, level: nat, s: Step, d: nat)
    requires IsFrontier(roots, heap, frontier, depth, done, level)
    requires s.oid !in depth && ValidStep(roots, heap, s) && |Chain(s)| == d + 1
    requires level <= d <= level + 1 && forall x :: x in depth ==> depth[x] <= d
    ensures IsFrontier(roots, heap, frontier + [s], depth[s.oid := d], done, level)
  {
    hide ValidStep, Chain;
    var longer, deeper := frontier + [s], depth[s.oid := d];
    forall i | 0 <= i < |longer| ensures longer[i] == if i < |frontier| then frontier[i] else s {}
    forall x | x in deeper ensures x in done || exists i :: 0 <= i < |longer| && longer[i].oid == x {
      if x == s.oid {
        assert longer[|frontier|].oid == x;
      } else if x !in done {
        var i :| 0 <= i < |frontier| && frontier[i].oid == x;
        assert longer[i].oid == x;
      }
    }
  }

  lemma Shift(roots: seq<Root>, heap: Heap, frontier: seq<Step>, depth: Depths, done: set<int>, level: nat)
    requires frontier != [] && IsFrontier(roots, heap, frontier, depth, done, level)
    ensures var x := frontier[0].oid;
      IsFrontier(roots, heap, frontier[1..], depth, done + {x}, depth[x]) && forall y :: y in depth ==> depth[y] <= depth[x] + 1
  {
    hide ValidStep, Chain;
    var shorter := frontier[1..];
    assert forall i :: 0 <= i < |shorter| ==> shorter[i] == frontier[i + 1];
    forall x | x in depth ensures x in done + {frontier[0].oid} || exists i :: 0 <= i < |shorter| && shorter[i].oid == x {
      if x !in done + {frontier[0].oid} {
        var i :| 0 <= i < |frontier| && frontier[i].oid == x;
        assert shorter[i - 1].oid == x;
      }
    }
  }

  /** Marks and queues the children not seen before. */
  method Expand(
    roots: seq<Root>, heap: Heap, step: Step, children: seq<int>,
    frontier0: seq<Step>, visited0: set<int>, ghost depth0: Depths, ghost done: set<int>)
    returns (frontier: seq<Step>, visited: set<int>, ghost depth: Depths)
    requires ValidStep(roots, heap, step) && step.oid in heap && children == heap[step.oid].children
    requires depth0.Keys == visited0 && step.oid in depth0 && |Chain(step)| == depth0[step.oid] + 1
    requires IsFrontier(roots, heap, frontier0, depth0, done, depth0[step.oid])
    requires forall x :: x in depth0 ==> depth0[x] <= depth0[step.oid] + 1
    ensures depth.Keys == visited && Extends(depth0, depth)
    ensures IsFrontier(roots, heap, frontier, depth, done, depth0[step.oid])
    ensures Expanded(heap, depth, step.oid, |children|)
  {
    hide IsFrontier, IsEdge;
    ghost var level := depth0[step.oid];
    frontier, visited, depth := frontier0, visited0, depth0;
    var i := 0;
    while i < |children|
      invariant 0 <= i <= |children| && depth.Keys == visited && Extends(depth0, depth)
      invariant IsFrontier(roots, heap, frontier, depth, done, level)
      invariant forall x :: x in depth ==> depth[x] <= level + 1
      invariant Expanded(heap, depth, step.oid, i)
    {
      if children[i] !in visited {
        var child := Step(children[i], step.rootName, Some(step));
        ChildIsValid(roots, heap, step, i);
        PushStep(roots, heap, frontier, depth, done, level, child, level + 1);
        visited, frontier, depth := visited + {children[i]}, frontier + [child], depth[children[i] := level + 1];
      }
      i := i + 1;
    }
  }

  /** Objects keep the depth they were discovered at. */
  ghost predicate Extends(depth0: Depths, depth: Depths) {
    forall x :: x in depth0 ==> x in depth && depth[x] == depth0[x]
  }

  lemma ChildIsValid(roots: seq<Root>, heap: Heap, step: Step, i: nat)
    requires ValidStep(roots, heap, step) && step.oid in heap && i < |heap[step.oid].children|
    ensures var child := Step(heap[step.oid].children[i], step.rootName, Some(step));
      ValidStep(roots, heap, child) && |Chain(child)| == |Chain(step)| + 1
  {
  }

  /** The search: at most one path, a shortest one, and it is found unless the search is cut off. */
  method FindPaths(roots: seq<Root>, heap: Heap, objectId: int) returns (result: PathsResult)
    ensures |result.paths| <= 1
    ensures forall i :: 0 <= i < |result.paths| ==> IsShortest(roots, heap, objectId, result.paths[i])
    ensures !result.truncated && Reachable(roots, heap, objectId) ==> result.paths != []
    ensures result.truncated ==> MoreReachable(roots, heap, MAX_BFS_NODES)
  {
    hide IsFrontier, AllExpanded, RootsAtZero, IsShortest, Reachable, ValidStep;
    result := PathsResult([], 0, false);
    var cache: map<int, Inspection> := map[];
    var frontier, visited, depth := InitialFrontier(roots, heap);
    ghost var done: set<int> := {};
    ghost var level := 0;
    NothingExpanded(heap, objectId, depth);
    while frontier != [] && |result.paths| < MAX_PATHS
      invariant depth.Keys == visited && RootsAtZero(roots, depth)
      invariant IsFrontier(roots, heap, frontier, depth, done, level)
      invariant AllExpanded(heap, objectId, depth, done)
      invariant CacheIsSound(heap, cache)
      invariant |done| == result.visited <= MAX_BFS_NODES && !result.truncated
      invariant forall x :: x in done ==> Reachable(roots, heap, x)
      invariant |result.paths| == if objectId in done then 1 else 0
      invariant objectId in done ==> IsShortest(roots, heap, objectId, result.paths[0])
      decreases MAX_BFS_NODES - result.visited
    {
      var step := frontier[0];
      FirstStep(roots, heap, frontier, depth, done, level);
      if result.visited >= MAX_BFS_NODES {
        assert |done + {step.oid}| == MAX_BFS_NODES + 1;
        result := result.(truncated := true);
        break;
      }
      Shift(roots, heap, frontier, depth, done, level);
      ghost var frontier0, level0 := frontier, level;
      frontier := frontier[1..];
      result := result.(visited := result.visited + 1);
      level := depth[step.oid];
      if step.oid == objectId {
        var found;
        found, cache := Reconstruct(roots, heap, cache, step);
        NoShorterPath(roots, heap, objectId, frontier0, depth, done, level0);
        FoundIsShortest(roots, heap, objectId, step, found);
        result := result.(paths := result.paths + [found]);
        TargetDone(heap, objectId, depth, done);
        done := done + {step.oid};
        continue;
      }
      var meta;
      meta, cache := FetchChildren(heap, cache, step.oid);
      done := done + {step.oid};
      if meta.None? {
        LeafDone(heap, objectId, depth, done - {step.oid}, step.oid);
        continue;
      }
      ghost var depth0 := depth;
      frontier, visited, depth := Expand(roots, heap, step, meta.value.children, frontier, visited, depth, done);
      ExpandedOneMore(roots, heap, objectId, depth0, depth, done - {step.oid}, step.oid);
    }
    if frontier == [] && !result.truncated {
      NothingMissed(roots, heap, objectId, depth, done, level);
    }
  }

  /** More than `n` objects can be reached from the roots. */
  ghost predicate MoreReachable(roots: seq<Root>, heap: Heap, n: nat) {
    exists seen: set<int> :: |seen| == n + 1 && forall x :: x in seen ==> Reachable(roots, heap, x)
  }

  lemma NothingExpanded(heap: Heap, target: int, depth: Depths)
    ensures AllExpanded(heap, target, depth, {})
  {
  }

  lemma FirstStep(roots: seq<Root>, heap: Heap, frontier: seq<Step>, depth: Depths, done: set<int>, level: nat)
    requires frontier != [] && IsFrontier(roots, heap, frontier, depth, done, level)
    ensures var s := frontier[0];
      && s.oid in depth && s.oid !in done && ValidStep(roots, heap, s) && |Chain(s)| == depth[s.oid] + 1
      && Reachable(roots, heap, s.oid)
  {
    hide IsPathTo, ValidStep, Chain;
    ChainIsPath(roots, heap, frontier[0]);
  }

  /** Shallower objects are all processed, so a shorter way to the target would have led to it. */
  lemma {:induction false} ShallowAreDone(
    roots: seq<Root>, heap: Heap, target: int, frontier: seq<Step>, depth: Depths, done: set<int>, level: nat,
    p: seq<int>, i: nat)
    requires frontier != [] && frontier[0].oid == target && IsFrontier(roots, heap, frontier, depth, done, level)
    requires RootsAtZero(roots, depth) && AllExpanded(heap, target, depth, done)
    requires IsPath(roots, heap, p) && i < |p| && i <= depth[target]
    ensures p[i] in depth && depth[p[i]] <= i
  {
    hide ValidStep, Chain;
    if i > 0 {
      ShallowAreDone(roots, heap, target, frontier, depth, done, level, p, i - 1);
      assert IsEdge(heap, p[i - 1], p[i]);
      assert p[i - 1] in done;
      assert Expanded(heap, depth, p[i - 1], |heap[p[i - 1]].children|);
    }
  }

  lemma NoShorterPath(
    roots: seq<Root>, heap: Heap, target: int, frontier: seq<Step>, depth: Depths, done: set<int>, level: nat)
    requires frontier != [] && frontier[0].oid == target && IsFrontier(roots, heap, frontier, depth, done, level)
    requires RootsAtZero(roots, depth) && AllExpanded(heap, target, depth, done)
    ensures forall p :: IsPathTo(roots, heap, target, p) ==> |p| >= depth[target] + 1
  {
    hide RootsAtZero, AllExpanded, ValidStep;
    forall p | IsPathTo(roots, heap, target, p) ensures |p| >= depth[target] + 1 {
      if |p| <= depth[target] {
        ShallowAreDone(roots, heap, target, frontier, depth, done, level, p, |p| - 1);
      }
    }
  }

  lemma FoundIsShortest(roots: seq<Root>, heap: Heap, target: int, step: Step, found: FoundPath)
    requires step.oid == target && ValidStep(roots, heap, step)
    requires found == FoundPath(step.rootName, Described(heap, Chain(step)))
    requires forall p :: IsPathTo(roots, heap, target, p) ==> |p| >= |Chain(step)|
    ensures IsShortest(roots, heap, target, found)
  {
    hide IsPathTo, IsFirstListing, ValidStep;
    ChainIsPath(roots, heap, step);
  }

  lemma TargetDone(heap: Heap, target: int, depth: Depths, done: set<int>)
    requires AllExpanded(heap, target, depth, done)
    ensures AllExpanded(heap, target, depth, done + {target})
  {
  }

  lemma LeafDone(heap: Heap, target: int, depth: Depths, done: set<int>, x: int)
    requires AllExpanded(heap, target, depth, done) && x !in heap
    ensures AllExpanded(heap, target, depth, done + {x})
  {
  }

  lemma ExpandedOneMore(roots: seq<Root>, heap: Heap, target: int, depth0: Depths, depth: Depths, done: set<int>, x: int)
    requires AllExpanded(heap, target, depth0, done) && RootsAtZero(roots, depth0)
    requires x in heap && Expanded(heap, depth, x, |heap[x].children|)
    requires Extends(depth0, depth)
    ensures AllExpanded(heap, target, depth, done + {x}) && RootsAtZero(roots, depth)
  {
    forall y | y in done && y != target && y in heap ensures Expanded(heap, depth, y, |heap[y].children|) {
      ExpandedStays(heap, depth0, depth, y);
    }
  }

  lemma ExpandedStays(heap: Heap, depth0: Depths, depth: Depths, y: int)
    requires y in heap && Expanded(heap, depth0, y, |heap[y].children|) && Extends(depth0, depth)
    ensures Expanded(heap, depth, y, |heap[y].children|)
  {
    var cs := heap[y].children;
    forall i | 0 <= i < |cs| ensures cs[i] in depth && y in depth && depth[cs[i]] <= depth[y] + 1 {
      assert cs[i] in depth0 && depth0[cs[i]] <= depth0[y] + 1;
      KeepsDepth(depth0, depth, y);
      KeepsDepth(depth0, depth, cs[i]);
    }
  }

  lemma KeepsDepth(depth0: Depths, depth: Depths, x: int)
    requires Extends(depth0, depth) && x in depth0
    ensures x in depth && depth[x] == depth0[x]
  {
  }

  /** With the frontier empty, whatever can be reached was processed or lies behind the target. */
  lemma NothingMissed(roots: seq<Root>, heap: Heap, target: int, depth: Depths, done: set<int>, level: nat)
    requires IsFrontier(roots, heap, [], depth, done, level)
    requires RootsAtZero(roots, depth) && AllExpanded(heap, target, depth, done)
    ensures Reachable(roots, heap, target) ==> target in done
  {
    if Reachable(roots, heap, target) && target !in done {
      var p :| IsPathTo(roots, heap, target, p);
      PathIsDone(roots, heap, target, depth, done, level, p, |p| - 1);
    }
  }

  lemma {:induction false} PathIsDone(
    roots: seq<Root>, heap: Heap, target: int, depth: Depths, done: set<int>, level: nat, p: seq<int>, i: nat)
    requires IsFrontier(roots, heap, [], depth, done, level) && target !in done
    requires RootsAtZero(roots, depth) && AllExpanded(heap, target, depth, done)
    requires IsPath(roots, heap, p) && i < |p|
    ensures p[i] in done
  {
    if i > 0 {
      PathIsDone(roots, heap, target, depth, done, level, p, i - 1);
      assert IsEdge(heap, p[i - 1], p[i]);
      assert Expanded(heap, depth, p[i - 1], |heap[p[i - 1]].children|);
    }
  }
}
