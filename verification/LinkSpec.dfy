/**
 What linking means, independent of any iteration order: the import tables as
 a recursive function over the import DAG.
 */
module LinkSpec {
  import opened Wrappers
  import opened ImportGraph

  /** Provenance of an imported name: the module and exported name it comes from. */
  datatype Origin = Origin(fromModule: string, remoteName: string)

  type Origins = map<string, Origin>

  datatype ModuleState = Indexed | Linked

  /** `declared` is the key set of the source's export spans: empty for a compiled provider. */
  datatype ModuleTable = ModuleTable(
    name: string,
    defined: set<string>,
    exports: set<string>,
    declared: set<string>,
    visible: set<string>,
    origins: Origins,
    state: ModuleState)

  datatype LinkError =
    | UnknownModule
    | ExportOfUnknownName
    | ConflictingImport
    | NameNotExported
    | DuplicateModule
    | CircularDependency(cycle: seq<string>)

  type Modules = map<string, ModuleTable>

  // ---- One import clause ----

  function Identity(names: set<string>): map<string, string> {
    map x | x in names :: x
  }

  /** The renames are applied one after another to the map built so far. */
  function ApplyRenames(m: map<string, string>, renames: seq<(string, string)>)
    : (r: Result<map<string, string>, LinkError>)
    ensures r.Err? ==> r.error == NameNotExported || r.error == ConflictingImport
    decreases |renames|
  {
    if renames == [] then Ok(m)
    else
      var (old_, new_) := renames[0];
      if old_ !in m then Err(NameNotExported)
      else if new_ in m - {old_} then Err(ConflictingImport)
      else ApplyRenames((m - {old_})[new_ := m[old_]], renames[1..])
  }

  // ---- When a rename clause is accepted ----

  /** Before its turn, a name stands for an import: the last rename that mentions it made it. */
  predicate Bound(m: map<string, string>, rs: seq<(string, string)>, i: nat, n: string)
    requires i <= |rs|
  {
    if i == 0 then n in m else rs[i - 1].1 == n || (rs[i - 1].0 != n && Bound(m, rs, i - 1, n))
  }

  predicate InTurn(m: map<string, string>, rs: seq<(string, string)>, i: nat)
    requires i < |rs|
  {
    Bound(m, rs, i, rs[i].0) && (rs[i].1 == rs[i].0 || !Bound(m, rs, i, rs[i].1))
  }

  /** One rename done: the others find the names as they would in the whole clause. */
  lemma {:induction false} BoundAfterFirst(m: map<string, string>, rs: seq<(string, string)>, i: nat, n: string)
    requires i < |rs| && rs[0].0 in m
    ensures Bound((m - {rs[0].0})[rs[0].1 := m[rs[0].0]], rs[1..], i, n) <==> Bound(m, rs, i + 1, n)
  {
    if i > 0 {
      assert rs[1..][i - 1] == rs[i];
      BoundAfterFirst(m, rs, i - 1, n);
    }
  }

  /** For every clause: accepted iff each old name is bound and each new name is free in its turn. */
  lemma {:induction false} RenamesInTurn(m: map<string, string>, rs: seq<(string, string)>)
    ensures ApplyRenames(m, rs).Ok? <==> forall i :: 0 <= i < |rs| ==> InTurn(m, rs, i)
    decreases |rs|
  {
    if rs != [] {
      var (o, n) := rs[0];
      if o in m && n !in m - {o} {
        var m' := (m - {o})[n := m[o]];
        RenamesInTurn(m', rs[1..]);
        assert InTurn(m, rs, 0);
        forall i | 0 <= i < |rs| - 1 ensures InTurn(m', rs[1..], i) <==> InTurn(m, rs, i + 1) {
          BoundAfterFirst(m, rs, i, rs[i + 1].0);
          BoundAfterFirst(m, rs, i, rs[i + 1].1);
        }
        if forall i :: 0 <= i < |rs| - 1 ==> InTurn(m', rs[1..], i) {
          forall i | 0 <= i < |rs| ensures InTurn(m, rs, i) {
            if i > 0 { assert InTurn(m', rs[1..], i - 1); }
          }
        }
      } else {
        assert !InTurn(m, rs, 0);
      }
    }
  }

  /** No name is renamed twice, and every renamed name is there. */
  predicate RenamesOnce(m: map<string, string>, rs: seq<(string, string)>) {
    && (forall i :: 0 <= i < |rs| ==> rs[i].0 in m)
    && (forall i, j :: 0 <= i < j < |rs| ==> rs[i].0 != rs[j].0)
  }

  predicate GivenUp(rs: seq<(string, string)>, i: nat, n: string) {
    exists j :: 0 <= j <= i && j < |rs| && rs[j].0 == n
  }

  /** The new name is not taken: given up by now if it was there, and not given before. */
  predicate FreeInTurn(m: map<string, string>, rs: seq<(string, string)>, i: nat)
    requires i < |rs|
  {
    && (rs[i].1 in m ==> GivenUp(rs, i, rs[i].1))
    && (forall j :: 0 <= j < i ==> rs[j].1 != rs[i].1)
  }

  predicate AllFreeInTurn(m: map<string, string>, rs: seq<(string, string)>) {
    forall i :: 0 <= i < |rs| ==> FreeInTurn(m, rs, i)
  }

  lemma FreeAfterFirst(m: map<string, string>, rs: seq<(string, string)>, i: nat)
    requires RenamesOnce(m, rs) && i + 1 < |rs| && FreeInTurn(m, rs, 0)
    ensures FreeInTurn((m - {rs[0].0})[rs[0].1 := m[rs[0].0]], rs[1..], i) <==> FreeInTurn(m, rs, i + 1)
  {
    var (o, n) := rs[0];
    var m', rest, x := (m - {o})[n := m[o]], rs[1..], rs[i + 1].1;
    assert rest[i] == rs[i + 1];
    if FreeInTurn(m, rs, i + 1) {
      assert x != n by { assert rs[0].1 != rs[i + 1].1; }
      forall j | 0 <= j < i ensures rest[j].1 != x {
        assert rs[j + 1].1 != rs[i + 1].1;
      }
      if x in m' {
        var j :| 0 <= j <= i + 1 && rs[j].0 == x;
        assert rest[j - 1].0 == x;
      }
    }
    if FreeInTurn(m', rest, i) {
      if x in m' {
        var j :| 0 <= j <= i && rest[j].0 == x;
        assert rs[j + 1].0 == x;
      }
      forall j | 0 <= j < i + 1 ensures rs[j].1 != x {
        if j > 0 { assert rest[j - 1].1 != rest[i].1; }
      }
      if x == o { assert rs[0].0 == x; }
    }
  }

  function Olds(rs: seq<(string, string)>): set<string> {
    set i | 0 <= i < |rs| :: rs[i].0
  }

  function News(rs: seq<(string, string)>): set<string> {
    set i | 0 <= i < |rs| :: rs[i].1
  }

  /** The map with all renames made at once. */
  ghost predicate RenamedAtOnce(m: map<string, string>, rs: seq<(string, string)>, r: map<string, string>)
    requires RenamesOnce(m, rs)
  {
    && r.Keys == (m.Keys - Olds(rs)) + News(rs)
    && (forall i :: 0 <= i < |rs| ==> r[rs[i].1] == m[rs[i].0])
    && (forall x :: x in m.Keys - Olds(rs) ==> r[x] == m[x])
  }

  /**
   For every clause that renames no name twice: it is accepted iff every new name is free in its
   turn. Then it is the simultaneous renaming, and otherwise it is a conflict.
   */
  lemma {:induction false} RenamesOnceAccepted(m: map<string, string>, rs: seq<(string, string)>)
    requires RenamesOnce(m, rs)
    ensures ApplyRenames(m, rs).Ok? <==> AllFreeInTurn(m, rs)
    ensures ApplyRenames(m, rs).Ok? ==> RenamedAtOnce(m, rs, ApplyRenames(m, rs).value)
    ensures ApplyRenames(m, rs).Err? ==> ApplyRenames(m, rs).error == ConflictingImport
    decreases |rs|
  {
    if rs != [] {
      var (o, n) := rs[0];
      assert FreeInTurn(m, rs, 0) <==> n !in m - {o} by { FirstIsFree(m, rs); }
      if FreeInTurn(m, rs, 0) {
        var m' := (m - {o})[n := m[o]];
        OnceAfterFirst(m, rs);
        RenamesOnceAccepted(m', rs[1..]);
        AllFreeAfterFirst(m, rs);
        if ApplyRenames(m', rs[1..]).Ok? {
          AtOnceAfterFirst(m, rs, ApplyRenames(m, rs).value);
        }
      }
    }
  }

  lemma FirstIsFree(m: map<string, string>, rs: seq<(string, string)>)
    requires rs != []
    ensures FreeInTurn(m, rs, 0) <==> rs[0].1 !in m - {rs[0].0}
  {
    if rs[0].0 == rs[0].1 { assert GivenUp(rs, 0, rs[0].1); }
  }

  lemma OnceAfterFirst(m: map<string, string>, rs: seq<(string, string)>)
    requires rs != [] && RenamesOnce(m, rs)
    ensures RenamesOnce((m - {rs[0].0})[rs[0].1 := m[rs[0].0]], rs[1..])
  {
    forall i | 0 <= i < |rs| - 1 ensures rs[1..][i].0 != rs[0].0 && rs[1..][i].0 in m {
      assert rs[1..][i] == rs[i + 1];
    }
  }

  lemma AllFreeAfterFirst(m: map<string, string>, rs: seq<(string, string)>)
    requires rs != [] && rs[0].0 in m && RenamesOnce(m, rs) && FreeInTurn(m, rs, 0)
    ensures AllFreeInTurn(m, rs) <==> AllFreeInTurn((m - {rs[0].0})[rs[0].1 := m[rs[0].0]], rs[1..])
  {
    hide FreeInTurn, RenamesOnce;
    var m' := (m - {rs[0].0})[rs[0].1 := m[rs[0].0]];
    forall i | 0 <= i < |rs| - 1 ensures FreeInTurn(m', rs[1..], i) <==> FreeInTurn(m, rs, i + 1) {
      FreeAfterFirst(m, rs, i);
    }
    if AllFreeInTurn(m', rs[1..]) {
      forall i | 0 <= i < |rs| ensures FreeInTurn(m, rs, i) {
        if i > 0 { assert FreeInTurn(m', rs[1..], i - 1); }
      }
    }
  }

  lemma AtOnceAfterFirst(m: map<string, string>, rs: seq<(string, string)>, r: map<string, string>)
    requires rs != [] && RenamesOnce(m, rs) && FreeInTurn(m, rs, 0)
    requires RenamesOnce((m - {rs[0].0})[rs[0].1 := m[rs[0].0]], rs[1..])
    requires RenamedAtOnce((m - {rs[0].0})[rs[0].1 := m[rs[0].0]], rs[1..], r)
    ensures RenamedAtOnce(m, rs, r)
  {
    var (o, n) := rs[0];
    var m', rest := (m - {o})[n := m[o]], rs[1..];
    FirstOfNames(rs);
    assert n !in Olds(rest) && o !in Olds(rest) by { FirstIsNew(m, rs); }
    assert n in m ==> n == o by { FirstIsFree(m, rs); }
    hide FreeInTurn, RenamesOnce, Olds, News;
    assert r.Keys == (m.Keys - Olds(rs)) + News(rs);
    forall i | 0 <= i < |rs| ensures r[rs[i].1] == m[rs[i].0] {
      if i > 0 {
        assert rest[i - 1] == rs[i];
        assert rest[i - 1].0 in Olds(rest) by { OldsAndNews(rest, i - 1); }
      }
    }
  }

  lemma FirstOfNames(rs: seq<(string, string)>)
    requires rs != []
    ensures Olds(rs) == {rs[0].0} + Olds(rs[1..]) && News(rs) == {rs[0].1} + News(rs[1..])
  {
    forall i | 0 < i < |rs| ensures rs[i] == rs[1..][i - 1] {}
  }

  lemma OldsAndNews(rs: seq<(string, string)>, i: nat)
    requires i < |rs|
    ensures rs[i].0 in Olds(rs) && rs[i].1 in News(rs)
  {
  }

  lemma FirstIsNew(m: map<string, string>, rs: seq<(string, string)>)
    requires rs != [] && RenamesOnce(m, rs) && FreeInTurn(m, rs, 0)
    ensures rs[0].1 !in Olds(rs[1..]) && rs[0].0 !in Olds(rs[1..])
  {
    forall i | 0 <= i < |rs[1..]| ensures rs[1..][i].0 != rs[0].1 && rs[1..][i].0 != rs[0].0 {
      assert rs[1..][i] == rs[i + 1];
    }
  }

  /** Two names cannot be swapped by a clause that renames no name twice, whatever else it renames. */
  lemma RenamesCannotSwap(m: map<string, string>, rs: seq<(string, string)>, i: nat, j: nat)
    requires RenamesOnce(m, rs) && i < |rs| && j < |rs|
    requires rs[i].0 == rs[j].1 && rs[i].1 == rs[j].0 && rs[i].0 != rs[i].1
    ensures ApplyRenames(m, rs) == Err(ConflictingImport)
  {
    RenamesOnceAccepted(m, rs);
    var first, second := if i < j then i else j, if i < j then j else i;
    assert !FreeInTurn(m, rs, first) by {
      forall k | 0 <= k <= first ensures rs[k].0 != rs[first].1 {
        assert rs[k].0 != rs[second].0;
      }
    }
  }

  /** A clause that renames one name twice can: it goes through a third name. */
  lemma RepeatedRenameSwaps(exports: set<string>, a: string, b: string, t: string, u: string)
    requires a in exports && b in exports && t in exports && u !in exports && a != b && a != t && b != t
    ensures ClauseMap(Rename([(t, u), (a, t), (b, a), (t, b)]), exports).Ok?
    ensures var r := ClauseMap(Rename([(t, u), (a, t), (b, a), (t, b)]), exports).value;
      && r.Keys == exports - {t} + {u} && r[a] == b && r[b] == a && r[u] == t
      && forall x :: x in exports && x !in {a, b, t} ==> r[x] == x
  {
    var m := Identity(exports);
    var rs := [(t, u), (a, t), (b, a), (t, b)];
    assert AllExported(OldNames(rs), exports);
    var m1 := (m - {t})[u := t];
    var m2 := (m1 - {a})[t := a];
    var m3 := (m2 - {b})[a := b];
    var m4 := (m3 - {t})[b := a];
    assert rs[1..][1..] == rs[2..] && rs[2..][1..] == rs[3..] && rs[3..][1..] == [];
    assert ApplyRenames(m3, rs[3..]) == Ok(m4);
    assert ApplyRenames(m2, rs[2..]) == Ok(m4);
    assert ApplyRenames(m1, rs[1..]) == Ok(m4);
    assert ApplyRenames(m, rs) == Ok(m4);
  }

  function Prefixed(prefix: string, m: map<string, string>): (r: map<string, string>)
    ensures r.Keys == set x | x in m :: prefix + x
    ensures forall x :: x in m ==> r[prefix + x] == m[x]
  {
    PrefixInjective(prefix);
    var keys := set x | x in m :: prefix + x;
    map y | y in keys :: m[y[|prefix|..]]
  }

  lemma PrefixInjective(prefix: string)
    ensures forall x: string :: (prefix + x)[|prefix|..] == x
  {
  }

  predicate AllExported(names: seq<string>, exports: set<string>) {
    forall i :: 0 <= i < |names| ==> names[i] in exports
  }

  function OldNames(renames: seq<(string, string)>): seq<string> {
    seq(|renames|, i requires 0 <= i < |renames| => renames[i].0)
  }

  /** Local name -> exported name, as one clause selects them from `exports`. */
  function ClauseMap(kind: ImportKind, exports: set<string>): (r: Result<map<string, string>, LinkError>)
    ensures r.Err? ==> r.error == NameNotExported || r.error == ConflictingImport
  {
    match kind
    case Plain => Ok(Identity(exports))
    case Only(ids) =>
      if AllExported(ids, exports) then Ok(Identity(set id | id in ids)) else Err(NameNotExported)
    case Except(ids) => Ok(Identity(exports - set id | id in ids))
    case Rename(renames) =>
      if AllExported(OldNames(renames), exports) then ApplyRenames(Identity(exports), renames)
      else Err(NameNotExported)
    case Prefix(prefix) => Ok(Prefixed(prefix, Identity(exports)))
  }

  /** Where the source's own import table already knows the name, provenance follows it. */
  function Canonical(source: string, remote: string, sourceOrigins: Origins): Origin {
    if remote in sourceOrigins then sourceOrigins[remote] else Origin(source, remote)
  }

  function Canonicalize(m: map<string, string>, source: string, sourceOrigins: Origins): Origins {
    map x | x in m :: Canonical(source, m[x], sourceOrigins)
  }

  /** What one clause contributes, given the linked import table of its source. */
  function Contribution(mods: Modules, spec: ImportSpec, sourceOrigins: Option<Origins>): Option<Origins> {
    if spec.source !in mods || sourceOrigins.None? then None
    else
      match ClauseMap(spec.kind, mods[spec.source].exports)
      case Ok(m) => Some(Canonicalize(m, spec.source, sourceOrigins.value))
      case Err(_) => None
  }

  // ---- All clauses of one module ----

  /** Declarative acceptance: no import hides a local define, and equal local names have equal origins. */
  ghost predicate Compatible(defined: set<string>, cs: seq<Origins>) {
    && (forall i, x :: 0 <= i < |cs| && x in cs[i] ==> x !in defined)
    && (forall i, j, x :: 0 <= i < |cs| && 0 <= j < |cs| && x in cs[i] && x in cs[j] ==> cs[i][x] == cs[j][x])
  }

  function Union(cs: seq<Origins>): Origins {
    if cs == [] then map[] else Union(cs[..|cs| - 1]) + cs[|cs| - 1]
  }

  lemma {:induction false} UnionKeys(cs: seq<Origins>, x: string)
    ensures x in Union(cs) <==> exists i :: 0 <= i < |cs| && x in cs[i]
    ensures x in Union(cs) ==> exists i :: 0 <= i < |cs| && x in cs[i] && Union(cs)[x] == cs[i][x]
  {
    if cs != [] {
      var shorter, last := cs[..|cs| - 1], cs[|cs| - 1];
      UnionKeys(shorter, x);
      assert forall i :: 0 <= i < |shorter| ==> shorter[i] == cs[i];
      if x in last {
        assert x in cs[|cs| - 1] && Union(cs)[x] == cs[|cs| - 1][x];
      } else if x in Union(shorter) {
        var i :| 0 <= i < |shorter| && x in shorter[i] && Union(shorter)[x] == shorter[i][x];
        assert x in cs[i] && Union(cs)[x] == cs[i][x];
      }
    }
  }

  /** For compatible contributions the union holds exactly their bindings, whatever their order. */
  lemma UnionIsEveryBinding(defined: set<string>, cs: seq<Origins>)
    requires Compatible(defined, cs)
    ensures forall i, x :: 0 <= i < |cs| && x in cs[i] ==> x in Union(cs) && Union(cs)[x] == cs[i][x]
    ensures forall x :: x in Union(cs) ==> x !in defined
  {
    forall i, x | 0 <= i < |cs| && x in cs[i] ensures x in Union(cs) && Union(cs)[x] == cs[i][x] {
      UnionKeys(cs, x);
    }
    forall x | x in Union(cs) ensures x !in defined {
      UnionKeys(cs, x);
    }
  }

  function AllSome(cs: seq<Option<Origins>>): Option<seq<Origins>> {
    if cs == [] then Some([])
    else
      match (AllSome(cs[..|cs| - 1]), cs[|cs| - 1])
      case (Some(xs), Some(x)) => Some(xs + [x])
      case _ => None
  }

  lemma {:induction false} AllSomeElements(cs: seq<Option<Origins>>)
    ensures AllSome(cs).Some? <==> forall i :: 0 <= i < |cs| ==> cs[i].Some?
    ensures AllSome(cs).Some? ==> |AllSome(cs).value| == |cs|
    ensures AllSome(cs).Some? ==> forall i :: 0 <= i < |cs| ==> cs[i] == Some(AllSome(cs).value[i])
  {
    if cs != [] {
      AllSomeElements(cs[..|cs| - 1]);
      assert cs == cs[..|cs| - 1] + [cs[|cs| - 1]];
    }
  }

  ghost function Combined(defined: set<string>, cs: seq<Option<Origins>>): Option<Origins> {
    match AllSome(cs)
    case None => None
    case Some(xs) => if Compatible(defined, xs) then Some(Union(xs)) else None
  }

  // ---- The whole program ----

  /**
   The import table of module `m`, by recursion over what it imports. `above` holds the modules
   whose tables are being computed: meeting one of them again is an import cycle.
   */
  ghost function OriginsOf(mods: Modules, g: Pending, m: string, above: set<string>): Option<Origins>
    decreases mods.Keys - above, 0
  {
    if m in above || m !in mods then None
    else Combined(mods[m].defined, Contributions(mods, g, m, above + {m}, |ImportsOf(g, m)|))
  }

  /** Contributions of the first `n` clauses of `m`. */
  ghost function Contributions(mods: Modules, g: Pending, m: string, above: set<string>, n: nat)
    : (r: seq<Option<Origins>>)
    requires n <= |ImportsOf(g, m)|
    ensures |r| == n
    decreases mods.Keys - above, n
  {
    if n == 0 then []
    else
      var spec := ImportsOf(g, m)[n - 1];
      Contributions(mods, g, m, above, n - 1)
        + [Contribution(mods, spec, OriginsOf(mods, g, spec.source, above))]
  }

  ghost predicate ExportsVisible(mods: Modules, g: Pending, m: string)
    requires m in mods && OriginsOf(mods, g, m, {}).Some?
  {
    mods[m].declared <= mods[m].defined + OriginsOf(mods, g, m, {}).value.Keys
  }

  /** The program links: every module has an import table and every declared export is visible. */
  ghost predicate Links(mods: Modules, g: Pending) {
    && (forall m :: m in mods ==> OriginsOf(mods, g, m, {}).Some?)
    && (forall m :: m in mods ==> ExportsVisible(mods, g, m))
  }

  function LinkedTable(t: ModuleTable, origins: Origins): ModuleTable {
    t.(origins := origins, visible := t.defined + origins.Keys, state := Linked)
  }

  /** The tables after a successful link. */
  ghost function LinkedModules(mods: Modules, g: Pending): Modules
    requires Links(mods, g)
  {
    map m | m in mods :: LinkedTable(mods[m], OriginsOf(mods, g, m, {}).value)
  }

  // ---- Facts about the specification ----

  lemma {:induction false} ContributionAt(mods: Modules, g: Pending, m: string, above: set<string>, n: nat, i: nat)
    requires i < n <= |ImportsOf(g, m)|
    ensures var spec := ImportsOf(g, m)[i];
      Contributions(mods, g, m, above, n)[i] == Contribution(mods, spec, OriginsOf(mods, g, spec.source, above))
  {
    if i < n - 1 {
      ContributionAt(mods, g, m, above, n - 1, i);
    }
  }

  /** The table of `m` from the final tables of its imports: the fixed-point equation of linking. */
  ghost function Direct(mods: Modules, g: Pending, m: string): seq<Option<Origins>> {
    seq(|ImportsOf(g, m)|, i requires 0 <= i < |ImportsOf(g, m)| =>
      Contribution(mods, ImportsOf(g, m)[i], OriginsOf(mods, g, ImportsOf(g, m)[i].source, {})))
  }

  /** No module of `above` comes at or before position `k` of the order. */
  ghost predicate Later(order: seq<string>, k: nat, above: set<string>) {
    forall i :: 0 <= i <= k && i < |order| ==> order[i] !in above
  }

  /** Along a dependencies-first order the modules above never matter. */
  lemma {:induction false} AboveIsIrrelevant(mods: Modules, g: Pending, order: seq<string>, k: nat, above: set<string>)
    requires NoDuplicates(order) && DependenciesFirst(g, order)
    requires k < |order| && Later(order, k, above)
    ensures OriginsOf(mods, g, order[k], above) == OriginsOf(mods, g, order[k], {})
    ensures order[k] in mods ==>
      OriginsOf(mods, g, order[k], {}) == Combined(mods[order[k]].defined, Direct(mods, g, order[k]))
    decreases k
  {
    var m := order[k];
    if m in mods {
      ImportsAgree(mods, g, order, k, above);
      ImportsAgree(mods, g, order, k, {});
    }
  }

  lemma {:induction false} ImportsAgree(mods: Modules, g: Pending, order: seq<string>, k: nat, above: set<string>)
    requires NoDuplicates(order) && DependenciesFirst(g, order)
    requires k < |order| && Later(order, k, above)
    ensures Contributions(mods, g, order[k], above + {order[k]}, |ImportsOf(g, order[k])|) == Direct(mods, g, order[k])
    decreases k, 0
  {
    var m := order[k];
    var n := |ImportsOf(g, m)|;
    var got := Contributions(mods, g, m, above + {m}, n);
    forall i | 0 <= i < n ensures got[i] == Direct(mods, g, m)[i] {
      var source := ImportsOf(g, m)[i].source;
      ContributionAt(mods, g, m, above + {m}, n, i);
      assert Edge(g, m, source);
      assert source in order[..k];
      var j :| 0 <= j < k && order[..k][j] == source;
      AboveIsIrrelevant(mods, g, order, j, above + {m});
    }
  }

  /** A walk that returns to a module above has no table: cycles make the specification fail. */
  lemma {:induction false} WalkToAboveFails(mods: Modules, g: Pending, p: seq<string>, above: set<string>)
    requires IsWalk(g, p) && p[|p| - 1] in above
    ensures OriginsOf(mods, g, p[0], above).None?
    decreases |p|
  {
    if p[0] !in above && p[0] in mods {
      var q := p[1..];
      forall i | 0 <= i < |q| - 1 ensures Edge(g, q[i], q[i + 1]) {
        assert Edge(g, p[i + 1], p[i + 2]);
      }
      WalkToAboveFails(mods, g, q, above + {p[0]});
      EdgeFails(mods, g, p[0], p[1], above);
    }
  }

  lemma EdgeFails(mods: Modules, g: Pending, a: string, b: string, above: set<string>)
    requires Edge(g, a, b) && a !in above && a in mods
    requires OriginsOf(mods, g, b, above + {a}).None?
    ensures OriginsOf(mods, g, a, above).None?
  {
    var n := |ImportsOf(g, a)|;
    var i :| 0 <= i < n && ImportsOf(g, a)[i].source == b;
    ContributionAt(mods, g, a, above + {a}, n, i);
    AllSomeElements(Contributions(mods, g, a, above + {a}, n));
  }

  /** A program with an import cycle through a module does not link. */
  lemma CyclesDoNotLink(mods: Modules, g: Pending, cycle: seq<string>)
    requires IsCycle(g, cycle) && cycle[0] in mods
    ensures !Links(mods, g)
  {
    var p := cycle[1..];
    forall i | 0 <= i < |p| - 1 ensures Edge(g, p[i], p[i + 1]) {
      assert Edge(g, cycle[i + 1], cycle[i + 2]);
    }
    WalkToAboveFails(mods, g, p, {cycle[0]});
    assert Edge(g, cycle[0], cycle[1]);
    assert {} + {cycle[0]} == {cycle[0]};
    EdgeFails(mods, g, cycle[0], cycle[1], {});
  }

  // ---- Canonical provenance ----

  /** A table that could be computed below `above` is the table of the module. */
  lemma {:induction false} FewerAbove(mods: Modules, g: Pending, m: string, above: set<string>, fewer: set<string>)
    requires fewer <= above && OriginsOf(mods, g, m, above).Some?
    ensures OriginsOf(mods, g, m, fewer) == OriginsOf(mods, g, m, above)
    decreases mods.Keys - above
  {
    var n := |ImportsOf(g, m)|;
    var all := Contributions(mods, g, m, above + {m}, n);
    var others := Contributions(mods, g, m, fewer + {m}, n);
    AllSomeElements(all);
    forall i | 0 <= i < n ensures all[i] == others[i] {
      ContributionAt(mods, g, m, above + {m}, n, i);
      ContributionAt(mods, g, m, fewer + {m}, n, i);
      assert all[i].Some?;
      FewerAbove(mods, g, ImportsOf(g, m)[i].source, above + {m}, fewer + {m});
    }
    assert all == others;
  }

  /** A module that links has the table built from the final tables of its imports. */
  lemma FixedPoint(mods: Modules, g: Pending, m: string)
    requires OriginsOf(mods, g, m, {}).Some?
    ensures OriginsOf(mods, g, m, {}) == Combined(mods[m].defined, Direct(mods, g, m))
  {
    var n := |ImportsOf(g, m)|;
    var all := Contributions(mods, g, m, {} + {m}, n);
    AllSomeElements(all);
    forall i | 0 <= i < n ensures all[i] == Direct(mods, g, m)[i] {
      ContributionAt(mods, g, m, {} + {m}, n, i);
      assert all[i].Some?;
      FewerAbove(mods, g, ImportsOf(g, m)[i].source, {} + {m}, {});
    }
    assert all == Direct(mods, g, m);
  }

  lemma {:induction false} RenamesKeepRemotes(m: map<string, string>, renames: seq<(string, string)>, exports: set<string>)
    requires m.Values <= exports
    requires ApplyRenames(m, renames).Ok?
    ensures ApplyRenames(m, renames).value.Values <= exports
    decreases |renames|
  {
    if renames != [] {
      var (old_, new_) := renames[0];
      var next := (m - {old_})[new_ := m[old_]];
      assert m[old_] in m.Values;
      forall v | v in next.Values ensures v in exports {
        var k :| k in next && next[k] == v;
        if k != new_ { assert m[k] in m.Values; }
      }
      RenamesKeepRemotes(next, renames[1..], exports);
    }
  }

  /** Whatever a clause selects, it selects exported names. */
  lemma ClauseSelectsExports(kind: ImportKind, exports: set<string>, local: string)
    requires ClauseMap(kind, exports).Ok? && local in ClauseMap(kind, exports).value
    ensures ClauseMap(kind, exports).value[local] in exports
  {
    var m := ClauseMap(kind, exports).value;
    if kind.Rename? {
      RenamesKeepRemotes(Identity(exports), kind.renames, exports);
      assert m[local] in m.Values;
    }
  }

  /** An origin names a definition: exported, not itself imported, and defined where source declares it. */
  ghost predicate IsDefinition(mods: Modules, g: Pending, o: Origin)
    requires Links(mods, g)
  {
    && o.fromModule in mods
    && o.remoteName in mods[o.fromModule].exports
    && o.remoteName !in OriginsOf(mods, g, o.fromModule, {}).value
    && (o.remoteName in mods[o.fromModule].declared ==> o.remoteName in mods[o.fromModule].defined)
  }

  /** Every origin recorded by a successful link is canonical. */
  lemma {:induction false} OriginsAreCanonical(mods: Modules, g: Pending, m: string, local: string, above: set<string>)
    requires Links(mods, g) && OriginsOf(mods, g, m, above).Some?
    requires local in OriginsOf(mods, g, m, above).value
    ensures IsDefinition(mods, g, OriginsOf(mods, g, m, above).value[local])
    decreases mods.Keys - above
  {
    var n := |ImportsOf(g, m)|;
    var all := Contributions(mods, g, m, above + {m}, n);
    AllSomeElements(all);
    var xs := AllSome(all).value;
    UnionKeys(xs, local);
    var i :| 0 <= i < n && local in xs[i] && Union(xs)[local] == xs[i][local];
    ContributionAt(mods, g, m, above + {m}, n, i);
    assert all[i] == Some(xs[i]);
    var spec := ImportsOf(g, m)[i];
    var selected := ClauseMap(spec.kind, mods[spec.source].exports).value;
    ClauseSelectsExports(spec.kind, mods[spec.source].exports, local);
    if selected[local] in OriginsOf(mods, g, spec.source, above + {m}).value {
      OriginsAreCanonical(mods, g, spec.source, selected[local], above + {m});
    } else {
      FewerAbove(mods, g, spec.source, above + {m}, {});
      assert ExportsVisible(mods, g, spec.source);
    }
  }

  /** The definition that clause `i` of `m` gives to `local`. */
  ghost function DefinitionOf(mods: Modules, g: Pending, m: string, i: nat, local: string): Option<Origin>
    requires i < |ImportsOf(g, m)|
  {
    match Direct(mods, g, m)[i]
    case Some(c) => if local in c then Some(c[local]) else None
    case None => None
  }

  /**
   When every clause is individually valid, the clauses of a module are accepted together exactly
   when no import hides a local define and any two import paths to one local name end at the same
   definition.
   */
  lemma AcceptedIffSameDefinitions(mods: Modules, g: Pending, order: seq<string>, m: string)
    requires NoDuplicates(order) && DependenciesFirst(g, order) && m in order && m in mods
    requires forall i :: 0 <= i < |ImportsOf(g, m)| ==> Direct(mods, g, m)[i].Some?
    ensures OriginsOf(mods, g, m, {}).Some? <==>
      && (forall i, x :: 0 <= i < |ImportsOf(g, m)| && DefinitionOf(mods, g, m, i, x).Some? ==> x !in mods[m].defined)
      && (forall i, j, x :: 0 <= i < |ImportsOf(g, m)| && 0 <= j < |ImportsOf(g, m)|
            && DefinitionOf(mods, g, m, i, x).Some? && DefinitionOf(mods, g, m, j, x).Some?
            ==> DefinitionOf(mods, g, m, i, x) == DefinitionOf(mods, g, m, j, x))
  {
    var k :| 0 <= k < |order| && order[k] == m;
    AboveIsIrrelevant(mods, g, order, k, {});
    var all := Direct(mods, g, m);
    AllSomeElements(all);
    var xs := AllSome(all).value;
    assert forall i, x :: 0 <= i < |xs| ==>
      DefinitionOf(mods, g, m, i, x) == if x in xs[i] then Some(xs[i][x]) else None;
    SameDefinitionsIsCompatible(mods, g, m, xs);
  }

  // ---- What a failure says ----

  /** The contribution of clause `i` hides a define, or gives a name another origin than an earlier clause. */
  ghost predicate Clashes(defined: set<string>, all: seq<Option<Origins>>, i: nat)
    requires i < |all|
  {
    all[i].Some? && exists x :: x in all[i].value && (x in defined || TakenBefore(all, i, x))
  }

  ghost predicate TakenBefore(all: seq<Option<Origins>>, i: nat, x: string)
    requires i < |all| && all[i].Some? && x in all[i].value
  {
    exists j :: 0 <= j < i && all[j].Some? && x in all[j].value && all[j].value[x] != all[i].value[x]
  }

  /** What is wrong with clause `i` of a module, given what its clauses contribute. */
  ghost predicate ClauseFault(mods: Modules, g: Pending, m: string, all: seq<Option<Origins>>, i: nat, e: LinkError)
    requires m in mods && i < |all| == |ImportsOf(g, m)|
  {
    var spec := ImportsOf(g, m)[i];
    match e
    case UnknownModule => spec.source !in mods
    case NameNotExported => spec.source in mods && ClauseMap(spec.kind, mods[spec.source].exports) == Err(e)
    case ConflictingImport =>
      && spec.source in mods
      && (ClauseMap(spec.kind, mods[spec.source].exports) == Err(e) || Clashes(mods[m].defined, all, i))
    case _ => false
  }

  ghost predicate SomeClauseFault(mods: Modules, g: Pending, m: string, all: seq<Option<Origins>>, e: LinkError)
    requires m in mods && |all| == |ImportsOf(g, m)|
  {
    exists i :: 0 <= i < |all| && ClauseFault(mods, g, m, all, i, e)
  }

  /** What is wrong with a program that linking rejects with this error. */
  ghost predicate LinkFault(mods: Modules, g: Pending, e: LinkError) {
    match e
    case CircularDependency(cycle) => IsCycle(g, cycle) && cycle[0] in mods
    case ExportOfUnknownName => exists m :: m in mods && OriginsOf(mods, g, m, {}).Some? && !ExportsVisible(mods, g, m)
    case DuplicateModule => false
    case _ => exists m :: m in mods && SomeClauseFault(mods, g, m, Direct(mods, g, m), e)
  }

  lemma SameDefinitionsIsCompatible(mods: Modules, g: Pending, m: string, xs: seq<Origins>)
    requires |xs| == |ImportsOf(g, m)| && m in mods
    requires forall i, x :: 0 <= i < |xs| ==>
      DefinitionOf(mods, g, m, i, x) == if x in xs[i] then Some(xs[i][x]) else None
    ensures Compatible(mods[m].defined, xs) <==>
      && (forall i, x :: 0 <= i < |xs| && DefinitionOf(mods, g, m, i, x).Some? ==> x !in mods[m].defined)
      && (forall i, j, x :: 0 <= i < |xs| && 0 <= j < |xs|
            && DefinitionOf(mods, g, m, i, x).Some? && DefinitionOf(mods, g, m, j, x).Some?
            ==> DefinitionOf(mods, g, m, i, x) == DefinitionOf(mods, g, m, j, x))
  {
    hide DefinitionOf;
  }
}
