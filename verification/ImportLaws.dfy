/**
 What import clauses bring in, by membership: which local name each kind of clause gives which
 exported name, lifted to the origins of linked modules; and the text of clauses.
 */
module ImportLaws {
  import opened Wrappers
  import opened SExprs
  import opened ImportGraph
  import opened LinkSpec
  import opened ModuleForms

  // ---- One clause ----

  /** Reading the renames backwards from the `i`-th, `local` stands for the exported name `remote`. */
  predicate StandsFor(exports: set<string>, rs: seq<(string, string)>, i: nat, local: string, remote: string)
    requires i <= |rs|
  {
    if i == 0 then local == remote && remote in exports
    else if rs[i - 1].1 == local then StandsFor(exports, rs, i - 1, rs[i - 1].0, remote)
    else rs[i - 1].0 != local && StandsFor(exports, rs, i - 1, local, remote)
  }

  /** The clause gives the local name the exported name. */
  predicate Brings(kind: ImportKind, exports: set<string>, local: string, remote: string) {
    match kind
    case Plain => local == remote && remote in exports
    case Only(ids) => local == remote && remote in ids
    case Except(ids) => local == remote && remote in exports && remote !in ids
    case Rename(rs) => StandsFor(exports, rs, |rs|, local, remote)
    case Prefix(prefix) => local == prefix + remote && remote in exports
  }

  /** The clause names only what is there, and no rename meets a name that is taken. */
  ghost predicate IsValid(kind: ImportKind, exports: set<string>) {
    match kind
    case Only(ids) => forall id :: id in ids ==> id in exports
    case Rename(rs) =>
      && (forall i :: 0 <= i < |rs| ==> rs[i].0 in exports)
      && (forall i :: 0 <= i < |rs| ==> InTurn(Identity(exports), rs, i))
    case _ => true
  }

  /** As `StandsFor`, from any map. */
  predicate TracedTo(m: map<string, string>, rs: seq<(string, string)>, i: nat, local: string, remote: string)
    requires i <= |rs|
  {
    if i == 0 then local in m && m[local] == remote
    else if rs[i - 1].1 == local then TracedTo(m, rs, i - 1, rs[i - 1].0, remote)
    else rs[i - 1].0 != local && TracedTo(m, rs, i - 1, local, remote)
  }

  lemma {:induction false} TracedAfterFirst(m: map<string, string>, rs: seq<(string, string)>, i: nat, local: string, remote: string)
    requires i < |rs| && rs[0].0 in m && rs[0].1 !in m - {rs[0].0}
    ensures TracedTo((m - {rs[0].0})[rs[0].1 := m[rs[0].0]], rs[1..], i, local, remote) <==> TracedTo(m, rs, i + 1, local, remote)
  {
    if i > 0 {
      assert rs[1..][i - 1] == rs[i];
      TracedAfterFirst(m, rs, i - 1, rs[i].0, remote);
      TracedAfterFirst(m, rs, i - 1, local, remote);
    }
  }

  lemma {:induction false} RenamedIsTraced(m: map<string, string>, rs: seq<(string, string)>, local: string, remote: string)
    requires ApplyRenames(m, rs).Ok?
    ensures local in ApplyRenames(m, rs).value && ApplyRenames(m, rs).value[local] == remote
      <==> TracedTo(m, rs, |rs|, local, remote)
    decreases |rs|
  {
    if rs != [] {
      var m' := (m - {rs[0].0})[rs[0].1 := m[rs[0].0]];
      assert ApplyRenames(m, rs) == ApplyRenames(m', rs[1..]);
      RenamedIsTraced(m', rs[1..], local, remote);
      TracedAfterFirst(m, rs, |rs| - 1, local, remote);
    }
  }

  lemma {:induction false} TracedStands(exports: set<string>, rs: seq<(string, string)>, i: nat, local: string, remote: string)
    requires i <= |rs|
    ensures TracedTo(Identity(exports), rs, i, local, remote) <==> StandsFor(exports, rs, i, local, remote)
  {
    if i > 0 {
      TracedStands(exports, rs, i - 1, rs[i - 1].0, remote);
      TracedStands(exports, rs, i - 1, local, remote);
    }
  }

  /** A clause is accepted exactly when it is valid, and its map holds exactly the pairs it brings. */
  lemma ClauseBrings(kind: ImportKind, exports: set<string>)
    ensures ClauseMap(kind, exports).Ok? <==> IsValid(kind, exports)
    ensures ClauseMap(kind, exports).Ok? ==> forall local, remote ::
      (local in ClauseMap(kind, exports).value && ClauseMap(kind, exports).value[local] == remote)
        <==> Brings(kind, exports, local, remote)
  {
    match kind
    case Only(ids) =>
      assert AllExported(ids, exports) <==> forall id :: id in ids ==> id in exports;
    case Rename(rs) =>
      OldsExported(rs, exports);
      RenamesInTurn(Identity(exports), rs);
      if ClauseMap(kind, exports).Ok? {
        RenamesBring(rs, exports, ClauseMap(kind, exports).value);
      }
    case Prefix(prefix) => PrefixBrings(prefix, exports);
    case _ =>
  }

  lemma OldsExported(rs: seq<(string, string)>, exports: set<string>)
    ensures AllExported(OldNames(rs), exports) <==> forall i :: 0 <= i < |rs| ==> rs[i].0 in exports
  {
    assert forall i :: 0 <= i < |rs| ==> OldNames(rs)[i] == rs[i].0;
  }

  lemma RenamesBring(rs: seq<(string, string)>, exports: set<string>, r: map<string, string>)
    requires ApplyRenames(Identity(exports), rs) == Ok(r)
    ensures forall local, remote :: (local in r && r[local] == remote) <==> Brings(Rename(rs), exports, local, remote)
  {
    forall local, remote ensures (local in r && r[local] == remote) <==> Brings(Rename(rs), exports, local, remote) {
      RenamedIsTraced(Identity(exports), rs, local, remote);
      TracedStands(exports, rs, |rs|, local, remote);
    }
  }

  lemma PrefixBrings(prefix: string, exports: set<string>)
    ensures forall local, remote ::
      (local in Prefixed(prefix, Identity(exports)) && Prefixed(prefix, Identity(exports))[local] == remote)
        <==> Brings(Prefix(prefix), exports, local, remote)
  {
    var m := Identity(exports);
    var r := Prefixed(prefix, m);
    forall local, remote | local in r && r[local] == remote ensures Brings(Prefix(prefix), exports, local, remote) {
      var x :| x in m && local == prefix + x;
      assert r[prefix + x] == m[x] == x;
    }
    forall local, remote | Brings(Prefix(prefix), exports, local, remote) ensures local in r && r[local] == remote {
      assert remote in m;
    }
  }

  /** The first rename that is out of turn: its old name stands for nothing, or its new name is taken. */
  ghost predicate FirstFault(m: map<string, string>, rs: seq<(string, string)>, i: nat, e: LinkError)
    requires i < |rs|
  {
    && !InTurn(m, rs, i) && (forall j :: 0 <= j < i ==> InTurn(m, rs, j))
    && e == if Bound(m, rs, i, rs[i].0) then ConflictingImport else NameNotExported
  }

  lemma {:induction false} RenameError(m: map<string, string>, rs: seq<(string, string)>) returns (i: nat)
    requires ApplyRenames(m, rs).Err?
    ensures i < |rs| && FirstFault(m, rs, i, ApplyRenames(m, rs).error)
    decreases |rs|
  {
    var (o, n) := rs[0];
    if o !in m || n in m - {o} {
      i := 0;
    } else {
      var m' := (m - {o})[n := m[o]];
      assert ApplyRenames(m, rs) == ApplyRenames(m', rs[1..]);
      var k := RenameError(m', rs[1..]);
      i := k + 1;
      forall j | 0 <= j <= k ensures InTurn(m', rs[1..], j) <==> InTurn(m, rs, j + 1) {
        BoundAfterFirst(m, rs, j, rs[j + 1].0);
        BoundAfterFirst(m, rs, j, rs[j + 1].1);
      }
      BoundAfterFirst(m, rs, k, rs[i].0);
      assert InTurn(m, rs, 0);
      forall j | 0 <= j < i ensures InTurn(m, rs, j) {
        if j > 0 { assert InTurn(m', rs[1..], j - 1); }
      }
    }
  }

  /** A refused clause names something that is not exported, or its renames meet a name that is taken. */
  lemma ClauseErrorTells(kind: ImportKind, exports: set<string>)
    requires ClauseMap(kind, exports).Err?
    ensures kind.Only? || kind.Rename?
    ensures kind.Only? ==> ClauseMap(kind, exports).error == NameNotExported && exists id :: id in kind.ids && id !in exports
    ensures kind.Rename? ==>
      if exists i :: 0 <= i < |kind.renames| && kind.renames[i].0 !in exports
      then ClauseMap(kind, exports).error == NameNotExported
      else exists i ::
        0 <= i < |kind.renames| && FirstFault(Identity(exports), kind.renames, i, ClauseMap(kind, exports).error)
  {
    if kind.Rename? {
      OldsExported(kind.renames, exports);
      if AllExported(OldNames(kind.renames), exports) {
        var i := RenameError(Identity(exports), kind.renames);
      }
    }
  }

  /** Over the same exported names, `only` and `except` share nothing and together bring everything. */
  lemma OnlyAndExceptSplit(ids: seq<string>, exports: set<string>)
    requires forall id :: id in ids ==> id in exports
    ensures ClauseMap(Only(ids), exports).Ok? && ClauseMap(Except(ids), exports).Ok?
    ensures ClauseMap(Only(ids), exports).value.Keys !! ClauseMap(Except(ids), exports).value.Keys
    ensures ClauseMap(Only(ids), exports).value.Keys + ClauseMap(Except(ids), exports).value.Keys == exports
  {
    ClauseBrings(Only(ids), exports);
    ClauseBrings(Except(ids), exports);
    var a, b := ClauseMap(Only(ids), exports).value, ClauseMap(Except(ids), exports).value;
    forall x ensures x in a.Keys <==> x in ids {
      if x in a { assert Brings(Only(ids), exports, x, a[x]); }
      if x in ids { assert Brings(Only(ids), exports, x, x); }
    }
    forall x ensures x in b.Keys <==> x in exports && x !in ids {
      if x in b { assert Brings(Except(ids), exports, x, b[x]); }
      if x in exports && x !in ids { assert Brings(Except(ids), exports, x, x); }
    }
  }

  // ---- A linked module ----

  ghost predicate Holds(c: Origins, local: string, o: Origin) {
    local in c && c[local] == o
  }

  /** Where a name that a module exports is defined: passed on if it was imported there, else there. */
  ghost function OriginAt(source: string, table: Origins, remote: string): Origin {
    if remote in table then table[remote] else Origin(source, remote)
  }

  ghost predicate BringsOrigin(kind: ImportKind, exports: set<string>, source: string, table: Origins, local: string, o: Origin) {
    exists remote :: Brings(kind, exports, local, remote) && o == OriginAt(source, table, remote)
  }

  /** Clause `i` of the module brings in `local`, and this is where the name is defined. */
  ghost predicate Imports(mods: Modules, g: Pending, m: string, i: nat, local: string, o: Origin)
    requires i < |ImportsOf(g, m)|
  {
    var spec := ImportsOf(g, m)[i];
    && spec.source in mods && OriginsOf(mods, g, spec.source, {}).Some?
    && BringsOrigin(spec.kind, mods[spec.source].exports, spec.source, OriginsOf(mods, g, spec.source, {}).value, local, o)
  }

  ghost predicate ImportedBySome(mods: Modules, g: Pending, m: string, local: string, o: Origin) {
    exists i :: 0 <= i < |ImportsOf(g, m)| && Imports(mods, g, m, i, local, o)
  }

  lemma ContributionBrings(mods: Modules, spec: ImportSpec, table: Origins, local: string, o: Origin)
    requires Contribution(mods, spec, Some(table)).Some?
    ensures spec.source in mods
    ensures Holds(Contribution(mods, spec, Some(table)).value, local, o)
      <==> BringsOrigin(spec.kind, mods[spec.source].exports, spec.source, table, local, o)
  {
    hide ClauseMap, Brings;
    var exports := mods[spec.source].exports;
    var c, m := Contribution(mods, spec, Some(table)).value, ClauseMap(spec.kind, exports).value;
    ClauseBrings(spec.kind, exports);
    if Holds(c, local, o) {
      assert Brings(spec.kind, exports, local, m[local]);
    }
    if BringsOrigin(spec.kind, exports, spec.source, table, local, o) {
      var remote :| Brings(spec.kind, exports, local, remote) && o == OriginAt(spec.source, table, remote);
      assert local in m && m[local] == remote;
    }
  }

  lemma UnionHolds(defined: set<string>, xs: seq<Origins>, local: string, o: Origin)
    requires Compatible(defined, xs)
    ensures Holds(Union(xs), local, o) <==> exists i :: 0 <= i < |xs| && Holds(xs[i], local, o)
  {
    UnionIsEveryBinding(defined, xs);
    UnionKeys(xs, local);
    hide Compatible, Union;
    if Holds(Union(xs), local, o) {
      var i :| 0 <= i < |xs| && local in xs[i] && Union(xs)[local] == xs[i][local];
      assert Holds(xs[i], local, o);
    }
  }

  lemma TableIsUnion(mods: Modules, g: Pending, m: string) returns (xs: seq<Origins>)
    requires OriginsOf(mods, g, m, {}).Some?
    ensures m in mods && Compatible(mods[m].defined, xs) && OriginsOf(mods, g, m, {}).value == Union(xs)
    ensures |xs| == |ImportsOf(g, m)| && forall i :: 0 <= i < |xs| ==> Direct(mods, g, m)[i] == Some(xs[i])
  {
    FixedPoint(mods, g, m);
    AllSomeElements(Direct(mods, g, m));
    xs := AllSome(Direct(mods, g, m)).value;
  }

  /** The import table of a linked module holds exactly what its clauses bring in. */
  lemma TableHoldsImports(mods: Modules, g: Pending, m: string, local: string, o: Origin)
    requires OriginsOf(mods, g, m, {}).Some?
    ensures Holds(OriginsOf(mods, g, m, {}).value, local, o) <==> ImportedBySome(mods, g, m, local, o)
  {
    hide *;
    var xs := TableIsUnion(mods, g, m);
    UnionHolds(mods[m].defined, xs, local, o);
    forall i | 0 <= i < |xs| ensures Holds(xs[i], local, o) <==> Imports(mods, g, m, i, local, o) {
      ClauseImports(mods, g, m, i, xs[i], local, o);
    }
    SomeImports(mods, g, m, xs, local, o);
  }

  lemma SomeImports(mods: Modules, g: Pending, m: string, xs: seq<Origins>, local: string, o: Origin)
    requires |xs| == |ImportsOf(g, m)|
    requires forall i :: 0 <= i < |xs| ==> (Holds(xs[i], local, o) <==> Imports(mods, g, m, i, local, o))
    ensures (exists i :: 0 <= i < |xs| && Holds(xs[i], local, o)) <==> ImportedBySome(mods, g, m, local, o)
  {
    hide Holds, Imports, ImportsOf;
  }

  lemma ClauseImports(mods: Modules, g: Pending, m: string, i: nat, x: Origins, local: string, o: Origin)
    requires i < |ImportsOf(g, m)| && Direct(mods, g, m)[i] == Some(x)
    ensures Holds(x, local, o) <==> Imports(mods, g, m, i, local, o)
  {
    hide Brings, OriginsOf, BringsOrigin, Holds;
    var spec := ImportsOf(g, m)[i];
    var table := OriginsOf(mods, g, spec.source, {});
    assert Contribution(mods, spec, table) == Some(x);
    SourceHasTable(mods, spec, table);
    ContributionBrings(mods, spec, table.value, local, o);
  }

  lemma SourceHasTable(mods: Modules, spec: ImportSpec, table: Option<Origins>)
    requires Contribution(mods, spec, table).Some?
    ensures table.Some?
  {
  }

  // ---- The text of a module ----

  function SymbolsOf(names: seq<string>): seq<SExpr> {
    if names == [] then [] else [Sym(names[0])] + SymbolsOf(names[1..])
  }

  function PairsOf(renames: seq<(string, string)>): seq<SExpr> {
    if renames == [] then [] else [Proper([Sym(renames[0].0), Sym(renames[0].1)])] + PairsOf(renames[1..])
  }

  /** An import clause as it is written. */
  function ClauseText(spec: ImportSpec): SExpr {
    match spec.kind
    case Plain => Sym(spec.source)
    case Only(ids) => Proper([Sym("only"), Sym(spec.source)] + SymbolsOf(ids))
    case Except(ids) => Proper([Sym("except"), Sym(spec.source)] + SymbolsOf(ids))
    case Rename(renames) => Proper([Sym("rename"), Sym(spec.source)] + PairsOf(renames))
    case Prefix(prefix) => Proper([Sym("prefix"), Sym(spec.source), Sym(prefix)])
  }

  lemma {:induction false} SymbolsReadBack(names: seq<string>)
    ensures SymbolNames(SymbolsOf(names)) == names
  {
    if names != [] {
      SymbolsReadBack(names[1..]);
    }
  }

  lemma {:induction false} PairsReadBack(renames: seq<(string, string)>)
    ensures RenamePairs(PairsOf(renames)) == renames
  {
    if renames != [] {
      PairsReadBack(renames[1..]);
    }
  }

  /** Every clause reads back as it was written: the kind, the names, and which of two names is old. */
  lemma ClauseReadsBack(spec: ImportSpec)
    ensures ParseImportClause(ClauseText(spec)) == Ok(spec)
  {
    hide SymbolNames, RenamePairs;
    match spec.kind
    case Only(ids) =>
      SymbolsReadBack(ids);
      assert ClauseText(spec).elems[2..] == SymbolsOf(ids);
    case Except(ids) =>
      SymbolsReadBack(ids);
      assert ClauseText(spec).elems[2..] == SymbolsOf(ids);
    case Rename(renames) =>
      PairsReadBack(renames);
      assert ClauseText(spec).elems[2..] == PairsOf(renames);
    case _ =>
  }

  /** A form that some clause reads: a name, `(name)`, or a headed list with its source in place. */
  predicate IsClause(c: SExpr) {
    match c
    case Sym(_) => true
    case List(elems, _) =>
      && elems != [] && elems[0].Sym?
      && if elems[0].name in {"only", "except", "rename"} then |elems| > 1 && elems[1].Sym?
         else if elems[0].name == "prefix" then |elems| == 3 && elems[1].Sym? && elems[2].Sym?
         else |elems| == 1
    case _ => false
  }

  lemma ClausesAreRead(c: SExpr)
    ensures ParseImportClause(c).Ok? <==> IsClause(c)
  {
  }

  /** A module's name alone in a list imports it whole. */
  lemma ListedName(name: string)
    requires name !in {"only", "except", "rename", "prefix"}
    ensures ParseImportClause(Proper([Sym(name)])) == Ok(ImportSpec(name, Plain))
  {
  }

  /** Among the names only symbols count, and among the renames only lists of two symbols. */
  lemma {:induction false} OthersAreSkipped(a: seq<SExpr>, x: SExpr, b: seq<SExpr>)
    ensures !x.Sym? ==> SymbolNames(a + [x] + b) == SymbolNames(a + b)
    ensures !(x.List? && |x.elems| == 2 && x.elems[0].Sym? && x.elems[1].Sym?) ==>
      RenamePairs(a + [x] + b) == RenamePairs(a + b)
  {
    if a == [] {
      assert a + [x] + b == [x] + b && a + b == b;
    } else {
      assert (a + [x] + b)[1..] == a[1..] + [x] + b && (a + b)[1..] == a[1..] + b;
      OthersAreSkipped(a[1..], x, b);
    }
  }

  function ClauseTexts(specs: seq<ImportSpec>): (xs: seq<SExpr>)
    ensures |xs| == |specs|
  {
    seq(|specs|, i requires 0 <= i < |specs| => ClauseText(specs[i]))
  }

  lemma {:induction false} ClausesReadBack(specs: seq<ImportSpec>)
    ensures ParseClauses(ClauseTexts(specs)) == Ok(specs)
  {
    hide ParseImportClause, ClauseText;
    if specs != [] {
      var before, last := specs[..|specs| - 1], specs[|specs| - 1];
      ClausesReadBack(before);
      ClauseReadsBack(last);
      assert ClauseTexts(specs)[..|specs| - 1] == ClauseTexts(before);
      assert before + [last] == specs;
    }
  }

  /** What a module body may hold; a procedure is not defined by `(define (f ...) ...)` here. */
  datatype Item =
    | Export(names: seq<string>)
    | Import(specs: seq<ImportSpec>)
    | Definition(name: string, init: seq<SExpr>)
    | Expression(form: SExpr)

  function ItemText(item: Item): SExpr {
    match item
    case Export(names) => Proper([Sym("export")] + SymbolsOf(names))
    case Import(specs) => Proper([Sym("import")] + ClauseTexts(specs))
    case Definition(name, init) => Proper([Sym("define"), Sym(name)] + init)
    case Expression(form) => form
  }

  /** A definition has an init, and an expression is none of the three forms. */
  predicate IsItem(item: Item) {
    match item
    case Definition(_, init) => init != []
    case Expression(form) => !HasHead(form, "define") && !HasHead(form, "export") && !HasHead(form, "import")
    case _ => true
  }

  function ItemTexts(items: seq<Item>): (xs: seq<SExpr>)
    ensures |xs| == |items|
  {
    seq(|items|, i requires 0 <= i < |items| => ItemText(items[i]))
  }

  function SpecsOf(items: seq<Item>): seq<ImportSpec> {
    if items == [] then []
    else
      var last := items[|items| - 1];
      SpecsOf(items[..|items| - 1]) + (if last.Import? then last.specs else [])
  }

  lemma ItemMeans(item: Item)
    requires IsItem(item)
    ensures FormClauses(ItemText(item)) == Ok(if item.Import? then item.specs else [])
    ensures forall s :: DefinesName(ItemText(item), s) <==> item.Definition? && s == item.name
    ensures forall s :: ExportsName(ItemText(item), s) <==> item.Export? && s in item.names
  {
    match item
    case Export(names) =>
      assert ItemText(item).elems[1..] == SymbolsOf(names);
      forall s ensures Sym(s) in SymbolsOf(names) <==> s in names { SymbolIn(names, s); }
    case Import(specs) =>
      assert ItemText(item).elems[1..] == ClauseTexts(specs);
      ClausesReadBack(specs);
    case _ =>
  }

  lemma {:induction false} SymbolIn(names: seq<string>, s: string)
    ensures Sym(s) in SymbolsOf(names) <==> s in names
  {
    if names != [] {
      SymbolIn(names[1..], s);
    }
  }

  lemma {:induction false} SpecsReadBack(items: seq<Item>)
    requires forall i :: 0 <= i < |items| ==> IsItem(items[i])
    ensures ImportClauses(ItemTexts(items)) == Ok(SpecsOf(items))
  {
    hide FormClauses, ItemText, IsItem;
    if items != [] {
      var before := items[..|items| - 1];
      SpecsReadBack(before);
      ItemMeans(items[|items| - 1]);
      assert ItemTexts(items)[..|items| - 1] == ItemTexts(before);
    }
  }

  ghost predicate SomeDefines(items: seq<Item>, s: string) {
    exists i :: 0 <= i < |items| && items[i].Definition? && items[i].name == s
  }

  ghost predicate SomeExports(items: seq<Item>, s: string) {
    exists i :: 0 <= i < |items| && items[i].Export? && s in items[i].names
  }

  lemma NamesOfItems(items: seq<Item>, s: string)
    requires forall i :: 0 <= i < |items| ==> IsItem(items[i])
    ensures (exists i :: 0 <= i < |items| && DefinesName(ItemTexts(items)[i], s)) <==> SomeDefines(items, s)
    ensures (exists i :: 0 <= i < |items| && ExportsName(ItemTexts(items)[i], s)) <==> SomeExports(items, s)
  {
    hide ItemText, IsItem, DefinesName, ExportsName;
    forall i | 0 <= i < |items|
      ensures DefinesName(ItemTexts(items)[i], s) <==> items[i].Definition? && s == items[i].name
      ensures ExportsName(ItemTexts(items)[i], s) <==> items[i].Export? && s in items[i].names
    {
      ItemMeans(items[i]);
    }
  }

  /** A module body reads back: its import clauses in order, and exactly the names it defines and exports. */
  lemma BodyReadsBack(items: seq<Item>, t: ModuleTable)
    requires forall i :: 0 <= i < |items| ==> IsItem(items[i])
    ensures ImportClauses(ItemTexts(items)) == Ok(SpecsOf(items))
    ensures Describes(t, ItemTexts(items)) ==> forall s :: s in t.defined <==> SomeDefines(items, s)
    ensures Describes(t, ItemTexts(items)) ==> forall s :: s in t.exports <==> SomeExports(items, s)
  {
    hide IsItem, DefinesName, ExportsName, SomeDefines, SomeExports;
    SpecsReadBack(items);
    if Describes(t, ItemTexts(items)) {
      forall s ensures s in t.defined <==> SomeDefines(items, s) {
        NamesOfItems(items, s);
      }
      forall s ensures s in t.exports <==> SomeExports(items, s) {
        NamesOfItems(items, s);
      }
    }
  }
}
