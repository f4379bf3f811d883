/**
 The module linker (eta/core/src/eta/reader/module_linker.cpp). Hash maps and sets are
 iterated in an arbitrary order, chosen afresh at every step.
 */
module ModuleLinker {
  import opened Wrappers
  import opened SExprs
  import opened ImportGraph
  import opened LinkSpec
  import opened ModuleForms

  class ModuleLinker {
    var modules: Modules
    var pending: Pending

    /** The state between indexing and linking. */
    ghost predicate Indexed()
      reads this
    {
      && pending.Keys <= modules.Keys
      && forall m :: m in modules ==> FreshTable(m, modules[m])
    }

    constructor ()
      ensures Indexed() && modules == map[] && pending == map[]
    {
      modules, pending := map[], map[];
    }

    /** Indexes the module forms of a program, replacing whatever was indexed before. */
    method IndexModules(forms: seq<SExpr>) returns (r: Result<(), LinkError>)
      modifies this
      ensures r.Ok? <==> Indexable(forms)
      ensures r.Ok? ==> Indexed() && Indexes(forms)
      ensures r.Err? ==> IndexFault(forms, r.error)
    {
      modules, pending := map[], map[];
      var i := 0;
      while i < |forms|
        invariant 0 <= i <= |forms|
        invariant Indexable(forms[..i])
        invariant Indexed() && Indexes(forms[..i])
      {
        hide Indexable, Indexes, Indexed, IndexFault;
        assert forms[..i + 1] == forms[..i] + [forms[i]];
        if IsModuleForm(forms[i]) {
          r := IndexOne(forms[i], forms[..i]);
          if r.Err? {
            NotIndexable(forms, i);
            FaultOfPrefix(forms, i + 1, r.error);
            return;
          }
        } else {
          OtherFormsAreIgnored(forms[..i], forms[i]);
        }
        i := i + 1;
      }
      assert forms[..i] == forms;
      r := Ok(());
    }

    lemma OtherFormsAreIgnored(done: seq<SExpr>, f: SExpr)
      requires Indexable(done) && Indexes(done) && !IsModuleForm(f)
      ensures Indexable(done + [f]) && Indexes(done + [f])
    {
      var both := done + [f];
      assert forall i :: 0 <= i < |both| ==> both[i] == if i < |done| then done[i] else f;
      forall m | m in modules ensures exists i :: 0 <= i < |both| && IsModuleForm(both[i]) && both[i].elems[1] == Sym(m) {
        var i :| 0 <= i < |done| && IsModuleForm(done[i]) && done[i].elems[1] == Sym(m);
        assert both[i] == done[i];
      }
    }

    /** The tables are those of the given forms and of nothing else. */
    ghost predicate Indexes(forms: seq<SExpr>)
      reads this
    {
      && (forall i :: 0 <= i < |forms| && IsModuleForm(forms[i]) ==> IndexesForm(forms[i]))
      && (forall m :: m in modules ==> exists i :: 0 <= i < |forms| && IsModuleForm(forms[i]) && forms[i].elems[1] == Sym(m))
    }

    ghost predicate IndexesForm(f: SExpr)
      requires IsModuleForm(f)
      reads this
    {
      TableOf(modules, pending, f)
    }

    method IndexOne(f: SExpr, ghost done: seq<SExpr>) returns (r: Result<(), LinkError>)
      requires IsModuleForm(f) && Indexable(done) && Indexed() && Indexes(done)
      modifies this
      ensures r.Ok? <==> Indexable(done + [f])
      ensures r.Ok? ==> Indexed() && Indexes(done + [f])
      ensures r.Err? ==> IndexFault(done + [f], r.error)
    {
      hide Describes, Indexable, FormClauses, ImportClauses;
      OneMoreForm(done, f);
      assert (done + [f])[|done|] == f;
      if !f.elems[1].Sym? {
        return Err(UnknownModule);
      }
      var name := f.elems[1].name;
      if name in modules {
        SameNameTwice(done, f);
        return Err(DuplicateModule);
      }
      ghost var pending0 := pending;
      var t;
      r, t := ScanModuleBody(name, f.elems[2..]);
      if r.Ok? {
        AddTable(name, t, f, done, pending0);
      }
    }

    method AddTable(name: string, t: ModuleTable, ghost f: SExpr, ghost done: seq<SExpr>, ghost pending0: Pending)
      requires IsModuleForm(f) && f.elems[1] == Sym(name) && name !in modules
      requires Describes(t, f.elems[2..]) && FreshTable(name, t)
      requires ImportClauses(f.elems[2..]) == Ok(ImportsOf(pending, name))
      requires forall m :: m != name ==> ImportsOf(pending, m) == ImportsOf(pending0, m)
      requires forall i :: 0 <= i < |done| && IsModuleForm(done[i]) ==>
        TableOf(modules, pending0, done[i])
      requires forall m :: m in modules ==> FreshTable(m, modules[m])
      requires forall m :: m in modules ==> exists i :: 0 <= i < |done| && IsModuleForm(done[i]) && done[i].elems[1] == Sym(m)
      requires pending.Keys <= modules.Keys + {name}
      modifies this`modules
      ensures Indexed() && Indexes(done + [f])
    {
      hide Describes, FreshTable, ImportsOf, ImportClauses;
      modules := modules[name := t];
      IndexesOneMore(done, f);
    }

    lemma SameNameTwice(done: seq<SExpr>, f: SExpr)
      requires IsModuleForm(f) && f.elems[1].Sym? && f.elems[1].name in modules && Indexes(done)
      ensures IndexFault(done + [f], DuplicateModule)
    {
      hide IndexesForm;
      var both := done + [f];
      var i :| 0 <= i < |done| && IsModuleForm(done[i]) && done[i].elems[1] == Sym(f.elems[1].name);
      assert SameModule(both[i], both[|done|]);
    }

    lemma OneMoreForm(done: seq<SExpr>, f: SExpr)
      requires IsModuleForm(f) && Indexable(done) && Indexes(done)
      ensures Indexable(done + [f]) <==>
        f.elems[1].Sym? && f.elems[1].name !in modules && ImportClauses(f.elems[2..]).Ok?
    {
      hide Describes, ImportClauses, ImportsOf;
      var both := done + [f];
      assert both[|done|] == f && forall i :: 0 <= i < |done| ==> both[i] == done[i];
      if f.elems[1].Sym? && f.elems[1].name in modules {
        var i :| 0 <= i < |done| && IsModuleForm(done[i]) && done[i].elems[1] == Sym(f.elems[1].name);
        assert both[i] == done[i];
      } else if f.elems[1].Sym? {
        forall i | 0 <= i < |done| && IsModuleForm(done[i]) ensures done[i].elems[1] != f.elems[1] {
          assert IndexesForm(done[i]);
        }
      }
    }

    lemma IndexesOneMore(done: seq<SExpr>, f: SExpr)
      requires IsModuleForm(f) && IndexesForm(f)
      requires forall i :: 0 <= i < |done| && IsModuleForm(done[i]) ==> IndexesForm(done[i])
      requires forall m :: m in modules && Sym(m) != f.elems[1] ==>
        exists i :: 0 <= i < |done| && IsModuleForm(done[i]) && done[i].elems[1] == Sym(m)
      ensures Indexes(done + [f])
    {
      hide IndexesForm;
      var both := done + [f];
      assert both[|done|] == f && forall i :: 0 <= i < |done| ==> both[i] == done[i];
      forall m | m in modules ensures exists i :: 0 <= i < |both| && IsModuleForm(both[i]) && both[i].elems[1] == Sym(m) {
        if Sym(m) != f.elems[1] {
          var i :| 0 <= i < |done| && IsModuleForm(done[i]) && done[i].elems[1] == Sym(m);
          assert both[i] == done[i];
        }
      }
    }

    /** Scans a module body form by form; import clauses go to `pending` under the module's name. */
    method ScanModuleBody(name: string, body: seq<SExpr>) returns (r: Result<(), LinkError>, t: ModuleTable)
      requires name !in pending
      modifies this`pending
      ensures r.Ok? <==> ImportClauses(body).Ok?
      ensures r.Ok? ==> Describes(t, body) && FreshTable(name, t)
      ensures r.Ok? ==> ImportClauses(body) == Ok(ImportsOf(pending, name))
      ensures r.Err? ==> r.error == UnknownModule
      ensures old(pending.Keys) <= pending.Keys <= old(pending.Keys) + {name}
      ensures forall m :: m != name ==> ImportsOf(pending, m) == ImportsOf(old(pending), m)
    {
      hide Describes, DefinesName, ExportsName, FormClauses;
      EmptyIsDescribed(name);
      t := ModuleTable(name, {}, {}, {}, {}, map[], LinkSpec.Indexed);
      r := Ok(());
      var i := 0;
      while i < |body|
        invariant 0 <= i <= |body| && r.Ok?
        invariant Describes(t, body[..i]) && FreshTable(name, t)
        invariant ImportClauses(body[..i]) == Ok(ImportsOf(pending, name))
        invariant old(pending.Keys) <= pending.Keys <= old(pending.Keys) + {name}
        invariant forall m :: m != name ==> ImportsOf(pending, m) == ImportsOf(old(pending), m)
      {
        ghost var t0 := t;
        assert body[..i + 1][..i] == body[..i] && body[..i + 1] == body[..i] + [body[i]];
        r, t := ScanForm(name, body[i], t);
        if r.Err? {
          BadFormSpoilsBody(body, i + 1);
          return;
        }
        DescribesStep(t0, t, body[..i], body[i]);
        i := i + 1;
      }
      assert body[..i] == body;
    }

    method ScanForm(name: string, f: SExpr, t0: ModuleTable) returns (r: Result<(), LinkError>, t: ModuleTable)
      modifies this`pending
      ensures r.Ok? <==> FormClauses(f).Ok?
      ensures r.Ok? ==> ImportsOf(pending, name) == ImportsOf(old(pending), name) + FormClauses(f).value
      ensures r.Err? ==> r.error == UnknownModule
      ensures t == t0.(defined := t.defined, exports := t.exports, declared := t.declared)
      ensures t0.declared == t0.exports ==> t.declared == t.exports
      ensures forall s :: s in t.defined <==> s in t0.defined || DefinesName(f, s)
      ensures forall s :: s in t.exports <==> s in t0.exports || ExportsName(f, s)
      ensures old(pending.Keys) <= pending.Keys <= old(pending.Keys) + {name}
      ensures forall m :: m != name ==> ImportsOf(pending, m) == ImportsOf(old(pending), m)
    {
      hide ParseClauses;
      t := t0;
      if HasHead(f, "define") {
        if |f.elems| >= 3 && f.elems[1].Sym? {
          t := t.(defined := t.defined + {f.elems[1].name});
        }
      } else if HasHead(f, "export") {
        var names := SymbolNames(f.elems[1..]);
        var added := set s | s in names;
        t := t.(exports := t.exports + added, declared := t.declared + added);
      } else if HasHead(f, "import") {
        r := ParseImportForm(name, f);
        return;
      }
      r := Ok(());
    }

    method ParseImportForm(name: string, f: SExpr) returns (r: Result<(), LinkError>)
      requires f.List? && |f.elems| >= 1
      modifies this`pending
      ensures r.Ok? <==> ParseClauses(f.elems[1..]).Ok?
      ensures r.Ok? ==> ImportsOf(pending, name) == ImportsOf(old(pending), name) + ParseClauses(f.elems[1..]).value
      ensures r.Err? ==> r.error == UnknownModule
      ensures old(pending.Keys) <= pending.Keys <= old(pending.Keys) + {name}
      ensures forall m :: m != name ==> ImportsOf(pending, m) == ImportsOf(old(pending), m)
    {
      hide ParseImportClause;
      var cs := f.elems[1..];
      var i := 0;
      while i < |cs|
        invariant 0 <= i <= |cs|
        invariant ParseClauses(cs[..i]).Ok?
        invariant ImportsOf(pending, name) == ImportsOf(old(pending), name) + ParseClauses(cs[..i]).value
        invariant old(pending.Keys) <= pending.Keys <= old(pending.Keys) + {name}
        invariant forall m :: m != name ==> ImportsOf(pending, m) == ImportsOf(old(pending), m)
      {
        assert cs[..i + 1][..i] == cs[..i] && cs[..i + 1][i] == cs[i];
        var spec := ParseImportClause(cs[i]);
        if spec.Err? {
          BadClauseSpoilsForm(cs, i + 1);
          return Err(spec.error);
        }
        pending := pending[name := ImportsOf(pending, name) + [spec.value]];
        i := i + 1;
      }
      assert cs[..i] == cs;
      r := Ok(());
    }

    /** A compiled provider brings only its non-empty export names. */
    method IndexCompiledModuleExports(name: string, exports: seq<string>) returns (r: Result<(), LinkError>)
      requires Indexed()
      modifies this`modules
      ensures Indexed()
      ensures r.Ok? <==> name !in old(modules)
      ensures r.Err? ==> modules == old(modules)
      ensures r.Ok? ==> modules == old(modules)[name := ModuleTable(
        name, {}, set s | s in exports && s != "", {}, {}, map[], LinkSpec.Indexed)]
    {
      if name in modules {
        return Err(DuplicateModule);
      }
      var names: set<string> := {};
      var i := 0;
      while i < |exports|
        invariant 0 <= i <= |exports|
        invariant names == set s | s in exports[..i] && s != ""
      {
        assert exports[..i + 1] == exports[..i] + [exports[i]];
        if exports[i] != "" {
          names := names + {exports[i]};
        }
        i := i + 1;
      }
      assert exports[..i] == exports;
      modules := modules[name := ModuleTable(name, {}, names, {}, {}, map[], LinkSpec.Indexed)];
      r := Ok(());
    }

    /**
     Links every module, in dependency order. The outcome and the final tables are those of the
     specification, so they do not depend on the iteration order.
     */
    method Link() returns (r: Result<(), LinkError>)
      requires Indexed()
      modifies this`modules
      ensures r.Ok? <==> Links(old(modules), pending)
      ensures r.Ok? ==> modules == LinkedModules(old(modules), pending)
      ensures r.Err? && r.error.CircularDependency? ==> IsCycle(pending, r.error.cycle)
      ensures r.Ok? || !r.error.CircularDependency? ==> Acyclic(pending)
      ensures r.Err? ==> LinkFault(old(modules), pending, r.error)
    {
      hide Links, LinkedModules, IsCycle, Acyclic, NoDuplicates, DependenciesFirst, AllExportsVisible, LinkedUpTo, FreshTable,
        SomeClauseFault, OriginsOf, ExportsVisible;
      ghost var mods0 := modules;
      var found, order := FindOrder();
      if found.Some? {
        CyclesDoNotLink(mods0, pending, found.value);
        return Err(CircularDependency(found.value));
      }
      OrderedIsAcyclic(mods0, pending, order);
      r := LinkInOrder(order);
      if r.Ok? {
        AllLinked(mods0, pending, order, modules);
        r := ValidateExports();
        if r.Err? {
          HiddenExport(mods0, pending, order, modules);
        }
      }
    }

    /** Links the modules of a dependencies-first order; names of unknown modules are passed over. */
    method LinkInOrder(order: seq<string>) returns (r: Result<(), LinkError>)
      requires NoDuplicates(order) && DependenciesFirst(pending, order)
      requires forall m :: m in modules ==> FreshTable(m, modules[m])
      modifies this`modules
      ensures r.Err? ==> !Links(old(modules), pending) && !r.error.CircularDependency?
      ensures r.Err? ==> LinkFault(old(modules), pending, r.error)
      ensures r.Ok? ==> modules.Keys == old(modules.Keys) && LinkedUpTo(old(modules), pending, order, |order|, modules)
    {
      hide LinkedUpTo, Links, NoDuplicates, DependenciesFirst, OriginsOf, Combined, Available, Edge, LinkedTable, IsLinked,
        SomeClauseFault, LinkFault;
      ghost var mods0 := modules;
      NothingLinked(mods0, pending, order);
      r := Ok(());
      var i := 0;
      while i < |order|
        invariant 0 <= i <= |order| && r.Ok?
        invariant modules.Keys == mods0.Keys
        invariant LinkedUpTo(mods0, pending, order, i, modules)
      {
        var target := order[i];
        ghost var mods := modules;
        NextIsUntouched(mods0, pending, order, i, modules);
        if target in modules {
          r := LinkTarget(target);
          if r.Err? {
            Unlinkable(mods0, pending, target);
            FaultFromStart(mods0, pending, order, i, mods, r.error);
            return;
          }
          NowLinked(mods0, pending, target, modules);
        }
        LinkedStep(mods0, pending, order, i, mods, modules);
        i := i + 1;
      }
    }

    /** Runs the cycle detector over all modules, in any order. */
    method FindOrder() returns (cycle: Option<seq<string>>, order: seq<string>)
      requires pending.Keys <= modules.Keys
      ensures cycle.Some? ==> IsCycle(pending, cycle.value) && cycle.value[0] in modules
      ensures cycle.None? ==> NoDuplicates(order) && DependenciesFirst(pending, order)
      ensures cycle.None? ==> forall m :: m in modules ==> m in order
      ensures cycle.None? ==> forall n :: n in order ==> exists m :: m in modules && Reaches(pending, m, n)
    {
      hide NoDuplicates, DependenciesFirst, IsCycle, Reaches, Edge, Covers, ImportedNames;
      var detector := new CycleDetector(pending);
      ghost var universe := modules.Keys + ImportedNames(pending);
      var remaining := modules.Keys;
      order := [];
      while remaining != {}
        invariant detector.pending == pending && detector.Valid() && detector.path == []
        invariant detector.states.Keys <= universe && remaining <= modules.Keys
        invariant forall m :: m in modules.Keys - remaining ==> m in detector.topoOrder
        invariant forall n :: n in detector.topoOrder ==> exists m :: m in modules && Reaches(pending, m, n)
        decreases remaining
      {
        ghost var before := detector.topoOrder;
        var name :| name in remaining;
        ImportedNamesCover(pending, universe);
        cycle := detector.Visit(name, universe);
        if cycle.Some? {
          CycleStartsAtImporter(pending, cycle.value);
          return;
        }
        GrownReaches(pending, name, before, detector.topoOrder);
        remaining := remaining - {name};
      }
      cycle, order := None, detector.topoOrder;
    }

    /** Builds the import table of one module from the tables of the modules it imports. */
    method LinkTarget(target: string) returns (r: Result<(), LinkError>)
      requires target in modules && modules[target].origins == map[] && modules[target].visible == {}
      requires !Edge(pending, target, target)
      modifies this`modules
      ensures modules.Keys == old(modules.Keys)
      ensures forall m :: m in modules && m != target ==> modules[m] == old(modules[m])
      ensures r.Ok? <==> Combined(old(modules[target].defined), Available(old(modules), pending, target)).Some?
      ensures r.Ok? ==> modules[target] == LinkedTable(old(modules[target]),
        Combined(old(modules[target].defined), Available(old(modules), pending, target)).value)
      ensures r.Err? ==> !r.error.CircularDependency?
      ensures r.Err? ==> SomeClauseFault(old(modules), pending, target, Available(old(modules), pending, target), r.error)
    {
      hide Combined, Available, LinkedTable, Edge, SomeClauseFault;
      ghost var t0 := modules[target];
      ghost var origins := Combined(t0.defined, Available(modules, pending, target));
      r := LinkClauses(target);
      if r.Ok? {
        NowComplete(t0, origins.value);
        var t := modules[target];
        modules := modules[target := t.(visible := t.visible + t.defined, state := Linked)];
      }
    }

    method LinkClauses(target: string) returns (r: Result<(), LinkError>)
      requires target in modules && modules[target].origins == map[] && modules[target].visible == {}
      requires !Edge(pending, target, target)
      modifies this`modules
      ensures modules.Keys == old(modules.Keys)
      ensures forall m :: m in modules && m != target ==> modules[m] == old(modules[m])
      ensures r.Ok? <==> Combined(old(modules[target].defined), Available(old(modules), pending, target)).Some?
      ensures r.Ok? ==> modules[target] == WithOrigins(old(modules[target]),
        Combined(old(modules[target].defined), Available(old(modules), pending, target)).value)
      ensures r.Err? ==> !r.error.CircularDependency?
      ensures r.Err? ==> SomeClauseFault(old(modules), pending, target, Available(old(modules), pending, target), r.error)
    {
      hide Compatible, Union, Combined, AllSome, Accepts, SourceContribution, Edge, Available, ImportsOf, SomeClauseFault,
        ClauseMap, ClauseRefused;
      ghost var mods0 := modules;
      ghost var all := Available(mods0, pending, target);
      ghost var xs: seq<Origins> := [];
      ghost var defined := modules[target].defined;
      var imports := ImportsOf(pending, target);
      AvailableAt(mods0, pending, target);
      NoClauses(defined);
      var k := 0;
      while k < |imports|
        invariant 0 <= k <= |imports| && |xs| == k
        invariant forall j :: 0 <= j < k ==> all[j] == Some(xs[j])
        invariant Compatible(defined, xs)
        invariant modules.Keys == mods0.Keys
        invariant forall m :: m in modules && m != target ==> modules[m] == mods0[m]
        invariant modules[target] == WithOrigins(mods0[target], Union(xs))
      {
        ClauseIsEdge(pending, target, k);
        ContributionFrame(mods0, modules, imports[k], target);
        ghost var now := modules;
        r := LinkClause(target, imports[k]);
        ClauseOutcome(defined, all, xs);
        if r.Err? {
          RefusedIsFault(mods0, now, pending, target, k, all, xs, r.error);
          return;
        }
        xs := xs + [all[k].value];
        k := k + 1;
      }
      CombinedIs(defined, all, xs);
      r := Ok(());
    }

    /** Selects one clause's names from its source and commits them to the target. */
    method LinkClause(target: string, spec: ImportSpec) returns (r: Result<(), LinkError>)
      requires target in modules && spec.source != target
      requires modules[target].visible == modules[target].origins.Keys
      modifies this`modules
      ensures modules.Keys == old(modules.Keys)
      ensures forall m :: m in modules && m != target ==> modules[m] == old(modules[m])
      ensures var t, c := old(modules[target]), SourceContribution(old(modules), spec);
        && (r.Ok? <==> c.Some? && Accepts(t.defined, t.origins, c.value))
        && (r.Ok? ==> modules[target] == WithOrigins(t, t.origins + c.value))
      ensures r.Err? ==> !r.error.CircularDependency?
      ensures r.Err? ==> ClauseRefused(old(modules), target, spec, r.error)
    {
      if spec.source !in modules {
        return Err(UnknownModule);
      }
      var selected := BuildImportMap(spec.kind, modules[spec.source].exports);
      if selected.Err? {
        return Err(selected.error);
      }
      r := Commit(target, spec.source, selected.value);
    }

    /** Adds one clause's names to the target, checking conflicts name by name. */
    method Commit(target: string, source: string, selected: map<string, string>) returns (r: Result<(), LinkError>)
      requires target in modules && source in modules && source != target
      requires modules[target].visible == modules[target].origins.Keys
      modifies this`modules
      ensures modules.Keys == old(modules.Keys)
      ensures forall m :: m in modules && m != target ==> modules[m] == old(modules[m])
      ensures var t, added := old(modules[target]), Canonicalize(selected, source, old(modules[source].origins));
        && (r.Ok? <==> Accepts(t.defined, t.origins, added))
        && (r.Ok? ==> modules[target] == WithOrigins(t, t.origins + added))
      ensures r.Err? ==> r.error == ConflictingImport
    {
      ghost var t0 := modules[target];
      ghost var added := Canonicalize(selected, source, modules[source].origins);
      var remaining := selected.Keys;
      ghost var done: set<string> := {};
      assert t0.origins + Part(added, {}) == t0.origins;
      while remaining != {}
        invariant done + remaining == selected.Keys && done !! remaining
        invariant modules.Keys == old(modules.Keys)
        invariant forall m :: m in modules && m != target ==> modules[m] == old(modules[m])
        invariant Accepts(t0.defined, t0.origins, Part(added, done))
        invariant modules[target] == WithOrigins(t0, t0.origins + Part(added, done))
        decreases remaining
      {
        var local :| local in remaining;
        var tgt := modules[target];
        if local in tgt.defined {
          assert local in added;
          return Err(ConflictingImport);
        }
        var origin := Canonical(source, selected[local], modules[source].origins);
        CommitStep(t0, added, done, local);
        if local in tgt.origins {
          if tgt.origins[local] != origin {
            return Err(ConflictingImport);
          }
        } else {
          modules := modules[target := WithOrigins(tgt, tgt.origins[local := origin])];
        }
        remaining, done := remaining - {local}, done + {local};
      }
      assert Part(added, done) == added;
      r := Ok(());
    }

    /** Every declared export must be visible; modules and names are met in any order. */
    method ValidateExports() returns (r: Result<(), LinkError>)
      ensures r.Ok? <==> AllExportsVisible(modules)
      ensures r.Err? ==> r.error == ExportOfUnknownName
    {
      var remaining := modules.Keys;
      while remaining != {}
        invariant remaining <= modules.Keys
        invariant forall m :: m in modules.Keys - remaining ==> modules[m].declared <= modules[m].visible
        decreases remaining
      {
        var name :| name in remaining;
        var names := modules[name].declared;
        while names != {}
          invariant names <= modules[name].declared
          invariant modules[name].declared - names <= modules[name].visible
          decreases names
        {
          var ex :| ex in names;
          if ex !in modules[name].visible {
            return Err(ExportOfUnknownName);
          }
          names := names - {ex};
        }
        remaining := remaining - {name};
      }
      r := Ok(());
    }
  }

  /** One clause's selection, built entry by entry. */
  method BuildImportMap(kind: ImportKind, exports: set<string>) returns (r: Result<map<string, string>, LinkError>)
    ensures r == ClauseMap(kind, exports)
  {
    var m: map<string, string> := map[];
    var remaining := exports;
    while remaining != {}
      invariant remaining <= exports && m == Identity(exports - remaining)
      decreases remaining
    {
      var ex :| ex in remaining;
      m := m[ex := ex];
      remaining := remaining - {ex};
    }
    assert m == Identity(exports);
    match kind {
      case Plain =>
        return Ok(m);
      case Only(ids) =>
        var filtered: map<string, string> := map[];
        var i := 0;
        while i < |ids|
          invariant 0 <= i <= |ids|
          invariant forall j :: 0 <= j < i ==> ids[j] in exports
          invariant filtered == Identity(set id | id in ids[..i])
        {
          if ids[i] !in exports {
            return Err(NameNotExported);
          }
          assert ids[..i + 1] == ids[..i] + [ids[i]];
          filtered := filtered[ids[i] := ids[i]];
          i := i + 1;
        }
        assert ids[..i] == ids;
        return Ok(filtered);
      case Except(ids) =>
        var i := 0;
        while i < |ids|
          invariant 0 <= i <= |ids|
          invariant m == Identity(exports - set id | id in ids[..i])
        {
          assert ids[..i + 1] == ids[..i] + [ids[i]];
          m := m - {ids[i]};
          i := i + 1;
        }
        assert ids[..i] == ids;
        return Ok(m);
      case Rename(renames) =>
        var i := 0;
        while i < |renames|
          invariant 0 <= i <= |renames|
          invariant forall j :: 0 <= j < i ==> OldNames(renames)[j] in exports
        {
          if renames[i].0 !in exports {
            assert OldNames(renames)[i] !in exports;
            return Err(NameNotExported);
          }
          i := i + 1;
        }
        assert AllExported(OldNames(renames), exports);
        r := RenameEach(m, renames);
      case Prefix(prefix) =>
        var prefixed := PrefixEach(m, prefix);
        return Ok(prefixed);
    }
  }

  method RenameEach(names: map<string, string>, renames: seq<(string, string)>)
    returns (r: Result<map<string, string>, LinkError>)
    ensures r == ApplyRenames(names, renames)
  {
    var m := names;
    var i := 0;
    while i < |renames|
      invariant 0 <= i <= |renames|
      invariant ApplyRenames(names, renames) == ApplyRenames(m, renames[i..])
    {
      assert renames[i..][1..] == renames[i + 1..];
      var (old_, new_) := renames[i];
      if old_ !in m {
        return Err(NameNotExported);
      }
      var remote := m[old_];
      m := m - {old_};
      if new_ in m {
        return Err(ConflictingImport);
      }
      m := m[new_ := remote];
      i := i + 1;
    }
    r := Ok(m);
  }

  method PrefixEach(m: map<string, string>, prefix: string) returns (prefixed: map<string, string>)
    ensures prefixed == Prefixed(prefix, m)
  {
    prefixed := map[];
    var remaining := m.Keys;
    PrefixInjective(prefix);
    while remaining != {}
      invariant remaining <= m.Keys
      invariant prefixed.Keys == set x | x in m.Keys - remaining :: prefix + x
      invariant forall x :: x in m.Keys - remaining ==> prefixed[prefix + x] == m[x]
      decreases remaining
    {
      var local :| local in remaining;
      prefixed := prefixed[prefix + local := m[local]];
      remaining := remaining - {local};
    }
  }

  /** The tables hold what a module form defines and exports, and the clauses it imports. */
  ghost predicate TableOf(mods: Modules, g: Pending, f: SExpr)
    requires IsModuleForm(f)
  {
    && f.elems[1].Sym?
    && f.elems[1].name in mods
    && Describes(mods[f.elems[1].name], f.elems[2..])
    && ImportClauses(f.elems[2..]) == Ok(ImportsOf(g, f.elems[1].name))
  }

  // ---- Proof support ----

  lemma EmptyIsDescribed(name: string)
    ensures Describes(ModuleTable(name, {}, {}, {}, {}, map[], LinkSpec.Indexed), [])
  {
  }

  lemma FaultOfPrefix(forms: seq<SExpr>, n: nat, e: LinkError)
    requires n <= |forms| && IndexFault(forms[..n], e)
    ensures IndexFault(forms, e)
  {
    assert forall k :: 0 <= k < n ==> forms[..n][k] == forms[k];
    if e == DuplicateModule {
      var i, j :| 0 <= i < j < n && SameModule(forms[..n][i], forms[..n][j]);
      assert SameModule(forms[i], forms[j]);
    } else {
      var i :| 0 <= i < n && Unreadable(forms[..n][i]);
      assert Unreadable(forms[i]);
    }
  }

  lemma NotIndexable(forms: seq<SExpr>, i: nat)
    requires i < |forms| && !Indexable(forms[..i] + [forms[i]])
    ensures !Indexable(forms)
  {
    var prefix := forms[..i] + [forms[i]];
    assert forall k :: 0 <= k < |prefix| ==> prefix[k] == forms[k];
  }

  /** One more form changes a description by exactly what that form defines or exports. */
  lemma DescribesStep(t0: ModuleTable, t: ModuleTable, body: seq<SExpr>, f: SExpr)
    requires Describes(t0, body)
    requires t0.declared == t0.exports ==> t.declared == t.exports
    requires forall s :: s in t.defined <==> s in t0.defined || DefinesName(f, s)
    requires forall s :: s in t.exports <==> s in t0.exports || ExportsName(f, s)
    ensures Describes(t, body + [f])
  {
    var longer := body + [f];
    assert longer[|body|] == f && forall i :: 0 <= i < |body| ==> longer[i] == body[i];
    forall s ensures s in t.defined <==> exists i :: 0 <= i < |longer| && DefinesName(longer[i], s) {
      if i :| 0 <= i < |body| && DefinesName(body[i], s) { assert DefinesName(longer[i], s); }
    }
    forall s ensures s in t.exports <==> exists i :: 0 <= i < |longer| && ExportsName(longer[i], s) {
      if i :| 0 <= i < |body| && ExportsName(body[i], s) { assert ExportsName(longer[i], s); }
    }
  }

  ghost predicate AllExportsVisible(mods: Modules) {
    forall m :: m in mods ==> mods[m].declared <= mods[m].visible
  }

  ghost predicate FreshTable(m: string, t: ModuleTable) {
    t.name == m && t.visible == {} && t.origins == map[] && t.state == LinkSpec.Indexed
  }

  /** A table whose visible names are, so far, its imports. */
  function WithOrigins(t: ModuleTable, origins: Origins): ModuleTable {
    t.(origins := origins, visible := origins.Keys)
  }

  /** The conflict check of one clause against the imports taken so far. */
  ghost predicate Accepts(defined: set<string>, origins: Origins, added: Origins) {
    forall x :: x in added ==> x !in defined && (x in origins ==> origins[x] == added[x])
  }

  /** Why one clause was not taken: its source, its names, or what is there already. */
  ghost predicate ClauseRefused(mods: Modules, target: string, spec: ImportSpec, e: LinkError)
    requires target in mods
  {
    if spec.source !in mods then e == UnknownModule
    else
      match ClauseMap(spec.kind, mods[spec.source].exports)
      case Err(why) => e == why
      case Ok(_) =>
        && e == ConflictingImport && SourceContribution(mods, spec).Some?
        && !Accepts(mods[target].defined, mods[target].origins, SourceContribution(mods, spec).value)
  }

  lemma RefusedIsFault(
    mods0: Modules, mods: Modules, g: Pending, m: string, k: nat, all: seq<Option<Origins>>, xs: seq<Origins>, e: LinkError)
    requires m in mods0 && mods.Keys == mods0.Keys && k < |ImportsOf(g, m)| && all == Available(mods0, g, m)
    requires forall x :: x in mods && x != m ==> mods[x] == mods0[x]
    requires ImportsOf(g, m)[k].source != m && mods[m] == WithOrigins(mods0[m], Union(xs))
    requires |xs| == k && (forall j :: 0 <= j < k ==> all[j] == Some(xs[j])) && Compatible(mods0[m].defined, xs)
    requires ClauseRefused(mods, m, ImportsOf(g, m)[k], e)
    ensures SomeClauseFault(mods0, g, m, all, e)
  {
    hide Compatible, Union, ClauseMap, Contribution;
    var spec := ImportsOf(g, m)[k];
    AvailableAt(mods0, g, m);
    ContributionFrame(mods0, mods, spec, m);
    if spec.source in mods && ClauseMap(spec.kind, mods[spec.source].exports).Ok? {
      RefusedClashes(mods0[m].defined, all, xs, k);
    }
    assert ClauseFault(mods0, g, m, all, k, e);
  }

  lemma RefusedClashes(defined: set<string>, all: seq<Option<Origins>>, xs: seq<Origins>, k: nat)
    requires |xs| == k < |all| && (forall j :: 0 <= j < k ==> all[j] == Some(xs[j])) && Compatible(defined, xs)
    requires all[k].Some? && !Accepts(defined, Union(xs), all[k].value)
    ensures Clashes(defined, all, k)
  {
    hide Compatible, Union;
    var c := all[k].value;
    var x :| x in c && !(x !in defined && (x in Union(xs) ==> Union(xs)[x] == c[x]));
    if x !in defined {
      UnionKeys(xs, x);
      var j :| 0 <= j < |xs| && x in xs[j] && Union(xs)[x] == xs[j][x];
      assert all[j] == Some(xs[j]);
      assert TakenBefore(all, k, x);
    }
  }

  /** A fault seen in the tables of the moment is one of the program. */
  lemma FaultFromStart(mods0: Modules, g: Pending, order: seq<string>, i: nat, mods: Modules, e: LinkError)
    requires i < |order| && mods.Keys == mods0.Keys && order[i] in mods0
    requires NoDuplicates(order) && DependenciesFirst(g, order) && LinkedUpTo(mods0, g, order, i, mods)
    requires SomeClauseFault(mods, g, order[i], Available(mods, g, order[i]), e)
    ensures LinkFault(mods0, g, e)
  {
    var m := order[i];
    ImportsAreLinked(mods0, g, order, i, mods);
    forall x | x in mods ensures mods[x].exports == mods0[x].exports && mods[x].defined == mods0[x].defined {
      if x in order[..i] { assert IsLinked(mods0, g, x, mods); }
    }
    hide LinkedUpTo, OriginsOf, Available, Direct, ClauseMap, Clashes, IsLinked;
    var k :| 0 <= k < |Available(mods, g, m)| && ClauseFault(mods, g, m, Available(mods, g, m), k, e);
    assert ClauseFault(mods0, g, m, Direct(mods0, g, m), k, e);
    assert SomeClauseFault(mods0, g, m, Direct(mods0, g, m), e);
  }

  lemma HiddenExport(mods0: Modules, g: Pending, order: seq<string>, mods: Modules)
    requires mods.Keys == mods0.Keys && LinkedUpTo(mods0, g, order, |order|, mods)
    requires (forall m :: m in mods0 ==> m in order) && !AllExportsVisible(mods)
    ensures LinkFault(mods0, g, ExportOfUnknownName)
  {
    hide OriginsOf;
    assert order[..|order|] == order;
    var m :| m in mods && !(mods[m].declared <= mods[m].visible);
    assert IsLinked(mods0, g, m, mods);
    assert !ExportsVisible(mods0, g, m);
  }

  ghost function Part(m: Origins, keys: set<string>): Origins {
    map x | x in m && x in keys :: m[x]
  }

  lemma CommitStep(t0: ModuleTable, added: Origins, done: set<string>, local: string)
    requires local in added && local !in done
    requires Accepts(t0.defined, t0.origins, Part(added, done))
    ensures var now, next := t0.origins + Part(added, done), t0.origins + Part(added, done + {local});
      && (local in now <==> local in t0.origins)
      && (local in now ==> now[local] == t0.origins[local])
      && (local !in now ==> next == now[local := added[local]])
      && (local in now && now[local] == added[local] ==> next == now)
    ensures Accepts(t0.defined, t0.origins, Part(added, done + {local})) <==>
      local !in t0.defined && (local in t0.origins ==> t0.origins[local] == added[local])
    ensures Accepts(t0.defined, t0.origins, added) ==> Accepts(t0.defined, t0.origins, Part(added, done + {local}))
  {
    assert Part(added, done + {local}) == Part(added, done)[local := added[local]];
    assert local in Part(added, done + {local});
  }

  lemma CompatibleStep(defined: set<string>, xs: seq<Origins>, added: Origins)
    requires Compatible(defined, xs)
    ensures Compatible(defined, xs + [added]) <==> Accepts(defined, Union(xs), added)
    ensures Union(xs + [added]) == Union(xs) + added
  {
    var ys := xs + [added];
    assert ys[..|ys| - 1] == xs;
    UnionIsEveryBinding(defined, xs);
    if Compatible(defined, ys) {
      AcceptsLast(defined, xs, added);
    }
  }

  /** The next clause is accepted, or the module cannot be linked. */
  lemma ClauseOutcome(defined: set<string>, all: seq<Option<Origins>>, xs: seq<Origins>)
    requires |xs| < |all| && forall i :: 0 <= i < |xs| ==> all[i] == Some(xs[i])
    requires Compatible(defined, xs)
    ensures var c := all[|xs|];
      && (c.Some? && Accepts(defined, Union(xs), c.value) ==>
            Compatible(defined, xs + [c.value]) && Union(xs + [c.value]) == Union(xs) + c.value)
      && (c.None? || !Accepts(defined, Union(xs), c.value) ==> Combined(defined, all).None?)
  {
    hide Compatible, Union, Combined, AllSome, Accepts;
    var c := all[|xs|];
    if c.Some? {
      CompatibleStep(defined, xs, c.value);
      if !Accepts(defined, Union(xs), c.value) {
        IncompatiblePrefix(defined, all, xs + [c.value]);
      }
    } else {
      CombinedFails(defined, all, |xs|);
    }
  }

  lemma NoClauses(defined: set<string>)
    ensures Compatible(defined, []) && Union([]) == map[]
  {
  }

  lemma ClauseIsEdge(g: Pending, m: string, k: nat)
    requires k < |ImportsOf(g, m)|
    ensures Edge(g, m, ImportsOf(g, m)[k].source)
  {
  }

  lemma AcceptsLast(defined: set<string>, xs: seq<Origins>, added: Origins)
    requires Compatible(defined, xs + [added])
    ensures Accepts(defined, Union(xs), added)
  {
    var ys := xs + [added];
    forall x | x in added ensures x !in defined && (x in Union(xs) ==> Union(xs)[x] == added[x]) {
      assert x in ys[|xs|];
      UnionKeys(xs, x);
      if x in Union(xs) {
        var i :| 0 <= i < |xs| && x in xs[i] && Union(xs)[x] == xs[i][x];
        assert ys[i] == xs[i];
      }
    }
  }

  lemma CombinedIs(defined: set<string>, all: seq<Option<Origins>>, xs: seq<Origins>)
    requires |all| == |xs| && forall i :: 0 <= i < |xs| ==> all[i] == Some(xs[i])
    requires Compatible(defined, xs)
    ensures Combined(defined, all) == Some(Union(xs))
  {
    AllSomeElements(all);
    assert AllSome(all).value == xs;
  }

  lemma CombinedFails(defined: set<string>, all: seq<Option<Origins>>, i: nat)
    requires i < |all| && all[i].None?
    ensures Combined(defined, all).None?
  {
    AllSomeElements(all);
  }

  lemma IncompatiblePrefix(defined: set<string>, all: seq<Option<Origins>>, xs: seq<Origins>)
    requires |xs| <= |all| && forall i :: 0 <= i < |xs| ==> all[i] == Some(xs[i])
    requires !Compatible(defined, xs)
    ensures Combined(defined, all).None?
  {
    AllSomeElements(all);
    if AllSome(all).Some? {
      var ys := AllSome(all).value;
      assert forall i :: 0 <= i < |xs| ==> ys[i] == xs[i];
      assert !Compatible(defined, ys);
    }
  }

  /** What the clauses of `m` contribute, read off the current tables. */
  ghost function Available(mods: Modules, g: Pending, m: string): seq<Option<Origins>> {
    seq(|ImportsOf(g, m)|, i requires 0 <= i < |ImportsOf(g, m)| =>
      SourceContribution(mods, ImportsOf(g, m)[i]))
  }

  lemma AvailableAt(mods: Modules, g: Pending, m: string)
    ensures |Available(mods, g, m)| == |ImportsOf(g, m)|
    ensures forall i :: 0 <= i < |ImportsOf(g, m)| ==> Available(mods, g, m)[i] == SourceContribution(mods, ImportsOf(g, m)[i])
  {
    hide SourceContribution;
  }

  lemma NowComplete(t: ModuleTable, origins: Origins)
    ensures var w := WithOrigins(t, origins); w.(visible := w.visible + t.defined, state := Linked) == LinkedTable(t, origins)
  {
  }

  ghost function SourceContribution(mods: Modules, spec: ImportSpec): Option<Origins> {
    Contribution(mods, spec, if spec.source in mods then Some(mods[spec.source].origins) else None)
  }

  lemma ContributionFrame(mods: Modules, mods': Modules, spec: ImportSpec, target: string)
    requires mods.Keys == mods'.Keys && spec.source != target
    requires forall m :: m in mods && m != target ==> mods'[m] == mods[m]
    ensures SourceContribution(mods, spec) == SourceContribution(mods', spec)
  {
  }

  ghost function ImportedNames(g: Pending): set<string> {
    set m, i | m in g && 0 <= i < |g[m]| :: g[m][i].source
  }

  lemma CycleStartsAtImporter(g: Pending, cycle: seq<string>)
    requires IsCycle(g, cycle)
    ensures |cycle| >= 2 && cycle[0] in g
  {
    assert Edge(g, cycle[0], cycle[1]);
  }

  lemma GrownReaches(g: Pending, from: string, before: seq<string>, now: seq<string>)
    requires Grown(g, from, before, now)
    ensures before <= now && forall n :: n in now ==> n in before || Reaches(g, from, n)
  {
    forall n | n in now ensures n in before || Reaches(g, from, n) {
      assert now == before + now[|before|..];
    }
  }

  lemma ImportedNamesCover(g: Pending, universe: set<string>)
    requires ImportedNames(g) <= universe
    ensures Covers(g, universe)
  {
    forall a, b | Edge(g, a, b) ensures b in universe {
      var i :| 0 <= i < |ImportsOf(g, a)| && ImportsOf(g, a)[i].source == b;
      assert g[a][i].source in ImportedNames(g);
    }
  }

  lemma OrderedIsAcyclic(mods: Modules, g: Pending, order: seq<string>)
    requires NoDuplicates(order) && DependenciesFirst(g, order)
    requires g.Keys <= mods.Keys && forall m :: m in mods ==> m in order
    ensures Acyclic(g)
  {
    forall p ensures !IsCycle(g, p) {
      if IsCycle(g, p) {
        assert Edge(g, p[0], p[1]) && p[0] in g;
        OrderedNamesLieOnNoCycle(g, order, p);
      }
    }
  }

  /** The first `i` names of the order are linked; the other tables are untouched. */
  ghost predicate LinkedUpTo(mods0: Modules, g: Pending, order: seq<string>, i: nat, mods: Modules)
    requires i <= |order| && mods.Keys == mods0.Keys
  {
    && (forall m :: m in mods0 && m in order[..i] ==> IsLinked(mods0, g, m, mods))
    && (forall m :: m in mods0 && m !in order[..i] ==> mods[m] == mods0[m])
  }

  ghost predicate IsLinked(mods0: Modules, g: Pending, m: string, mods: Modules)
    requires m in mods0 && mods.Keys == mods0.Keys
  {
    OriginsOf(mods0, g, m, {}).Some? && mods[m] == LinkedTable(mods0[m], OriginsOf(mods0, g, m, {}).value)
  }

  lemma ImportsAreLinked(mods0: Modules, g: Pending, order: seq<string>, i: nat, mods: Modules)
    requires i < |order| && mods.Keys == mods0.Keys && order[i] in mods0
    requires DependenciesFirst(g, order)
    requires LinkedUpTo(mods0, g, order, i, mods)
    ensures Available(mods, g, order[i]) == Direct(mods0, g, order[i])
  {
    var m := order[i];
    var a, b := Available(mods, g, m), Direct(mods0, g, m);
    forall j | 0 <= j < |ImportsOf(g, m)| ensures a[j] == b[j] {
      var source := ImportsOf(g, m)[j].source;
      assert Edge(g, m, source);
      if source in mods {
        assert IsLinked(mods0, g, source, mods);
      }
    }
  }

  /** Before its turn a module's table is fresh, and its specification reads only linked tables. */
  lemma NextIsUntouched(mods0: Modules, g: Pending, order: seq<string>, i: nat, mods: Modules)
    requires i < |order| && mods.Keys == mods0.Keys
    requires NoDuplicates(order) && DependenciesFirst(g, order)
    requires LinkedUpTo(mods0, g, order, i, mods)
    ensures !Edge(g, order[i], order[i])
    ensures order[i] in mods ==> mods[order[i]] == mods0[order[i]]
    ensures order[i] in mods ==>
      OriginsOf(mods0, g, order[i], {}) == Combined(mods0[order[i]].defined, Available(mods, g, order[i]))
  {
    assert order[i] !in order[..i];
    if order[i] in mods {
      ImportsAreLinked(mods0, g, order, i, mods);
      AboveIsIrrelevant(mods0, g, order, i, {});
    }
  }

  lemma LinkedStep(mods0: Modules, g: Pending, order: seq<string>, i: nat, mods: Modules, mods': Modules)
    requires i < |order| && mods.Keys == mods0.Keys == mods'.Keys
    requires LinkedUpTo(mods0, g, order, i, mods)
    requires NoDuplicates(order)
    requires forall m :: m in mods && m != order[i] ==> mods'[m] == mods[m]
    requires order[i] in mods ==> IsLinked(mods0, g, order[i], mods')
    ensures LinkedUpTo(mods0, g, order, i + 1, mods')
  {
    assert order[..i + 1] == order[..i] + [order[i]];
    forall m | m in mods0 && m in order[..i + 1] ensures IsLinked(mods0, g, m, mods') {
      if m != order[i] {
        assert IsLinked(mods0, g, m, mods);
      }
    }
  }

  lemma NothingLinked(mods0: Modules, g: Pending, order: seq<string>)
    ensures LinkedUpTo(mods0, g, order, 0, mods0)
  {
  }

  lemma Unlinkable(mods0: Modules, g: Pending, m: string)
    requires m in mods0 && OriginsOf(mods0, g, m, {}).None?
    ensures !Links(mods0, g)
  {
  }

  lemma NowLinked(mods0: Modules, g: Pending, m: string, mods: Modules)
    requires m in mods0 && mods.Keys == mods0.Keys && OriginsOf(mods0, g, m, {}).Some?
    requires mods[m] == LinkedTable(mods0[m], OriginsOf(mods0, g, m, {}).value)
    ensures IsLinked(mods0, g, m, mods)
  {
  }

  lemma AllLinked(mods0: Modules, g: Pending, order: seq<string>, mods: Modules)
    requires mods.Keys == mods0.Keys && LinkedUpTo(mods0, g, order, |order|, mods)
    requires forall m :: m in mods0 ==> m in order
    ensures Links(mods0, g) <==> AllExportsVisible(mods)
    ensures Links(mods0, g) ==> mods == LinkedModules(mods0, g)
  {
    hide OriginsOf;
    assert order[..|order|] == order;
    forall m | m in mods0
      ensures OriginsOf(mods0, g, m, {}).Some?
      ensures mods[m] == LinkedTable(mods0[m], OriginsOf(mods0, g, m, {}).value)
      ensures ExportsVisible(mods0, g, m) <==> mods[m].declared <= mods[m].visible
    {
      assert IsLinked(mods0, g, m, mods);
    }
    hide LinkedUpTo, LinkedTable;
  }
}
