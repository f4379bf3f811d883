/** Reading module forms: what a `(module name form...)` list defines, exports and imports. */
module ModuleForms {
  import opened Wrappers
  import opened SExprs
  import opened ImportGraph
  import opened LinkSpec

  /** Forms the linker looks at; anything else at top level is ignored. */
  predicate IsModuleForm(f: SExpr) {
    f.List? && |f.elems| >= 2 && IsSymbolNamed(f.elems[0], "module")
  }

  predicate HasHead(f: SExpr, head: string) {
    f.List? && |f.elems| >= 1 && IsSymbolNamed(f.elems[0], head)
  }

  function SymbolNames(xs: seq<SExpr>): (names: seq<string>)
    ensures forall s :: s in names <==> Sym(s) in xs
  {
    if xs == [] then []
    else (if xs[0].Sym? then [xs[0].name] else []) + SymbolNames(xs[1..])
  }

  function RenamePairs(xs: seq<SExpr>): seq<(string, string)> {
    if xs == [] then []
    else
      var x := xs[0];
      (if x.List? && |x.elems| == 2 && x.elems[0].Sym? && x.elems[1].Sym?
       then [(x.elems[0].name, x.elems[1].name)] else [])
      + RenamePairs(xs[1..])
  }

  function ParseImportClause(c: SExpr): (r: Result<ImportSpec, LinkError>)
    ensures r.Err? ==> r.error == UnknownModule
  {
    if c.Sym? then Ok(ImportSpec(c.name, Plain))
    else if !c.List? || |c.elems| == 0 || !c.elems[0].Sym? then Err(UnknownModule)
    else
      var head := c.elems[0].name;
      var source := if |c.elems| > 1 && c.elems[1].Sym? then Some(c.elems[1].name) else None;
      if head == "only" then
        if source.None? then Err(UnknownModule)
        else Ok(ImportSpec(source.value, Only(SymbolNames(c.elems[2..]))))
      else if head == "except" then
        if source.None? then Err(UnknownModule)
        else Ok(ImportSpec(source.value, Except(SymbolNames(c.elems[2..]))))
      else if head == "rename" then
        if source.None? then Err(UnknownModule)
        else Ok(ImportSpec(source.value, Rename(RenamePairs(c.elems[2..]))))
      else if head == "prefix" then
        if |c.elems| != 3 || source.None? || !c.elems[2].Sym? then Err(UnknownModule)
        else Ok(ImportSpec(source.value, Prefix(c.elems[2].name)))
      else if |c.elems| == 1 then Ok(ImportSpec(head, Plain))
      else Err(UnknownModule)
  }

  /** The clauses of one `(import clause...)` form. */
  function ParseClauses(cs: seq<SExpr>): Result<seq<ImportSpec>, LinkError> {
    if cs == [] then Ok([])
    else
      match (ParseClauses(cs[..|cs| - 1]), ParseImportClause(cs[|cs| - 1]))
      case (Err(e), _) => Err(e)
      case (_, Err(e)) => Err(e)
      case (Ok(before), Ok(spec)) => Ok(before + [spec])
  }

  ghost predicate DefinesName(f: SExpr, s: string) {
    HasHead(f, "define") && |f.elems| >= 3 && f.elems[1] == Sym(s)
  }

  ghost predicate ExportsName(f: SExpr, s: string) {
    HasHead(f, "export") && Sym(s) in f.elems[1..]
  }

  /** The clauses a body form contributes: those of an import form. */
  function FormClauses(f: SExpr): Result<seq<ImportSpec>, LinkError> {
    if HasHead(f, "import") then ParseClauses(f.elems[1..]) else Ok([])
  }

  /** The import clauses of a module body, in textual order. */
  function ImportClauses(body: seq<SExpr>): Result<seq<ImportSpec>, LinkError> {
    if body == [] then Ok([])
    else
      match (ImportClauses(body[..|body| - 1]), FormClauses(body[|body| - 1]))
      case (Err(e), _) => Err(e)
      case (_, Err(e)) => Err(e)
      case (Ok(before), Ok(specs)) => Ok(before + specs)
  }

  /** A table holds exactly the names its body defines and exports. */
  ghost predicate Describes(t: ModuleTable, body: seq<SExpr>) {
    && (forall s :: s in t.defined <==> exists i :: 0 <= i < |body| && DefinesName(body[i], s))
    && (forall s :: s in t.exports <==> exists i :: 0 <= i < |body| && ExportsName(body[i], s))
    && t.declared == t.exports
  }

  /** The linker accepts the forms: symbol names, no name twice, every import clause readable. */
  ghost predicate Indexable(forms: seq<SExpr>) {
    && (forall i :: 0 <= i < |forms| && IsModuleForm(forms[i]) ==>
          forms[i].elems[1].Sym? && ImportClauses(forms[i].elems[2..]).Ok?)
    && (forall i, j :: 0 <= i < j < |forms| && IsModuleForm(forms[i]) && IsModuleForm(forms[j]) ==>
          forms[i].elems[1] != forms[j].elems[1])
  }

  /** A module form without a name, or with an import clause that cannot be read. */
  ghost predicate Unreadable(f: SExpr) {
    IsModuleForm(f) && (!f.elems[1].Sym? || ImportClauses(f.elems[2..]).Err?)
  }

  predicate SameModule(a: SExpr, b: SExpr) {
    IsModuleForm(a) && IsModuleForm(b) && a.elems[1] == b.elems[1]
  }

  /** What is wrong with forms that indexing rejects with this error. */
  ghost predicate IndexFault(forms: seq<SExpr>, e: LinkError) {
    match e
    case DuplicateModule => exists i, j :: 0 <= i < j < |forms| && SameModule(forms[i], forms[j])
    case UnknownModule => exists i :: 0 <= i < |forms| && Unreadable(forms[i])
    case _ => false
  }

  lemma {:induction false} BadClauseSpoilsForm(cs: seq<SExpr>, n: nat)
    requires n <= |cs| && ParseClauses(cs[..n]).Err?
    ensures ParseClauses(cs).Err?
    decreases |cs|
  {
    if n < |cs| {
      assert cs[..|cs| - 1][..n] == cs[..n];
      BadClauseSpoilsForm(cs[..|cs| - 1], n);
    } else {
      assert cs[..n] == cs;
    }
  }

  lemma {:induction false} BadFormSpoilsBody(body: seq<SExpr>, n: nat)
    requires n <= |body| && ImportClauses(body[..n]).Err?
    ensures ImportClauses(body).Err?
    decreases |body|
  {
    if n < |body| {
      assert body[..|body| - 1][..n] == body[..n];
      BadFormSpoilsBody(body[..|body| - 1], n);
    } else {
      assert body[..n] == body;
    }
  }
}
