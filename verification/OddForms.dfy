/**
 Forms outside the programs whose meaning is proved: `=>` and test-only clauses of `cond`, quotes
 nested in a template, `progn`, procedures defined inside a body; and the forms the expander
 refuses (eta/core/src/eta/reader/expander.cpp).
 */
module OddForms {
  import opened Wrappers
  import opened SExprs
  import opened Numerals
  import opened SyntaxRules
  import opened Expanders
  import opened ExpanderHeads

  // ---- Clauses of cond ----

  /** The clauses from one place on expand as the same clauses one place further on. */
  lemma {:induction false} ClausesShift(session: string, a: SExpr, c: SExpr, rest: seq<SExpr>, i: nat, d: nat, n: nat)
    requires 1 <= i <= |rest| + 1
    ensures CondFrom(session, [a, c] + rest, i + 1, d, n) == CondFrom(session, [a] + rest, i, d, n)
    decreases |rest| + 1 - i
  {
    hide CondClause;
    if i <= |rest| {
      ClausesShift(session, a, c, rest, i + 1, d, n);
      assert ([a, c] + rest)[i + 1] == rest[i - 1] && ([a] + rest)[i] == rest[i - 1];
    }
  }

  /** What the clauses after the first one expand to; without any, an empty `begin`. */
  function After(session: string, rest: seq<SExpr>, d: nat, n: nat): Result<Expanded<SExpr>, ExpandError> {
    if rest == [] then Ok(Expanded(Proper([Sym("begin")]), n)) else ExpandForm(session, Form("cond", rest), d, n)
  }

  /** The first clause of `cond` is expanded last, around the expansion of the others. */
  lemma FirstClause(session: string, c: SExpr, rest: seq<SExpr>, d: nat, n: nat)
    requires d > 0
    ensures ExpandForm(session, Form("cond", [c] + rest), d, n) ==
      match After(session, rest, d, n)
      case Err(e) => Err(e)
      case Ok(r) => CondClause(session, c, rest == [], r.value, d - 1, r.counter)
  {
    hide CondClause, ExpandForm;
    var xs := [Sym("cond"), c] + rest;
    assert [Sym("cond")] + ([c] + rest) == xs;
    CondForm(session, [c] + rest, d, n);
    ClausesShift(session, Sym("cond"), c, rest, 1, d - 1, n);
    if rest != [] {
      CondForm(session, rest, d, n);
    }
    assert Form("begin", []) == Proper([Sym("begin")]);
  }

  /**
   `(test => receiver)`: the value of the test is bound to a gensym by a `let` that is not
   expanded, so the output of `cond` keeps a derived form.
   */
  lemma ArrowClause(
    session: string, test: SExpr, receiver: SExpr, rest: seq<SExpr>, d: nat, n: nat,
    r: Expanded<SExpr>, t: Expanded<SExpr>, f: Expanded<SExpr>)
    requires d > 0 && !IsSymbolNamed(test, "else") && After(session, rest, d, n) == Ok(r)
    requires ExpandForm(session, test, d - 1, r.counter) == Ok(t)
    requires ExpandForm(session, receiver, d - 1, t.counter) == Ok(f)
    ensures
      var g := Sym("t:" + session + ":" + Decimal(f.counter + 1));
      var binding := Proper([Proper([g, t.value])]);
      var choice := Proper([Sym("if"), g, Proper([f.value, g]), r.value]);
      ExpandForm(session, Form("cond", [Proper([test, Sym("=>"), receiver])] + rest), d, n)
        == Ok(Expanded(Proper([Sym("let"), binding, choice]), f.counter + 1))
  {
    hide ExpandForm, Decimal;
    FirstClause(session, Proper([test, Sym("=>"), receiver]), rest, d, n);
    hide After;
    var g := Sym("t:" + session + ":" + Decimal(f.counter + 1));
    assert "t" + ":" + session == "t:" + session;
    assert Sym(Gensym("t", session, f.counter)) == g;
    assert MakeIf(g, Proper([f.value, g]), r.value) == Proper([Sym("if"), g, Proper([f.value, g]), r.value]);
    assert Form("let", [Proper([Proper([g, t.value])]), MakeIf(g, Proper([f.value, g]), r.value)])
      == Proper([Sym("let"), Proper([Proper([g, t.value])]), MakeIf(g, Proper([f.value, g]), r.value)]);
  }

  /** `(test)`: the test stands twice in the output, expanded in its place and as written in the branch. */
  lemma TestOnlyClause(
    session: string, test: SExpr, rest: seq<SExpr>, d: nat, n: nat, r: Expanded<SExpr>, t: Expanded<SExpr>)
    requires d > 0 && !IsSymbolNamed(test, "else") && After(session, rest, d, n) == Ok(r)
    requires ExpandForm(session, test, d - 1, r.counter) == Ok(t)
    ensures ExpandForm(session, Form("cond", [Proper([test])] + rest), d, n)
      == Ok(Expanded(Proper([Sym("if"), t.value, test, r.value]), t.counter))
  {
    hide ExpandForm;
    FirstClause(session, Proper([test]), rest, d, n);
    hide After;
    assert MakeIf(t.value, test, r.value) == Proper([Sym("if"), t.value, test, r.value]);
  }

  /** A clause that is no list, an empty one, an `else` before the end or without a body. */
  lemma BadClause(session: string, c: SExpr, rest: seq<SExpr>, d: nat, n: nat)
    requires d > 0 && After(session, rest, d, n).Ok?
    requires !c.List? || c.elems == [] || (IsSymbolNamed(c.elems[0], "else") && (rest != [] || |c.elems| == 1))
    ensures ExpandForm(session, Form("cond", [c] + rest), d, n) == Err(InvalidSyntax)
  {
    hide ExpandForm;
    FirstClause(session, c, rest, d, n);
    hide After;
  }

  // ---- Quotes nested in a template ----

  /** `k` quote marks of one kind around a datum. */
  function Wrapped(kind: QuoteKind, k: nat, x: SExpr): SExpr {
    if k == 0 then x else Reader(kind, Wrapped(kind, k - 1, x))
  }

  /** `k` lists headed by a name around a datum. */
  function Headed(name: string, k: nat, x: SExpr): SExpr {
    if k == 0 then x else Proper([Sym(name), Headed(name, k - 1, x)])
  }

  lemma {:induction false} QuasiquotesCount(session: string, k: nat, x: SExpr, depth: nat, d: nat, n: nat)
    ensures ExpandQuasiquote(session, Wrapped(Quasiquote, k, x), depth, d, n) == ExpandQuasiquote(session, x, depth + k, d, n)
    decreases k
  {
    if k > 0 {
      QuasiquotesCount(session, k - 1, x, depth + 1, d, n);
      hide ExpandForm;
      OneMark(session, Quasiquote, Wrapped(Quasiquote, k - 1, x), depth, d, n);
    }
  }

  lemma OneMark(session: string, kind: QuoteKind, x: SExpr, depth: nat, d: nat, n: nat)
    ensures ExpandQuasiquote(session, Reader(kind, x), depth, d, n) == QuasiHead(session, Reader(kind, x), kind, x, depth, d, n)
  {
    hide QuasiHead;
  }

  lemma UnquoteMark(session: string, x: SExpr, depth: nat, d: nat, n: nat)
    requires depth > 1
    ensures ExpandQuasiquote(session, Reader(Unquote, x), depth, d, n) ==
      match ExpandQuasiquote(session, x, depth - 1, d, n)
      case Err(e) => Err(e)
      case Ok(y) => Ok(Expanded(Proper([Sym("unquote"), y.value]), y.counter))
  {
    OneMark(session, Unquote, x, depth, d, n);
    hide ExpandQuasiquote;
    assert forall y :: Form("unquote", [y]) == Proper([Sym("unquote"), y]);
  }

  lemma {:induction false} UnquotesPeel(session: string, j: nat, x: SExpr, depth: nat, d: nat, n: nat)
    requires j < depth
    ensures ExpandQuasiquote(session, Wrapped(Unquote, j, x), depth, d, n) ==
      match ExpandQuasiquote(session, x, depth - j, d, n)
      case Err(e) => Err(e)
      case Ok(y) => Ok(Expanded(Headed("unquote", j, y.value), y.counter))
    decreases j
  {
    hide ExpandQuasiquote;
    if j > 0 {
      UnquotesPeel(session, j - 1, x, depth - 1, d, n);
      UnquoteMark(session, Wrapped(Unquote, j - 1, x), depth, d, n);
    }
  }

  lemma TemplateOf(session: string, x: SExpr, d: nat, n: nat)
    requires d > 0
    ensures ExpandForm(session, Reader(Quasiquote, x), d, n) == ExpandQuasiquote(session, x, 1, d - 1, n)
  {
    hide ExpandQuasiquote;
  }

  lemma TowerReads(session: string, k: nat, j: nat, x: SExpr, d: nat, n: nat)
    requires 0 < k && d > 0 && j < k
    ensures ExpandForm(session, Wrapped(Quasiquote, k, Wrapped(Unquote, j, x)), d, n) ==
      match ExpandQuasiquote(session, x, k - j, d - 1, n)
      case Err(e) => Err(e)
      case Ok(y) => Ok(Expanded(Headed("unquote", j, y.value), y.counter))
  {
    hide ExpandQuasiquote, ExpandForm;
    TemplateOf(session, Wrapped(Quasiquote, k - 1, Wrapped(Unquote, j, x)), d, n);
    QuasiquotesCount(session, k - 1, Wrapped(Unquote, j, x), 1, d - 1, n);
    UnquotesPeel(session, j, x, k, d - 1, n);
  }

  /**
   As many unquotes as quasiquotes: what they enclose is expanded, and all unquotes but the
   innermost stay as forms, without the quasiquotes they belong to.
   */
  lemma BalancedTower(session: string, k: nat, x: SExpr, d: nat, n: nat)
    requires 0 < k && d > 0
    ensures ExpandForm(session, Wrapped(Quasiquote, k, Wrapped(Unquote, k, x)), d, n) ==
      match ExpandForm(session, x, d - 1, n)
      case Err(e) => Err(e)
      case Ok(y) => Ok(Expanded(Headed("unquote", k - 1, y.value), y.counter))
  {
    hide ExpandQuasiquote, ExpandForm, Headed, Wrapped;
    UnquotesInside(k, x);
    TowerReads(session, k, k - 1, Reader(Unquote, x), d, n);
    LastUnquote(session, x, d - 1, n);
  }

  lemma {:induction false} UnquotesInside(k: nat, x: SExpr)
    requires k > 0
    ensures Wrapped(Unquote, k, x) == Wrapped(Unquote, k - 1, Reader(Unquote, x))
  {
    if k > 1 {
      UnquotesInside(k - 1, x);
    }
  }

  lemma LastUnquote(session: string, x: SExpr, d: nat, n: nat)
    ensures ExpandQuasiquote(session, Reader(Unquote, x), 1, d, n) == ExpandForm(session, x, d, n)
  {
    OneMark(session, Unquote, x, 1, d, n);
  }

  /** Fewer unquotes than quasiquotes around an atom: it is quoted. */
  lemma ShallowTower(session: string, k: nat, j: nat, x: SExpr, d: nat, n: nat)
    requires j < k && d > 0 && !x.List? && !x.Vector? && !x.Reader?
    ensures ExpandForm(session, Wrapped(Quasiquote, k, Wrapped(Unquote, j, x)), d, n)
      == Ok(Expanded(Headed("unquote", j, Proper([Sym("quote"), x])), n))
  {
    TowerReads(session, k, j, x, d, n);
    hide ExpandForm, Headed, Wrapped, QuasiHead, QuasiOfList;
    assert MakeQuote(x) == Proper([Sym("quote"), x]);
  }

  /** More unquotes than quasiquotes are an error, while the limit lasts. */
  lemma DeepTower(session: string, k: nat, x: SExpr, d: nat, n: nat)
    requires 0 < k && d > 1
    ensures ExpandForm(session, Wrapped(Quasiquote, k, Wrapped(Unquote, k, Reader(Unquote, x))), d, n) == Err(InvalidSyntax)
    ensures ExpandForm(session, Wrapped(Quasiquote, k, Wrapped(Unquote, k, Reader(UnquoteSplicing, x))), d, n) == Err(InvalidSyntax)
  {
    BalancedTower(session, k, Reader(Unquote, x), d, n);
    BalancedTower(session, k, Reader(UnquoteSplicing, x), d, n);
    hide Wrapped, Headed;
    BareMark(session, x, d - 1, n);
    hide ExpandForm;
  }

  lemma BareMark(session: string, x: SExpr, d: nat, n: nat)
    requires d > 0
    ensures ExpandForm(session, Reader(Unquote, x), d, n) == Err(InvalidSyntax)
    ensures ExpandForm(session, Reader(UnquoteSplicing, x), d, n) == Err(InvalidSyntax)
  {
  }

  /** A quote in a template is returned as code, so evaluating the template drops the quote. */
  lemma QuoteInTemplate(session: string, x: SExpr, d: nat, n: nat)
    requires d > 0
    ensures ExpandForm(session, Reader(Quasiquote, Reader(Quote, x)), d, n) == Ok(Expanded(Reader(Quote, x), n))
    ensures var listed := Proper([Sym("quote"), x]);
      ExpandForm(session, Reader(Quasiquote, listed), d, n) == Ok(Expanded(listed, n))
  {
    TemplateOf(session, Reader(Quote, x), d, n);
    OneMark(session, Quote, x, 1, d - 1, n);
    TemplateOf(session, Proper([Sym("quote"), x]), d, n);
    ListedQuote(session, x, d - 1, n);
    hide ExpandForm, ExpandQuasiquote;
  }

  lemma ListedQuote(session: string, x: SExpr, d: nat, n: nat)
    ensures ExpandQuasiquote(session, Proper([Sym("quote"), x]), 1, d, n) == Ok(Expanded(Proper([Sym("quote"), x]), n))
  {
    hide ExpandForm;
    var listed := Proper([Sym("quote"), x]);
    assert ListHead(listed.elems, None) == Head(Quote, x);
    assert QuasiHead(session, listed, Quote, x, 1, d, n) == Ok(Expanded(listed, n));
    assert QuasiOfList(session, listed, listed.elems, None, 1, d, n) == QuasiHead(session, listed, Quote, x, 1, d, n) by {
      hide QuasiHead;
    }
    assert ExpandQuasiquote(session, listed, 1, d, n) == QuasiOfList(session, listed, listed.elems, None, 1, d, n) by {
      hide QuasiOfList, QuasiHead;
    }
  }

  /** Splicing where there is nothing to splice into is an error; deeper down it stays a form. */
  lemma SpliceInTemplate(session: string, x: SExpr, d: nat, n: nat)
    requires d > 0
    ensures ExpandForm(session, Reader(Quasiquote, Reader(UnquoteSplicing, x)), d, n) == Err(InvalidSyntax)
    ensures !x.List? && !x.Vector? && !x.Reader? ==>
      ExpandForm(session, Reader(Quasiquote, Reader(Quasiquote, Reader(UnquoteSplicing, x))), d, n)
        == Ok(Expanded(Proper([Sym("unquote-splicing"), Proper([Sym("quote"), x])]), n))
  {
    TemplateOf(session, Reader(UnquoteSplicing, x), d, n);
    OneMark(session, UnquoteSplicing, x, 1, d - 1, n);
    TemplateOf(session, Reader(Quasiquote, Reader(UnquoteSplicing, x)), d, n);
    OneMark(session, Quasiquote, Reader(UnquoteSplicing, x), 1, d - 1, n);
    OneMark(session, UnquoteSplicing, x, 2, d - 1, n);
    hide ExpandForm;
    assert MakeQuote(x) == Proper([Sym("quote"), x]);
    assert Form("unquote-splicing", [MakeQuote(x)]) == Proper([Sym("unquote-splicing"), MakeQuote(x)]);
  }

  // ---- progn ----

  /** `progn` expands as `begin` does, and keeps its name. */
  lemma PrognIsBegin(session: string, xs: seq<SExpr>, d: nat, n: nat)
    ensures ExpandForm(session, Form("progn", xs), d, n).Ok? <==> ExpandForm(session, Form("begin", xs), d, n).Ok?
    ensures ExpandForm(session, Form("progn", xs), d, n).Err? ==>
      ExpandForm(session, Form("progn", xs), d, n) == ExpandForm(session, Form("begin", xs), d, n)
    ensures ExpandForm(session, Form("progn", xs), d, n).Ok? ==>
      var p, b := ExpandForm(session, Form("progn", xs), d, n).value, ExpandForm(session, Form("begin", xs), d, n).value;
      exists ys :: p == Expanded(Proper([Sym("progn")] + ys), b.counter) && b.value == Proper([Sym("begin")] + ys)
  {
    if d == 0 {
      FormTooDeep(session, Form("progn", xs), n);
      FormTooDeep(session, Form("begin", xs), n);
      hide ExpandForm;
    } else {
      FormIsSpecial(session, "progn", xs, d, n);
      FormIsSpecial(session, "begin", xs, d, n);
      hide ExpandForm, ExpandAll;
      assert ([Sym("progn")] + xs)[1..] == xs && ([Sym("begin")] + xs)[1..] == xs;
      var r := ExpandAll(session, xs, d - 1, n);
      if r.Ok? {
        var p, b := ExpandForm(session, Form("progn", xs), d, n).value, ExpandForm(session, Form("begin", xs), d, n).value;
        assert p == Expanded(Proper([Sym("progn")] + r.value.value), b.counter) && b.value == Proper([Sym("begin")] + r.value.value);
      }
    }
  }

  // ---- Procedures defined in a body ----

  /** `(define (f parameter ... . tail) body ...)` */
  function ProcedureSpelled(f: string, params: seq<SExpr>, tail: Option<SExpr>, body: seq<SExpr>): SExpr {
    Proper([Sym("define"), List([Sym(f)] + params, tail)] + body)
  }

  /** `(define f (lambda formals body ...))` */
  function LambdaSpelled(f: string, params: seq<SExpr>, tail: Option<SExpr>, body: seq<SExpr>): SExpr {
    var formals := if params == [] && tail.Some? && tail.value.Sym? then tail.value else List(params, tail);
    Proper([Sym("define"), Sym(f), Proper([Sym("lambda"), formals] + body)])
  }

  lemma SpellingsDefineTheSame(f: string, params: seq<SExpr>, tail: Option<SExpr>, body: seq<SExpr>)
    requires body != []
    ensures IsDefine(ProcedureSpelled(f, params, tail, body)) && IsDefine(LambdaSpelled(f, params, tail, body))
    ensures DefinedPair(ProcedureSpelled(f, params, tail, body)) == DefinedPair(LambdaSpelled(f, params, tail, body))
  {
    hide IsReserved;
    var x := ProcedureSpelled(f, params, tail, body);
    var sig := List([Sym(f)] + params, tail);
    assert sig.elems[1..] == params && x.elems[2..] == body && x.elems[1] == sig;
    var formals := SignatureFormals(sig);
    assert Form("lambda", [formals] + body) == Proper([Sym("lambda"), formals] + body);
  }

  lemma {:induction false} SpellingsLeadTheSame(a: seq<SExpr>, x: SExpr, y: SExpr, b: seq<SExpr>)
    requires (forall i :: 0 <= i < |a| ==> IsDefine(a[i])) && IsDefine(x) && IsDefine(y) && DefinedPair(x) == DefinedPair(y)
    ensures LeadingDefines(a + [x] + b) == LeadingDefines(a + [y] + b)
    ensures LeadingDefines(a + [x] + b).Ok? ==> |LeadingDefines(a + [x] + b).value| > |a|
  {
    hide DefinedPair;
    if a == [] {
      assert (a + [x] + b)[1..] == b && (a + [y] + b)[1..] == b;
    } else {
      hide IsDefine;
      assert (a + [x] + b)[1..] == a[1..] + [x] + b && (a + [y] + b)[1..] == a[1..] + [y] + b;
      SpellingsLeadTheSame(a[1..], x, y, b);
    }
  }

  /** Among the defines a body starts with, both spellings of a procedure expand alike. */
  lemma EitherSpelling(
    session: string, formals: SExpr, a: seq<SExpr>, f: string, params: seq<SExpr>, tail: Option<SExpr>, body: seq<SExpr>,
    b: seq<SExpr>, d: nat, n: nat)
    requires body != [] && forall i :: 0 <= i < |a| ==> IsDefine(a[i])
    ensures
      var x, y := ProcedureSpelled(f, params, tail, body), LambdaSpelled(f, params, tail, body);
      ExpandForm(session, Form("lambda", [formals] + (a + [x] + b)), d, n)
        == ExpandForm(session, Form("lambda", [formals] + (a + [y] + b)), d, n)
  {
    hide *;
    var x, y := ProcedureSpelled(f, params, tail, body), LambdaSpelled(f, params, tail, body);
    SpellingsDefineTheSame(f, params, tail, body);
    SpellingsLeadTheSame(a, x, y, b);
    var xs, ys := a + [x] + b, a + [y] + b;
    RewritesAlike(a, x, y, b);
    if d == 0 {
      FormTooDeep(session, Form("lambda", [formals] + xs), n);
      FormTooDeep(session, Form("lambda", [formals] + ys), n);
    } else {
      LambdaForm(session, [formals] + xs, d, n);
      LambdaForm(session, [formals] + ys, d, n);
      SameLambda(session, formals, xs, ys, d - 1, n);
    }
  }

  lemma RewritesAlike(a: seq<SExpr>, x: SExpr, y: SExpr, b: seq<SExpr>)
    requires LeadingDefines(a + [x] + b) == LeadingDefines(a + [y] + b)
    requires LeadingDefines(a + [x] + b).Ok? ==> |LeadingDefines(a + [x] + b).value| > |a|
    ensures RewriteDefines(a + [x] + b) == RewriteDefines(a + [y] + b)
    ensures RewriteDefines(a + [x] + b).Ok? ==> RewriteDefines(a + [x] + b).value.Some?
  {
    hide LeadingDefines;
    var r := LeadingDefines(a + [x] + b);
    if r.Ok? {
      var k := |r.value|;
      assert (a + [x] + b)[k..] == (a + [y] + b)[k..];
    }
  }

  lemma SameLambda(session: string, formals: SExpr, xs: seq<SExpr>, ys: seq<SExpr>, d: nat, n: nat)
    requires |xs| == |ys| && RewriteDefines(xs) == RewriteDefines(ys)
    requires RewriteDefines(xs).Ok? ==> RewriteDefines(xs).value.Some?
    ensures HandleLambda(session, [Sym("lambda")] + ([formals] + xs), d, n)
      == HandleLambda(session, [Sym("lambda")] + ([formals] + ys), d, n)
  {
    hide RewriteDefines, ParseFormals, ExpandForm, ExpandAll;
    assert ([Sym("lambda")] + ([formals] + xs))[2..] == xs && ([Sym("lambda")] + ([formals] + ys))[2..] == ys;
  }

  // ---- Parameters ----

  /** Names a lambda may have as its parameters. */
  predicate AreParameters(names: seq<string>) {
    && (forall i :: 0 <= i < |names| ==> !IsReserved(names[i]))
    && forall i, j :: 0 <= i < j < |names| ==> names[i] != names[j]
  }

  /** What is wrong with one more parameter. */
  function ParameterFault(names: seq<string>, x: SExpr): Option<ExpandError> {
    if !x.Sym? then Some(InvalidSyntax)
    else if IsReserved(x.name) then Some(ReservedKeyword)
    else if x.name in names then Some(DuplicateIdentifier)
    else None
  }

  lemma {:induction false} NamesThenFault(names: seq<string>, x: SExpr, more: seq<SExpr>, seen: set<string>)
    requires AreParameters(names) && forall i :: 0 <= i < |names| ==> names[i] !in seen
    requires !x.Sym? || IsReserved(x.name) || x.name in names || x.name in seen
    ensures
      var all := LeadingSymbols(Symbols(names) + [x] + more);
      ValidateNames(all, seen) ==
        if !x.Sym? then None else if IsReserved(x.name) then Some(ReservedKeyword) else Some(DuplicateIdentifier)
    ensures !x.Sym? ==> |LeadingSymbols(Symbols(names) + [x] + more)| == |names|
    decreases names
  {
    hide IsReserved;
    var xs := Symbols(names) + [x] + more;
    if names == [] {
      assert xs == [x] + more;
    } else {
      assert xs[1..] == Symbols(names[1..]) + [x] + more;
      assert AreParameters(names[1..]);
      NamesThenFault(names[1..], x, more, seen + {names[0]});
    }
  }

  /** The first faulty parameter is the error, whatever comes after it. */
  lemma FirstFaultyParameter(
    session: string, names: seq<string>, x: SExpr, more: seq<SExpr>, tail: Option<SExpr>, body: seq<SExpr>, d: nat, n: nat)
    requires d > 0 && body != [] && AreParameters(names) && ParameterFault(names, x).Some?
    ensures ExpandForm(session, Form("lambda", [List(Symbols(names) + [x] + more, tail)] + body), d, n)
      == Err(ParameterFault(names, x).value)
  {
    hide IsReserved, ExpandForm;
    var formals := List(Symbols(names) + [x] + more, tail);
    NamesThenFault(names, x, more, {});
    hide AreParameters, LeadingSymbols, ValidateNames;
    assert ParseFormals(formals) == Err(ParameterFault(names, x).value);
    LambdaForm(session, [formals] + body, d, n);
    hide ParseFormals;
    assert ([Sym("lambda")] + ([formals] + body))[1] == formals;
  }

  lemma {:induction false} NamesAreValid(names: seq<string>, seen: set<string>)
    requires AreParameters(names) && forall i :: 0 <= i < |names| ==> names[i] !in seen
    ensures LeadingSymbols(Symbols(names)) == names && ValidateNames(names, seen) == None
    decreases names
  {
    hide IsReserved;
    if names != [] {
      assert Symbols(names)[1..] == Symbols(names[1..]);
      assert AreParameters(names[1..]);
      NamesAreValid(names[1..], seen + {names[0]});
    }
  }

  /** After good parameters the rest parameter decides; formals are a list or a name, and a name is not reserved. */
  lemma FaultyFormals(session: string, names: seq<string>, x: SExpr, body: seq<SExpr>, d: nat, n: nat)
    requires d > 0 && body != [] && AreParameters(names)
    ensures ParameterFault(names, x).Some? ==>
      ExpandForm(session, Form("lambda", [List(Symbols(names), Some(x))] + body), d, n) == Err(ParameterFault(names, x).value)
    ensures !x.List? && ParameterFault([], x).Some? ==>
      ExpandForm(session, Form("lambda", [x] + body), d, n) == Err(ParameterFault([], x).value)
  {
    hide IsReserved, ExpandForm, AreParameters, LeadingSymbols, ValidateNames;
    NamesAreValid(names, {});
    var dotted := List(Symbols(names), Some(x));
    LambdaForm(session, [dotted] + body, d, n);
    LambdaForm(session, [x] + body, d, n);
    assert ParameterFault(names, x).Some? ==> ParseFormals(dotted) == Err(ParameterFault(names, x).value);
    assert !x.List? && ParameterFault([], x).Some? ==> ParseFormals(x) == Err(ParameterFault([], x).value);
    hide ParseFormals, ParameterFault;
    assert ([Sym("lambda")] + ([dotted] + body))[1] == dotted && ([Sym("lambda")] + ([x] + body))[1] == x;
  }

  // ---- Forms refused at sight ----

  predicate IsListAt(args: seq<SExpr>, i: nat) {
    i < |args| && args[i].List?
  }

  /** Forms refused before anything inside them is looked at. */
  predicate IsBroken(head: string, args: seq<SExpr>) {
    if head == "if" then |args| < 2 || |args| > 3
    else if head == "set!" then |args| != 2 || !args[0].Sym?
    else if head == "lambda" then |args| < 2
    else if head == "let" then |args| < 2 || (!args[0].List? && !(args[0].Sym? && args[1].List?))
    else if head == "let*" || head == "letrec" then |args| < 2 || !args[0].List?
    else if head == "cond" || head == "case" || head == "when" || head == "unless" then args == []
    else if head == "do" then !IsListAt(args, 0) || !IsListAt(args, 1) || args[1].elems == []
    else if head == "unquote" || head == "unquote-splicing" then |args| == 1
    else
      && head == "define"
      && (|args| < 2 || (!args[0].Sym? && (!args[0].List? || args[0].elems == [] || !args[0].elems[0].Sym?)))
  }

  predicate IsQuoteName(head: string) {
    head == "quote" || head == "quasiquote" || head == "unquote" || head == "unquote-splicing"
  }

  lemma BrokenFails(session: string, head: string, args: seq<SExpr>, d: nat, n: nat)
    requires d > 0 && IsBroken(head, args)
    ensures ExpandForm(session, Form(head, args), d, n) == Err(InvalidSyntax)
  {
    hide ExpandForm, Special, IsBroken, IsSpecial;
    HeadIsSpecial(head, args);
    BrokenHeads(head, args);
    FormIsSpecial(session, head, args, d, n);
    if head == "if" || head == "set!" || head == "lambda" || head == "define" || IsQuoteName(head) {
      BrokenCore(session, head, args, d - 1, n);
    } else {
      BrokenDerived(session, head, args, d - 1, n);
    }
  }

  lemma HeadIsSpecial(head: string, args: seq<SExpr>)
    requires IsBroken(head, args)
    ensures IsSpecial(head)
  {
  }

  lemma BrokenHeads(head: string, args: seq<SExpr>)
    requires IsBroken(head, args)
    ensures head == "if" || head == "set!" || head == "lambda" || head == "define" || IsQuoteName(head)
      || head in {"let", "let*", "letrec", "cond", "case", "when", "unless", "do"}
  {
  }

  lemma BrokenCore(session: string, head: string, args: seq<SExpr>, d: nat, n: nat)
    requires IsBroken(head, args)
    requires head == "if" || head == "set!" || head == "lambda" || head == "define" || IsQuoteName(head)
    ensures Special(session, head, [Sym(head)] + args, d, n) == Err(InvalidSyntax)
  {
    hide ExpandForm, ExpandAll, HandleLet, HandleLetStar, HandleLetrec, HandleCond, HandleCase, HandleWhen, HandleDo,
      HandleAnd, HandleOr, ExpandQuasiquote, HandleBegin, ParseFormals, RewriteDefines, IsReserved;
    var xs := [Sym(head)] + args;
    assert |args| > 0 ==> xs[1] == args[0];
  }

  lemma BrokenDerived(session: string, head: string, args: seq<SExpr>, d: nat, n: nat)
    requires IsBroken(head, args)
    requires head in {"let", "let*", "letrec", "cond", "case", "when", "unless", "do"}
    ensures Special(session, head, [Sym(head)] + args, d, n) == Err(InvalidSyntax)
  {
    hide ExpandForm, ExpandAll, RegularLet, NamedLet, CondFrom, CaseFrom, HandleIf, HandleSet, HandleLambda, HandleDefine,
      HandleAnd, HandleOr, ExpandQuasiquote, HandleBegin, HandleQuoteLike, ParseLetPairs, ParseDoVars, Sequence;
    var xs := [Sym(head)] + args;
    assert |args| > 0 ==> xs[1] == args[0];
    assert |args| > 1 ==> xs[2] == args[1];
  }

  /** The quote forms take one operand each. */
  lemma QuoteArity(session: string, head: string, args: seq<SExpr>, d: nat, n: nat)
    requires d > 0 && IsQuoteName(head) && |args| != 1
    ensures ExpandForm(session, Form(head, args), d, n) == Err(ArityError)
  {
    FormIsSpecial(session, head, args, d, n);
    hide ExpandForm;
  }

  /** A reserved name cannot be defined. */
  lemma ReservedDefinition(session: string, name: string, x: SExpr, body: seq<SExpr>, d: nat, n: nat)
    requires d > 0 && IsReserved(name) && body != []
    ensures ExpandForm(session, Form("define", [Sym(name), x]), d, n) == Err(ReservedKeyword)
    ensures ExpandForm(session, Form("define", [Proper([Sym(name)])] + body), d, n) == Err(ReservedKeyword)
  {
    hide IsReserved;
    FormIsSpecial(session, "define", [Sym(name), x], d, n);
    FormIsSpecial(session, "define", [Proper([Sym(name)])] + body, d, n);
    hide ExpandForm;
  }

  /** Nor can it be bound by `let`, `letrec` or `do`. */
  lemma ReservedBinding(session: string, name: string, x: SExpr, body: seq<SExpr>, d: nat, n: nat)
    requires d > 0 && IsReserved(name) && body != []
    ensures
      var bindings := Proper([Proper([Sym(name), x])]);
      && ExpandForm(session, Form("let", [bindings] + body), d, n) == Err(InvalidLetBindings)
      && ExpandForm(session, Form("letrec", [bindings] + body), d, n) == Err(InvalidLetBindings)
      && ExpandForm(session, Form("do", [bindings, Proper([x])] + body), d, n) == Err(ReservedKeyword)
  {
    hide ExpandForm, IsReserved;
    var bindings := Proper([Proper([Sym(name), x])]);
    LetForm(session, [bindings] + body, d, n);
    LetrecForm(session, [bindings] + body, d, n);
    DoForm(session, [bindings, Proper([x])] + body, d, n);
  }

  // ---- Names with a meaning of their own ----

  /**
   A macro template keeps exactly the heads that have a handler, and all but one of them are
   reserved; the other reserved names are these six.
   */
  lemma KeywordsAreHeads(name: string)
    ensures IsStructuralKeyword(name) <==> IsSpecial(name)
    ensures IsReserved(name) <==>
      || (IsSpecial(name) && name != "letrec*")
      || name in {"prefix", "call-with-current-continuation", "call/cc", "dynamic-wind", "values", "call-with-values"}
  {
  }
}
