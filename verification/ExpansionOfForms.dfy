/**
 The expander produces core forms: whenever expanding a program succeeds, the result is the text
 of a core program that desugars it. One lemma for each form.
 */
module ExpansionOfForms {
  import opened Wrappers
  import opened SExprs
  import opened Expanders
  import opened ExpanderHeads
  import opened Programs
  import opened Reexpansion
  import opened Desugaring
  import opened Expansion

  /** Whatever an expression expands to is the text of a core program for it. */
  lemma {:induction false} ExpandsToCore(session: string, e: Expr, d: nat, n: nat) returns (c: Core)
    requires Shaped(e) && ExpandForm(session, Text(e), d, n).Ok?
    ensures Gives(session, e, ExpandForm(session, Text(e), d, n), c)
    decreases Size(e), 2
  {
    hide Gives, Shaped, Text, ExpandForm;
    match e
    case Lit(_) => c := AtomExpands(session, e, d, n);
    case Ref(_) => c := AtomExpands(session, e, d, n);
    case QuoteOf(_, _) => c := QuoteExpands(session, e, d, n);
    case If(_, _, _) => c := IfExpands(session, e, d, n);
    case OneArmed(_, _) => c := OneArmedExpands(session, e, d, n);
    case Begin(_) => c := BeginExpands(session, e, d, n);
    case Lambda(_, _, _) => c := LambdaExpands(session, e, d, n);
    case Assign(_, _) => c := AssignExpands(session, e, d, n);
    case App(_, _) => c := AppExpands(session, e, d, n);
    case Let(_, _, _) => c := LetExpands(session, e, d, n);
    case LoopLet(_, _, _, _) => c := LoopLetExpands(session, e, d, n);
    case LetStar(_, _, _) => c := LetStarExpands(session, e, d, n);
    case Letrec(_, _, _) => c := LetrecExpands(session, e, d, n);
    case And(_) => c := AndExpands(session, e, d, n);
    case Or(_) => c := OrExpands(session, e, d, n);
    case When(_, _) => c := WhenExpands(session, e, d, n);
    case Unless(_, _) => c := WhenExpands(session, e, d, n);
    case Cond(_, _) => c := CondExpands(session, e, d, n);
    case Case(_, _, _) => c := CaseExpands(session, e, d, n);
    case Do(_, _, _, _, _, _, _) => c := DoExpands(session, e, d, n);
    case Quasi(_, _) => c := QuasiExpands(session, e, d, n);
  }

  lemma {:induction false} AllExpandToCore(session: string, es: seq<Expr>, d: nat, n: nat) returns (cs: seq<Core>)
    requires AllShaped(es) && ExpandAll(session, Texts(es), d, n).Ok?
    ensures AllGive(session, es, ExpandAll(session, Texts(es), d, n), cs)
    decreases AllSize(es), 0
  {
    hide ExpandForm, ExpandAll, Text, Shaped, Desugars, CoreShaped, CoreText;
    if es == [] {
      NoForms(session, d, n);
      cs := [];
    } else {
      OneMoreForm(session, Text(es[0]), Texts(es[1..]), d, n);
      var c := ExpandsToCore(session, es[0], d, n);
      var more := AllExpandToCore(session, es[1..], d, ExpandForm(session, Text(es[0]), d, n).value.counter);
      cs := [c] + more;
      assert cs[1..] == more;
    }
  }

  // ---- Atoms, quote, if, begin, set!, application ----

  lemma AtomExpands(session: string, e: Expr, d: nat, n: nat) returns (c: Core)
    requires e.Lit? || e.Ref?
    requires Shaped(e) && ExpandForm(session, Text(e), d, n).Ok?
    ensures Gives(session, e, ExpandForm(session, Text(e), d, n), c)
  {
    c := if e.Lit? then CLit(e.datum) else CRef(User(e.name));
  }

  lemma QuoteExpands(session: string, e: Expr, d: nat, n: nat) returns (c: Core)
    requires e.QuoteOf? && ExpandForm(session, Text(e), d, n).Ok?
    ensures Gives(session, e, ExpandForm(session, Text(e), d, n), c)
  {
    c := CQuote(e.datum);
    if d == 0 {
      FormTooDeep(session, Text(e), n);
    } else if !e.short {
      hide ExpandForm;
      QuoteForm(session, [e.datum], d, n);
      QuoteStays(session, e.datum, d - 1, n);
    }
  }

  lemma {:induction false} BeginExpands(session: string, e: Expr, d: nat, n: nat) returns (c: Core)
    requires e.Begin? && Shaped(e) && ExpandForm(session, Text(e), d, n).Ok?
    ensures Gives(session, e, ExpandForm(session, Text(e), d, n), c)
    decreases Size(e), 0
  {
    hide ExpandForm, ExpandAll;
    if d == 0 {
      FormTooDeep(session, Text(e), n);
    }
    var xs := Texts(e.body);
    BeginForm(session, xs, d, n);
    assert ([Sym("begin")] + xs)[1..] == xs;
    var cs := AllExpandToCore(session, e.body, d - 1, n);
    c := CBegin(cs);
    assert SequenceDesugars(e.body, c);
    assert HandleBegin(session, [Sym("begin")] + xs, d - 1, n).value.value == Form("begin", CoreTexts(session, cs));
  }

  lemma {:induction false} IfExpands(session: string, e: Expr, d: nat, n: nat) returns (c: Core)
    requires e.If? && Shaped(e) && ExpandForm(session, Text(e), d, n).Ok?
    ensures Gives(session, e, ExpandForm(session, Text(e), d, n), c)
    decreases Size(e), 0
  {
    hide ExpandForm, ExpandAll;
    if d == 0 {
      FormTooDeep(session, Text(e), n);
    }
    var t, y, o := Text(e.test), Text(e.yes), Text(e.no);
    IfForm(session, [t, y, o], d, n);
    assert ([Sym("if")] + [t, y, o])[1..] == [t, y, o];
    EachOfThree(session, t, y, o, d - 1, n);
    var a := ExpandsToCore(session, e.test, d - 1, n);
    var n1 := ExpandForm(session, t, d - 1, n).value.counter;
    var b := ExpandsToCore(session, e.yes, d - 1, n1);
    var z := ExpandsToCore(session, e.no, d - 1, ExpandForm(session, y, d - 1, n1).value.counter);
    c := CIf(a, b, z);
    assert BranchDesugars(e, c);
    var ys := [CoreText(session, a), CoreText(session, b), CoreText(session, z)];
    assert [Sym("if")] + ys + [] == [Sym("if")] + ys;
  }

  lemma {:induction false} OneArmedExpands(session: string, e: Expr, d: nat, n: nat) returns (c: Core)
    requires e.OneArmed? && Shaped(e) && ExpandForm(session, Text(e), d, n).Ok?
    ensures Gives(session, e, ExpandForm(session, Text(e), d, n), c)
    decreases Size(e), 0
  {
    hide ExpandForm, ExpandAll;
    if d == 0 {
      FormTooDeep(session, Text(e), n);
    }
    var t, y := Text(e.test), Text(e.yes);
    IfForm(session, [t, y], d, n);
    assert ([Sym("if")] + [t, y])[1..] == [t, y];
    EachOfTwo(session, t, y, d - 1, n);
    var a := ExpandsToCore(session, e.test, d - 1, n);
    var b := ExpandsToCore(session, e.yes, d - 1, ExpandForm(session, t, d - 1, n).value.counter);
    c := CIf(a, b, EMPTY_BEGIN);
    assert BranchDesugars(e, c);
    EmptyBegin(session);
    var ys := [CoreText(session, a), CoreText(session, b)];
    var xs := [Sym("if")] + [t, y];
    assert |xs| == 3 && [xs[0]] + ys + [MakeBegin([])] == [Sym("if")] + [ys[0], ys[1], MakeBegin([])];
    assert CoreText(session, c) == Form("if", [ys[0], ys[1], MakeBegin([])]);
  }

  lemma EmptyBegin(session: string)
    ensures CoreText(session, EMPTY_BEGIN) == MakeBegin([]) && CoreShaped(session, EMPTY_BEGIN)
  {
    assert CoreTexts(session, []) == [] && AllCoreShaped(session, []);
  }

  /** Expanding two forms is expanding one after the other. */
  lemma EachOfTwo(session: string, x: SExpr, y: SExpr, d: nat, n: nat)
    requires ExpandAll(session, [x, y], d, n).Ok?
    ensures var a := ExpandForm(session, x, d, n);
      a.Ok? && var b := ExpandForm(session, y, d, a.value.counter);
      b.Ok? && ExpandAll(session, [x, y], d, n) == Ok(Expanded([a.value.value, b.value.value], b.value.counter))
  {
    hide ExpandForm, ExpandAll;
    assert [x] + ([y] + []) == [x, y];
    OneMoreForm(session, x, [y] + [], d, n);
    var a := ExpandForm(session, x, d, n).value;
    OneMoreForm(session, y, [], d, a.counter);
    var b := ExpandForm(session, y, d, a.counter).value;
    NoForms(session, d, b.counter);
    assert [a.value] + ([b.value] + []) == [a.value, b.value];
  }

  lemma EachOfThree(session: string, x: SExpr, y: SExpr, z: SExpr, d: nat, n: nat)
    requires ExpandAll(session, [x, y, z], d, n).Ok?
    ensures var a := ExpandForm(session, x, d, n);
      a.Ok? && var b := ExpandForm(session, y, d, a.value.counter);
      b.Ok? && var c := ExpandForm(session, z, d, b.value.counter);
      c.Ok? && ExpandAll(session, [x, y, z], d, n) == Ok(Expanded([a.value.value, b.value.value, c.value.value], c.value.counter))
  {
    hide ExpandForm, ExpandAll;
    assert [x] + [y, z] == [x, y, z];
    OneMoreForm(session, x, [y, z], d, n);
    var a := ExpandForm(session, x, d, n).value;
    EachOfTwo(session, y, z, d, a.counter);
    var b := ExpandForm(session, y, d, a.counter).value;
    var c := ExpandForm(session, z, d, b.counter).value;
    assert [a.value] + [b.value, c.value] == [a.value, b.value, c.value];
  }

  lemma {:induction false} AssignExpands(session: string, e: Expr, d: nat, n: nat) returns (c: Core)
    requires e.Assign? && Shaped(e) && ExpandForm(session, Text(e), d, n).Ok?
    ensures Gives(session, e, ExpandForm(session, Text(e), d, n), c)
    decreases Size(e), 0
  {
    hide ExpandForm;
    if d == 0 {
      FormTooDeep(session, Text(e), n);
    }
    SetForm(session, [Sym(e.name), Text(e.value)], d, n);
    var v := ExpandsToCore(session, e.value, d - 1, n);
    c := CSet(User(e.name), v);
  }

  lemma {:induction false} AppExpands(session: string, e: Expr, d: nat, n: nat) returns (c: Core)
    requires e.App? && Shaped(e) && ExpandForm(session, Text(e), d, n).Ok?
    ensures Gives(session, e, ExpandForm(session, Text(e), d, n), c)
    decreases Size(e), 0
  {
    hide ExpandForm, ExpandAll;
    if d == 0 {
      FormTooDeep(session, Text(e), n);
    }
    var f, xs := Text(e.fn), Texts(e.args);
    var all := [f] + xs;
    assert all[0] == f && all[1..] == xs;
    OperatorIsNoKeyword(e.fn);
    FormIsApplication(session, all, d, n);
    OneMoreForm(session, f, xs, d - 1, n);
    var g := ExpandsToCore(session, e.fn, d - 1, n);
    var cs := AllExpandToCore(session, e.args, d - 1, ExpandForm(session, f, d - 1, n).value.counter);
    c := CApp(g, cs);
  }

  /** The text of an expression is a keyword symbol for no expression. */
  lemma OperatorIsNoKeyword(e: Expr)
    requires Shaped(e)
    ensures Text(e).Sym? ==> !IsSpecial(Text(e).name)
  {
  }

  // ---- Lambda ----

  lemma UserTexts(session: string, names: seq<string>, rest: Option<string>)
    ensures VarTexts(session, Users(names)) == names
    ensures CoreFormals(session, Users(names), UserRest(rest)) == FormalsText(names, rest)
  {
    assert VarTexts(session, Users(names)) == names;
  }

  lemma TextIsNoDefine(e: Expr)
    requires Shaped(e)
    ensures !IsDefine(Text(e))
  {
    if e.App? {
      OperatorIsNoKeyword(e.fn);
    }
  }

  lemma BodyIsNotRewritten(body: seq<Expr>)
    requires AllShaped(body)
    ensures RewriteDefines(Texts(body)) == Ok(None)
  {
    hide Text, Shaped, IsDefine;
    if body != [] {
      TextIsNoDefine(body[0]);
    }
  }

  lemma {:induction false} PlainBodyExpands(
    session: string, params: seq<string>, rest: Option<string>, body: seq<Expr>, d: nat, n: nat) returns (cs: seq<Core>)
    requires AllShaped(body)
    requires HandleLambda(session, [Sym("lambda")] + ([FormalsText(params, rest)] + Texts(body)), d, n).Ok?
    ensures var c := CLambda(Users(params), UserRest(rest), cs);
      && HandleLambda(session, [Sym("lambda")] + ([FormalsText(params, rest)] + Texts(body)), d, n).value.value
        == CoreText(session, c)
      && AllDesugar(body, cs) && CoreShaped(session, c)
    decreases AllSize(body), 1
  {
    hide ExpandAll, ParseFormals, RewriteDefines, FormalsText, CoreFormals, Texts, CoreTexts, AllCoreShaped, AllDesugar, AllShaped;
    var formals, ys := FormalsText(params, rest), Texts(body);
    var xs := [Sym("lambda")] + ([formals] + ys);
    assert xs[1] == formals && xs[2..] == ys;
    BodyIsNotRewritten(body);
    UserTexts(session, params, rest);
    LambdaNeedsFormals(session, formals, ys, d, n);
    var fm := ParseFormals(formals).value;
    cs := AllExpandToCore(session, body, d, n + |fm.fixed| + (if fm.rest.Some? then 1 else 0));
    assert |cs| > 0 by { SameLength(body, cs); }
  }

  lemma {:induction false} DefinesAreRead(names: seq<string>, xs: seq<SExpr>, rest: seq<SExpr>)
    requires |names| == |xs| && LeadingDefines(DefineTexts(names, xs) + rest).Ok? && LeadingDefines(rest) == Ok([])
    ensures LeadingDefines(DefineTexts(names, xs) + rest).value == Zip(names, xs)
    ensures (DefineTexts(names, xs) + rest)[|names|..] == rest
  {
    hide IsReserved, DefinedPair;
    var ds := DefineTexts(names, xs);
    if names == [] {
      assert ds + rest == rest;
    } else {
      DefineIsPair(names[0], xs[0]);
      assert (ds + rest)[1..] == DefineTexts(names[1..], xs[1..]) + rest;
      DefinesAreRead(names[1..], xs[1..], rest);
      assert Zip(names, xs) == [Pair(names[0], xs[0])] + Zip(names[1..], xs[1..]);
      assert (ds + rest)[|names|..] == (ds + rest)[1..][|names| - 1..];
    }
  }

  lemma DefineIsPair(name: string, x: SExpr)
    ensures IsDefine(Form("define", [Sym(name), x]))
    ensures DefinedPair(Form("define", [Sym(name), x])).Ok? ==> DefinedPair(Form("define", [Sym(name), x])) == Ok(Pair(name, x))
  {
  }

  lemma DefsAreLetrec(names: seq<string>, xs: seq<SExpr>, body: seq<Expr>)
    requires |names| == |xs| && names != [] && AllShaped(body)
    requires RewriteDefines(DefineTexts(names, xs) + Texts(body)).Ok?
    ensures RewriteDefines(DefineTexts(names, xs) + Texts(body))
      == Ok(Some(Form("letrec", [Proper(PairTexts(names, xs))] + Texts(body))))
  {
    hide LeadingDefines, PairTexts, BindingList, DefineTexts;
    var ys := Texts(body);
    BodyIsNotRewritten(body);
    NoLeading(ys);
    DefinesAreRead(names, xs, ys);
    BindingTexts(names, xs);
  }

  lemma NoLeading(ys: seq<SExpr>)
    requires RewriteDefines(ys) == Ok(None)
    ensures LeadingDefines(ys) == Ok([])
  {
  }

  lemma LambdaWithRest(session: string, params: seq<Var>, rest: Option<Var>, body: seq<Core>)
    ensures CoreText(session, CLambda(params, rest, body))
      == MakeLambda(CoreFormals(session, params, rest), CoreTexts(session, body))
    ensures CoreShaped(session, CLambda(params, rest, body)) <==>
      body != [] && AllCoreShaped(session, body) && ParseFormals(CoreFormals(session, params, rest)).Ok?
  {
    hide ParseFormals;
  }

  lemma RewrittenLambda(
    session: string, formals: SExpr, names: seq<string>, xs: seq<SExpr>, body: seq<Expr>, d: nat, n: nat) returns (n1: nat)
    requires |names| == |xs| && names != [] && AllShaped(body)
    requires HandleLambda(session, [Sym("lambda")] + ([formals] + (DefineTexts(names, xs) + Texts(body))), d, n).Ok?
    ensures ParseFormals(formals).Ok?
    ensures var y := ExpandForm(session, Form("letrec", [Proper(PairTexts(names, xs))] + Texts(body)), d, n1);
      y.Ok? && HandleLambda(session, [Sym("lambda")] + ([formals] + (DefineTexts(names, xs) + Texts(body))), d, n)
        == Ok(Expanded(MakeLambda(formals, [y.value.value]), y.value.counter))
  {
    hide ExpandForm, ExpandAll, ParseFormals, RewriteDefines, PairTexts, DefineTexts, Texts;
    var ys := DefineTexts(names, xs) + Texts(body);
    var all := [Sym("lambda")] + ([formals] + ys);
    assert all[1] == formals && all[2..] == ys;
    DefsAreLetrec(names, xs, body);
    var fm := ParseFormals(formals).value;
    n1 := n + |fm.fixed| + (if fm.rest.Some? then 1 else 0);
  }

  lemma PlainTexts(body: Block)
    requires body.names == []
    ensures BlockTexts(body) == Texts(body.exprs)
  {
    assert [] + Texts(body.exprs) == Texts(body.exprs);
  }

  /** A lambda around a body, with or without internal definitions. */
  lemma {:induction false} LambdaBodyExpands(
    session: string, params: seq<string>, rest: Option<string>, body: Block, d: nat, n: nat) returns (cs: seq<Core>)
    requires BlockShaped(body)
    requires HandleLambda(session, [Sym("lambda")] + ([FormalsText(params, rest)] + BlockTexts(body)), d, n).Ok?
    ensures var c := CLambda(Users(params), UserRest(rest), cs);
      && HandleLambda(session, [Sym("lambda")] + ([FormalsText(params, rest)] + BlockTexts(body)), d, n).value.value
        == CoreText(session, c)
      && BlockDesugars(body, cs) && CoreShaped(session, c)
    decreases BlockSize(body), 1
  {
    hide HandleLambda, HandleLetrec, ExpandForm, CoreText, CoreShaped, LetrecDesugars, FormalsText, CoreFormals, ParseFormals,
      AllShaped, AllDesugar, BlockTexts, AllSize;
    if body.names == [] {
      PlainTexts(body);
      cs := PlainBodyExpands(session, params, rest, body.exprs, d, n);
    } else {
      cs := DefsBodyExpands(session, params, rest, body, d, n);
    }
  }

  lemma {:induction false} DefsBodyExpands(
    session: string, params: seq<string>, rest: Option<string>, body: Block, d: nat, n: nat) returns (cs: seq<Core>)
    requires BlockShaped(body) && body.names != []
    requires HandleLambda(session, [Sym("lambda")] + ([FormalsText(params, rest)] + BlockTexts(body)), d, n).Ok?
    ensures var c := CLambda(Users(params), UserRest(rest), cs);
      && HandleLambda(session, [Sym("lambda")] + ([FormalsText(params, rest)] + BlockTexts(body)), d, n).value.value
        == CoreText(session, c)
      && |cs| == 1 && LetrecDesugars(body.names, body.inits, body.exprs, cs[0]) && CoreShaped(session, c)
    decreases BlockSize(body), 0
  {
    hide ExpandForm, HandleLambda, HandleLetrec, CoreText, CoreShaped, LetrecDesugars, FormalsText, CoreFormals, ParseFormals,
      AllShaped, AllSize;
    var formals := FormalsText(params, rest);
    var xs, ys := Texts(body.inits), Texts(body.exprs);
    var n1 := RewrittenLambda(session, formals, body.names, xs, body.exprs, d, n);
    var x := Form("letrec", [Proper(PairTexts(body.names, xs))] + ys);
    if d == 0 {
      FormTooDeep(session, x, n1);
    }
    LetrecForm(session, [Proper(PairTexts(body.names, xs))] + ys, d, n1);
    var c := LetrecPartsExpand(session, body.names, body.inits, body.exprs, d - 1, n1);
    cs := [c];
    UserTexts(session, params, rest);
    OneText(session, c);
    LambdaWithRest(session, Users(params), UserRest(rest), cs);
  }

  lemma {:induction false} SameLength(es: seq<Expr>, cs: seq<Core>)
    requires AllDesugar(es, cs)
    ensures |es| == |cs|
  {
  }

  lemma {:induction false} LambdaExpands(session: string, e: Expr, d: nat, n: nat) returns (c: Core)
    requires e.Lambda? && Shaped(e) && ExpandForm(session, Text(e), d, n).Ok?
    ensures Gives(session, e, ExpandForm(session, Text(e), d, n), c)
    decreases Size(e), 0
  {
    hide ExpandForm, HandleLambda, CoreShaped, CoreText;
    if d == 0 {
      FormTooDeep(session, Text(e), n);
    }
    LambdaForm(session, [FormalsText(e.params, e.rest)] + BlockTexts(e.block), d, n);
    var cs := LambdaBodyExpands(session, e.params, e.rest, e.block, d - 1, n);
    c := CLambda(Users(e.params), UserRest(e.rest), cs);
  }

  // ---- let, let*, letrec ----

  lemma {:induction false} LetPartsExpand(
    session: string, names: seq<string>, inits: seq<Expr>, body: Block, d: nat, n: nat) returns (c: Core)
    requires |names| == |inits| && AllShaped(inits) && BlockShaped(body)
    requires RegularLet(session, PairTexts(names, Texts(inits)), BlockTexts(body), d, n).Ok?
    ensures RegularLet(session, PairTexts(names, Texts(inits)), BlockTexts(body), d, n).value.value == CoreText(session, c)
    ensures LetDesugars(names, inits, body, c) && CoreShaped(session, c)
    decreases AllSize(inits) + BlockSize(body) + 1, 0
  {
    hide RegularLet, BlockTexts, BlockShaped, BlockDesugars, HandleLambda, ExpandAll, PairTexts, Texts, AllShaped, AllDesugar, AllCoreShaped, CoreTexts, FormalsText, AllSize;
    var xs, ys := Texts(inits), BlockTexts(body);
    LetHalves(session, names, xs, ys, d, n);
    var args := AllExpandToCore(session, inits, d, n);
    NoRest(names);
    var cs := LambdaBodyExpands(session, names, None, body, d, ExpandAll(session, xs, d, n).value.counter);
    c := CApp(CLambda(Users(names), None, cs), args);
  }

  lemma NoRest(names: seq<string>)
    ensures FormalsText(names, None) == Proper(Symbols(names))
  {
  }

  lemma {:induction false} LetExpands(session: string, e: Expr, d: nat, n: nat) returns (c: Core)
    requires e.Let? && Shaped(e) && ExpandForm(session, Text(e), d, n).Ok?
    ensures Gives(session, e, ExpandForm(session, Text(e), d, n), c)
    decreases Size(e), 0
  {
    hide ExpandForm, RegularLet, CoreShaped, CoreText;
    if d == 0 {
      FormTooDeep(session, Text(e), n);
    }
    var ps, ys := PairTexts(e.names, Texts(e.inits)), BlockTexts(e.block);
    LetForm(session, [Proper(ps)] + ys, d, n);
    LetIsRegular(session, ps, ys, d - 1, n);
    c := LetPartsExpand(session, e.names, e.inits, e.block, d - 1, n);
    assert BinderDesugars(e, c);
  }

  lemma LetIsRegular(session: string, ps: seq<SExpr>, ys: seq<SExpr>, d: nat, n: nat)
    requires ys != [] || HandleLet(session, [Sym("let")] + ([Proper(ps)] + ys), d, n).Ok?
    ensures HandleLet(session, [Sym("let")] + ([Proper(ps)] + ys), d, n) == RegularLet(session, ps, ys, d, n)
  {
    hide RegularLet, NamedLet;
    var xs := [Sym("let")] + ([Proper(ps)] + ys);
    assert xs[1] == Proper(ps) && xs[2..] == ys;
  }

  lemma {:induction false} LetStarExpands(session: string, e: Expr, d: nat, n: nat) returns (c: Core)
    requires e.LetStar? && Shaped(e) && ExpandForm(session, Text(e), d, n).Ok?
    ensures Gives(session, e, ExpandForm(session, Text(e), d, n), c)
    decreases Size(e), 1
  {
    hide ExpandForm, RegularLet, HandleLetStar, CoreShaped, CoreText;
    if d == 0 {
      FormTooDeep(session, Text(e), n);
    }
    var ps, ys := PairTexts(e.names, Texts(e.inits)), BlockTexts(e.block);
    LetStarForm(session, [Proper(ps)] + ys, d, n);
    if e.names == [] {
      LetStarOfNothing(session, ys, d - 1, n);
      assert PairTexts([], Texts([])) == [];
      c := LetPartsExpand(session, [], [], e.block, d - 1, n);
    } else {
      c := LetStarStep(session, e, d - 1, n);
    }
    assert BinderDesugars(e, c);
  }

  lemma LetStarOfNothing(session: string, ys: seq<SExpr>, d: nat, n: nat)
    requires ys != [] || HandleLetStar(session, [Sym("let*")] + ([Proper([])] + ys), d, n).Ok?
    ensures HandleLetStar(session, [Sym("let*")] + ([Proper([])] + ys), d, n) == RegularLet(session, [], ys, d, n)
  {
    hide RegularLet, NamedLet, HandleLet;
    var xs := [Sym("let*")] + ([Proper([])] + ys);
    assert xs[1] == Proper([]) && xs[2..] == ys;
    LetIsRegular(session, [], ys, d, n);
  }

  function InnerLetStar(e: Expr): Expr
    requires e.LetStar? && |e.names| == |e.inits| && e.names != []
  {
    LetStar(e.names[1..], e.inits[1..], e.block)
  }

  lemma {:induction false} LetStarStep(session: string, e: Expr, d: nat, n: nat) returns (c: Core)
    requires e.LetStar? && Shaped(e) && |e.names| == |e.inits| && e.names != []
    requires HandleLetStar(session, [Sym("let*")] + ([Proper(PairTexts(e.names, Texts(e.inits)))] + BlockTexts(e.block)), d, n).Ok?
    ensures HandleLetStar(session, [Sym("let*")] + ([Proper(PairTexts(e.names, Texts(e.inits)))] + BlockTexts(e.block)), d, n).value.value
      == CoreText(session, c)
    ensures LetStarDesugars(e.names, e.inits, e.block, c) && CoreShaped(session, c)
    decreases Size(e), 0
  {
    hide RegularLet, HandleLetStar, HandleLambda, ExpandAll, Texts, CoreText, CoreShaped, Text, FormalsText, Shaped, LetStarDesugars, AllDesugar;
    var inner, name, init := InnerLetStar(e), e.names[0], e.inits[0];
    LetStarParts(session, e);
    LetStarPeels(session, PairTexts(e.names, Texts(e.inits)), BlockTexts(e.block), name, Text(init), d, n);
    var body := Texts([inner]);
    LetHalves(session, [name], [Text(init)], body, d, n);
    var args := AllExpandToCore(session, [init], d, n);
    NoRest([name]);
    var cs := PlainBodyExpands(session, [name], None, [inner], d, ExpandAll(session, [Text(init)], d, n).value.counter);
    c := CApp(CLambda(Users([name]), None, cs), args);
    LetStarCore(session, e, args, cs);
    AppCore(session, CLambda(Users([name]), None, cs), args);
  }

  lemma AppCore(session: string, f: Core, args: seq<Core>)
    ensures CoreText(session, CApp(f, args)) == Proper([CoreText(session, f)] + CoreTexts(session, args))
    ensures CoreShaped(session, CApp(f, args)) <==> CoreShaped(session, f) && AllCoreShaped(session, args)
  {
  }

  lemma LetStarParts(session: string, e: Expr)
    requires e.LetStar? && Shaped(e) && |e.names| == |e.inits| && e.names != []
    ensures AllShaped([e.inits[0]]) && AllShaped([InnerLetStar(e)])
    ensures AllSize([e.inits[0]]) < Size(e) && AllSize([InnerLetStar(e)]) < Size(e)
    ensures Texts([e.inits[0]]) == [Text(e.inits[0])]
    ensures Texts([InnerLetStar(e)]) == [Text(InnerLetStar(e))]
    ensures Text(InnerLetStar(e)) == Form("let*", [Proper(PairTexts(e.names[1..], Texts(e.inits[1..])))] + BlockTexts(e.block))
    ensures PairTexts(e.names, Texts(e.inits)) ==
      [Proper([Sym(e.names[0]), Text(e.inits[0])])] + PairTexts(e.names[1..], Texts(e.inits[1..]))
  {
    var init, inner := e.inits[0], InnerLetStar(e);
    assert [init][1..] == [] && [inner][1..] == [];
    assert Size(init) >= 1;
    assert Texts(e.inits)[1..] == Texts(e.inits[1..]);
  }

  lemma LetStarPeels(session: string, ps: seq<SExpr>, ys: seq<SExpr>, name: string, init: SExpr, d: nat, n: nat)
    requires ps != [] && ps[0] == Proper([Sym(name), init])
    requires ys != [] || HandleLetStar(session, [Sym("let*")] + ([Proper(ps)] + ys), d, n).Ok?
    ensures HandleLetStar(session, [Sym("let*")] + ([Proper(ps)] + ys), d, n)
      == RegularLet(session, PairTexts([name], [init]), [Form("let*", [Proper(ps[1..])] + ys)], d, n)
  {
    hide RegularLet, NamedLet, HandleLet;
    var xs := [Sym("let*")] + ([Proper(ps)] + ys);
    assert xs[1] == Proper(ps) && xs[2..] == ys;
    var inner := Form("let*", [Proper(ps[1..])] + ys);
    var one := [Proper([Sym(name), init])];
    assert PairTexts([name], [init]) == one by { assert [name][1..] == [] && [init][1..] == []; }
    assert HandleLetStar(session, xs, d, n) == HandleLet(session, Form("let", [Proper(one), inner]).elems, d, n);
    assert [Proper(one)] + [inner] == [Proper(one), inner];
    LetIsRegular(session, one, [inner], d, n);
  }

  lemma LetStarCore(session: string, e: Expr, args: seq<Core>, cs: seq<Core>)
    requires e.LetStar? && |e.names| == |e.inits| && e.names != []
    requires AllDesugar([e.inits[0]], args) && AllDesugar([InnerLetStar(e)], cs)
    ensures LetStarDesugars(e.names, e.inits, e.block, CApp(CLambda(Users([e.names[0]]), None, cs), args))
  {
    assert Users([e.names[0]]) == [User(e.names[0])];
    assert |args| == 1 && |cs| == 1;
    BinderOf(InnerLetStar(e), cs[0]);
  }

  lemma {:induction false} LetrecPartsExpand(
    session: string, names: seq<string>, inits: seq<Expr>, body: seq<Expr>, d: nat, n: nat) returns (c: Core)
    requires |names| == |inits| && AllShaped(inits) && AllShaped(body)
    requires HandleLetrec(session, [Sym("letrec")] + ([Proper(PairTexts(names, Texts(inits)))] + Texts(body)), d, n).Ok?
    ensures HandleLetrec(session, [Sym("letrec")] + ([Proper(PairTexts(names, Texts(inits)))] + Texts(body)), d, n).value.value
      == CoreText(session, c)
    ensures LetrecDesugars(names, inits, body, c) && CoreShaped(session, c)
    decreases AllSize(inits) + AllSize(body) + 1, 0
  {
    hide HandleLetrec, RegularLet, Distinct, ExpandAll, PairTexts, Texts, AllShaped, AllDesugar, AllCoreShaped, CoreTexts, AllSize, BindingList, Sets;
    LetrecHalves(session, names, Texts(inits), Texts(body), d, n);
    var as_ := AllExpandToCore(session, inits, d, n);
    var n1 := ExpandAll(session, Texts(inits), d, n).value.counter;
    var bs := AllExpandToCore(session, body, d, n1);
    SameLength(inits, as_);
    assert body != [];
    UserTexts(session, names, None);
    CoreLetrecResult(session, Users(names), as_, bs, d, ExpandAll(session, Texts(body), d, n1).value.counter);
    c := CoreLetrec(Users(names), as_, bs);
    CoreLetrecIsLetrec(Users(names), as_, bs);
  }

  lemma LetrecHalves(session: string, names: seq<string>, xs: seq<SExpr>, ys: seq<SExpr>, d: nat, n: nat)
    requires |names| == |xs|
    requires HandleLetrec(session, [Sym("letrec")] + ([Proper(PairTexts(names, xs))] + ys), d, n).Ok?
    ensures Distinct(names) && ys != []
    ensures var inits := ExpandAll(session, xs, d, n);
      inits.Ok? && var body := ExpandAll(session, ys, d, inits.value.counter);
      body.Ok? && HandleLetrec(session, [Sym("letrec")] + ([Proper(PairTexts(names, xs))] + ys), d, n) ==
        RegularLet(session, BindingList(Placeholders(names)),
          [MakeBegin(Sets(names, inits.value.value) + body.value.value)], d, body.value.counter)
  {
    hide RegularLet, ExpandAll, PairTexts, ParseLetPairs, BindingList;
    var all := [Sym("letrec")] + ([Proper(PairTexts(names, xs))] + ys);
    assert all[1] == Proper(PairTexts(names, xs)) && all[2..] == ys;
    PairsReadBack(names, xs, {});
  }

  lemma {:induction false} LetrecExpands(session: string, e: Expr, d: nat, n: nat) returns (c: Core)
    requires e.Letrec? && Shaped(e) && ExpandForm(session, Text(e), d, n).Ok?
    ensures Gives(session, e, ExpandForm(session, Text(e), d, n), c)
    decreases Size(e), 0
  {
    hide ExpandForm, HandleLetrec, CoreShaped, CoreText;
    if d == 0 {
      FormTooDeep(session, Text(e), n);
    }
    LetrecForm(session, [Proper(PairTexts(e.names, Texts(e.inits)))] + Texts(e.body), d, n);
    c := LetrecPartsExpand(session, e.names, e.inits, e.body, d - 1, n);
    assert BinderDesugars(e, c);
  }

  // ---- and, or, when, unless ----

  lemma {:induction false} AndExpands(session: string, e: Expr, d: nat, n: nat) returns (c: Core)
    requires e.And? && Shaped(e) && ExpandForm(session, Text(e), d, n).Ok?
    ensures Gives(session, e, ExpandForm(session, Text(e), d, n), c)
    decreases Size(e), 0
  {
    hide ExpandForm, HandleAnd, CoreShaped, CoreText, AndDesugars;
    if d == 0 {
      FormTooDeep(session, Text(e), n);
    }
    var xs := Texts(e.tests);
    AndForm(session, xs, d, n);
    assert ([Sym("and")] + xs)[1..] == xs;
    c := OperandsOfAnd(session, e.tests, d - 1, n);
  }

  lemma {:induction false} OperandsOfAnd(session: string, es: seq<Expr>, d: nat, n: nat) returns (c: Core)
    requires AllShaped(es) && HandleAnd(session, Texts(es), d, n).Ok?
    ensures HandleAnd(session, Texts(es), d, n).value.value == CoreText(session, c)
    ensures AndDesugars(es, c) && CoreShaped(session, c)
    decreases AllSize(es), 0
  {
    hide ExpandForm, Text, Shaped, Desugars;
    if es == [] {
      c := CLit(Bool(true));
    } else if |es| == 1 {
      c := ExpandsToCore(session, es[0], d, n);
    } else {
      var xs := Texts(es);
      assert xs[0] == Text(es[0]) && xs[1..] == Texts(es[1..]);
      var test := ExpandsToCore(session, es[0], d, n);
      var rest := OperandsOfAnd(session, es[1..], d, ExpandForm(session, xs[0], d, n).value.counter);
      c := CIf(test, rest, CLit(Bool(false)));
    }
  }

  lemma {:induction false} OrExpands(session: string, e: Expr, d: nat, n: nat) returns (c: Core)
    requires e.Or? && Shaped(e) && ExpandForm(session, Text(e), d, n).Ok?
    ensures Gives(session, e, ExpandForm(session, Text(e), d, n), c)
    decreases Size(e), 0
  {
    hide ExpandForm, HandleOr, CoreShaped, CoreText, OrDesugars;
    if d == 0 {
      FormTooDeep(session, Text(e), n);
    }
    var xs := Texts(e.tests);
    OrForm(session, xs, d, n);
    assert ([Sym("or")] + xs)[1..] == xs;
    c := OperandsOfOr(session, e.tests, d - 1, n);
  }

  lemma {:induction false} OperandsOfOr(session: string, es: seq<Expr>, d: nat, n: nat) returns (c: Core)
    requires AllShaped(es) && HandleOr(session, Texts(es), d, n).Ok?
    ensures HandleOr(session, Texts(es), d, n).value.value == CoreText(session, c)
    ensures OrDesugars(es, c) && CoreShaped(session, c)
    decreases AllSize(es), 0
  {
    hide ExpandForm, RegularLet, Text, Shaped, Desugars, HandleOr, CoreText;
    var xs := Texts(es);
    OrCases(session, xs, d, n);
    if es == [] {
      c := CLit(Bool(false));
      assert CoreText(session, c) == Bool(false) by { LitText(session, Bool(false)); }
    } else if |es| == 1 {
      c := ExpandsToCore(session, es[0], d, n);
    } else {
      assert xs[0] == Text(es[0]) && xs[1..] == Texts(es[1..]);
      var init := ExpandsToCore(session, es[0], d, n);
      var n1 := ExpandForm(session, xs[0], d, n).value.counter;
      var rest := OperandsOfOr(session, es[1..], d, n1 + 1);
      c := CoreOrStep(session, Temp(OrTemp, n1), init, rest, d, HandleOr(session, xs[1..], d, n1 + 1).value.counter);
    }
  }

  lemma LitText(session: string, x: SExpr)
    ensures CoreText(session, CLit(x)) == x
  {
  }

  /** The three cases of `or`, the last of which binds a temporary. */
  lemma OrCases(session: string, xs: seq<SExpr>, d: nat, n: nat)
    requires HandleOr(session, xs, d, n).Ok?
    ensures xs == [] ==> HandleOr(session, xs, d, n) == Ok(Expanded(Bool(false), n))
    ensures |xs| == 1 ==> HandleOr(session, xs, d, n) == ExpandForm(session, xs[0], d, n)
    ensures |xs| > 1 ==>
      var init := ExpandForm(session, xs[0], d, n);
      init.Ok? && var rest := HandleOr(session, xs[1..], d, init.value.counter + 1);
      rest.Ok? && var t := VarText(session, Temp(OrTemp, init.value.counter));
      HandleOr(session, xs, d, n) == RegularLet(session, BindingList([Pair(t, init.value.value)]),
        [MakeIf(Sym(t), Sym(t), rest.value.value)], d, rest.value.counter)
  {
    hide ExpandForm, RegularLet, BindingList;
  }

  lemma {:induction false} WhenExpands(session: string, e: Expr, d: nat, n: nat) returns (c: Core)
    requires (e.When? || e.Unless?) && Shaped(e) && ExpandForm(session, Text(e), d, n).Ok?
    ensures Gives(session, e, ExpandForm(session, Text(e), d, n), c)
    decreases Size(e), 0
  {
    hide ExpandForm, HandleWhen, CoreText, CoreShaped, Text, Texts, Shaped;
    if d == 0 {
      FormTooDeep(session, Text(e), n);
    }
    WhenText(e);
    var t, ys := Text(e.test), Texts(e.body);
    if e.When? {
      WhenForm(session, [t] + ys, d, n);
    } else {
      UnlessForm(session, [t] + ys, d, n);
    }
    var head := Sym(if e.When? then "when" else "unless");
    WhenSteps(session, e.When?, [head] + ([t] + ys), t, ys, d - 1, n);
    var test := ExpandsToCore(session, e.test, d - 1, n);
    var body := SequenceExpands(session, e.body, d - 1, ExpandForm(session, t, d - 1, n).value.counter);
    EmptyBegin(session);
    c := if e.When? then CIf(test, body, EMPTY_BEGIN) else CIf(test, EMPTY_BEGIN, body);
    assert BranchDesugars(e, c);
    IfTextAndShape(session, c);
  }

  lemma WhenText(e: Expr)
    requires (e.When? || e.Unless?) && Shaped(e)
    ensures Text(e) == Form(if e.When? then "when" else "unless", [Text(e.test)] + Texts(e.body))
    ensures Shaped(e.test) && AllShaped(e.body)
  {
  }

  lemma WhenSteps(session: string, positive: bool, xs: seq<SExpr>, t: SExpr, ys: seq<SExpr>, d: nat, n: nat)
    requires |xs| >= 2 && xs[1..] == [t] + ys && HandleWhen(session, positive, xs, d, n).Ok?
    ensures var a := ExpandForm(session, t, d, n);
      a.Ok? && var b := Sequence(session, ys, d, a.value.counter);
      b.Ok? && HandleWhen(session, positive, xs, d, n).value.value ==
        if positive then MakeIf(a.value.value, b.value.value, MakeBegin([])) else MakeIf(a.value.value, MakeBegin([]), b.value.value)
  {
    hide ExpandForm, Sequence;
    assert xs[1] == xs[1..][0] == t && xs[2..] == xs[1..][1..] == ys;
  }

  lemma IfTextAndShape(session: string, c: Core)
    requires c.CIf?
    ensures CoreText(session, c) == MakeIf(CoreText(session, c.test), CoreText(session, c.yes), CoreText(session, c.no))
    ensures CoreShaped(session, c) <==> CoreShaped(session, c.test) && CoreShaped(session, c.yes) && CoreShaped(session, c.no)
  {
  }

  lemma {:induction false} SequenceExpands(session: string, body: seq<Expr>, d: nat, n: nat) returns (c: Core)
    requires AllShaped(body) && Sequence(session, Texts(body), d, n).Ok?
    ensures Sequence(session, Texts(body), d, n).value.value == CoreText(session, c)
    ensures SequenceDesugars(body, c) && CoreShaped(session, c)
    decreases AllSize(body), 1
  {
    hide ExpandAll;
    var cs := AllExpandToCore(session, body, d, n);
    c := CBegin(cs);
  }

  // ---- cond ----

  lemma {:induction false} CondExpands(session: string, e: Expr, d: nat, n: nat) returns (c: Core)
    requires e.Cond? && Shaped(e) && ExpandForm(session, Text(e), d, n).Ok?
    ensures Gives(session, e, ExpandForm(session, Text(e), d, n), c)
    decreases Size(e), 0
  {
    hide ExpandForm, CondFrom, CoreShaped, CoreText, CondDesugars;
    if d == 0 {
      FormTooDeep(session, Text(e), n);
    }
    var ys := ClauseTexts(e.clauses) + ElseText(e.otherwise);
    var xs := [Sym("cond")] + ys;
    assert xs[1..] == ys;
    CondForm(session, ys, d, n);
    c := ClausesExpand(session, xs, 1, e.clauses, e.otherwise, d - 1, n);
  }

  /** The clauses from `i` on. */
  lemma {:induction false} ClausesExpand(
    session: string, xs: seq<SExpr>, i: nat, cls: seq<Clause>, o: Otherwise, d: nat, n: nat) returns (c: Core)
    requires i <= |xs| && xs[i..] == ClauseTexts(cls) + ElseText(o)
    requires AllClausesShaped(cls) && OtherwiseShaped(o) && CondFrom(session, xs, i, d, n).Ok?
    ensures CondFrom(session, xs, i, d, n).value.value == CoreText(session, c)
    ensures CondDesugars(cls, o, c) && CoreShaped(session, c)
    decreases ClausesSize(cls) + OtherwiseSize(o) + 1, 0
  {
    hide ExpandForm, CondClause, ClauseText, ClauseShaped, ClauseDesugars, Sequence, CoreText, CoreShaped, OtherwiseDesugars;
    if cls == [] {
      assert ClauseTexts(cls) + ElseText(o) == ElseText(o);
      c := ElseExpands(session, xs, i, o, d, n);
    } else {
      assert xs[i..][0] == xs[i] && xs[i..][1..] == xs[i + 1..];
      assert (ClauseTexts(cls) + ElseText(o))[1..] == ClauseTexts(cls[1..]) + ElseText(o);
      var rest := ClausesExpand(session, xs, i + 1, cls[1..], o, d, n);
      var r := CondFrom(session, xs, i + 1, d, n).value;
      c := ClauseExpands(session, cls[0], i + 1 == |xs|, rest, d, r.counter);
    }
  }

  lemma {:induction false} ElseExpands(session: string, xs: seq<SExpr>, i: nat, o: Otherwise, d: nat, n: nat) returns (c: Core)
    requires i <= |xs| && xs[i..] == ElseText(o)
    requires OtherwiseShaped(o) && CondFrom(session, xs, i, d, n).Ok?
    ensures CondFrom(session, xs, i, d, n).value.value == CoreText(session, c)
    ensures OtherwiseDesugars(o, c) && CoreShaped(session, c)
    decreases OtherwiseSize(o), 0
  {
    hide ExpandForm, Sequence;
    EmptyBegin(session);
    if o.NoElse? {
      assert i == |xs|;
      c := EMPTY_BEGIN;
    } else {
      var ys := Texts(o.body);
      assert xs[i..][0] == xs[i] && |xs| == i + 1;
      assert ([Sym("else")] + ys)[1..] == ys;
      c := SequenceExpands(session, o.body, d, n);
    }
  }

  lemma {:induction false} ClauseExpands(session: string, cl: Clause, last: bool, rest: Core, d: nat, n: nat) returns (c: Core)
    requires ClauseShaped(cl) && CoreShaped(session, rest)
    requires CondClause(session, ClauseText(cl), last, CoreText(session, rest), d, n).Ok?
    ensures CondClause(session, ClauseText(cl), last, CoreText(session, rest), d, n).value.value == CoreText(session, c)
    ensures ClauseDesugars(cl, c) && c.no == rest && CoreShaped(session, c)
    decreases ClauseSize(cl), 0
  {
    hide ExpandForm, Sequence, SequenceDesugars;
    var t, ys := Text(cl.test), Texts(cl.body);
    var xs := [t] + ys;
    assert xs[0] == t && xs[1..] == ys && xs[1] == Text(cl.body[0]);
    TextIsNoSymbol(cl.test, "else");
    TextIsNoSymbol(cl.body[0], "=>");
    var test := ExpandsToCore(session, cl.test, d, n);
    var body := SequenceExpands(session, cl.body, d, ExpandForm(session, t, d, n).value.counter);
    c := CIf(test, body, rest);
  }

  /** Only the variable of that name is spelled as the symbol. */
  lemma TextIsNoSymbol(e: Expr, name: string)
    requires Shaped(e) && e != Ref(name)
    ensures !IsSymbolNamed(Text(e), name)
  {
  }

  // ---- case ----

  lemma EqvCoreText(session: string, key: Var, datum: SExpr)
    requires key.Temp?
    ensures CoreText(session, EqvCore(key, datum)) == EqvTest(VarText(session, key), datum)
    ensures CoreShaped(session, EqvCore(key, datum))
  {
    TempIsNoKeyword(session, key.hint, key.counter);
    var k, q := CRef(key), CQuote(datum);
    assert [k, q][1..] == [q] && [q][1..] == [];
    assert CoreTexts(session, [k, q]) == [CoreText(session, k), CoreText(session, q)];
    assert CoreShaped(session, q);
    assert AllCoreShaped(session, []);
    assert AllCoreShaped(session, [q]);
    assert [Sym("eqv?")] + [CoreText(session, k), CoreText(session, q)] == [Sym("eqv?"), CoreText(session, k), CoreText(session, q)];
  }

  function KeyTestText(key: string, data: seq<SExpr>): SExpr
    requires data != []
  {
    if |data| == 1 then EqvTest(key, data[0]) else Form("or", EqvTests(key, data))
  }

  /** The key test is expanded when the enclosing let expands its body. */
  lemma KeyTestExpands(session: string, key: Var, data: seq<SExpr>, d: nat, n: nat) returns (c: Core)
    requires key.Temp? && data != [] && ExpandForm(session, KeyTestText(VarText(session, key), data), d, n).Ok?
    ensures ExpandForm(session, KeyTestText(VarText(session, key), data), d, n).value.value == CoreText(session, c)
    ensures IsKeyTest(key, data, c) && CoreShaped(session, c)
  {
    hide ExpandForm, HandleOr, CoreText, VarText, EqvTests;
    var x := KeyTestText(VarText(session, key), data);
    if |data| == 1 {
      EqvCoreText(session, key, data[0]);
      c := EqvCore(key, data[0]);
      ReexpansionIsIdentity(session, c, d, n);
    } else {
      if d == 0 {
        FormTooDeep(session, x, n);
      }
      var xs := EqvTests(VarText(session, key), data);
      OrForm(session, xs, d, n);
      assert ([Sym("or")] + xs)[1..] == xs;
      c := OperandsOfKeyTest(session, key, data, d - 1, n);
    }
  }

  lemma {:induction false} OperandsOfKeyTest(session: string, key: Var, data: seq<SExpr>, d: nat, n: nat) returns (c: Core)
    requires key.Temp? && data != [] && HandleOr(session, EqvTests(VarText(session, key), data), d, n).Ok?
    ensures HandleOr(session, EqvTests(VarText(session, key), data), d, n).value.value == CoreText(session, c)
    ensures IsKeyTest(key, data, c) && CoreShaped(session, c)
    decreases |data|
  {
    hide ExpandForm, HandleOr, CoreText, VarText, RegularLet, CoreShaped;
    var xs := EqvTests(VarText(session, key), data);
    var first := EqvCore(key, data[0]);
    OrCases(session, xs, d, n);
    EqvCoreText(session, key, data[0]);
    ReexpansionIsIdentity(session, first, d, n);
    if |data| == 1 {
      c := first;
    } else {
      assert xs[1..] == EqvTests(VarText(session, key), data[1..]);
      var n1 := ExpandForm(session, xs[0], d, n).value.counter;
      var rest := OperandsOfKeyTest(session, key, data[1..], d, n1 + 1);
      c := CoreOrStep(session, Temp(OrTemp, n1), first, rest, d, HandleOr(session, xs[1..], d, n1 + 1).value.counter);
    }
  }

  /** The conditional built from the clauses, tests not yet expanded. */
  function CaseText(session: string, key: Var, chs: seq<Choice>, bodies: seq<Core>, tail: Core): SExpr
    requires |chs| == |bodies| && NoEmptyChoice(chs)
  {
    if chs == [] then CoreText(session, tail)
    else
      MakeIf(KeyTestText(VarText(session, key), chs[0].data), CoreText(session, bodies[0]),
        CaseText(session, key, chs[1..], bodies[1..], tail))
  }

  predicate NoEmptyChoice(chs: seq<Choice>) {
    forall i :: 0 <= i < |chs| ==> chs[i].data != []
  }

  ghost predicate BodiesDesugar(session: string, chs: seq<Choice>, bodies: seq<Core>) {
    |chs| == |bodies| && (chs == [] ||
      (SequenceDesugars(chs[0].body, bodies[0]) && CoreShaped(session, bodies[0]) && BodiesDesugar(session, chs[1..], bodies[1..])))
  }

  lemma {:induction false} ChoicesExpand(
    session: string, key: Var, xs: seq<SExpr>, i: nat, chs: seq<Choice>, o: Otherwise, d: nat, n: nat)
    returns (bodies: seq<Core>, tail: Core)
    requires i <= |xs| && xs[i..] == ChoiceTexts(chs) + ElseText(o)
    requires AllChoicesShaped(chs) && OtherwiseShaped(o) && CaseFrom(session, VarText(session, key), xs, i, d, n).Ok?
    ensures NoEmptyChoice(chs) && BodiesDesugar(session, chs, bodies)
    ensures CaseFrom(session, VarText(session, key), xs, i, d, n).value.value == CaseText(session, key, chs, bodies, tail)
    ensures OtherwiseDesugars(o, tail) && CoreShaped(session, tail)
    decreases ChoicesSize(chs) + OtherwiseSize(o) + 1, 0
  {
    hide ExpandForm, CaseClause, ChoiceText, ChoiceShaped, CoreText, CoreShaped, OtherwiseDesugars, KeyTestText, SequenceDesugars, VarText;
    var name := VarText(session, key);
    if chs == [] {
      assert ChoiceTexts(chs) + ElseText(o) == ElseText(o);
      tail := CaseElseExpands(session, name, xs, i, o, d, n);
      bodies := [];
    } else {
      assert xs[i..][0] == xs[i] && xs[i..][1..] == xs[i + 1..];
      assert (ChoiceTexts(chs) + ElseText(o))[1..] == ChoiceTexts(chs[1..]) + ElseText(o);
      var more;
      more, tail := ChoicesExpand(session, key, xs, i + 1, chs[1..], o, d, n);
      var r := CaseFrom(session, name, xs, i + 1, d, n).value;
      var body := ChoiceExpands(session, name, chs[0], i + 1 == |xs|, r.value, d, r.counter);
      bodies := [body] + more;
      assert bodies[1..] == more;
      NoEmptyCons(chs);
    }
  }

  lemma NoEmptyCons(chs: seq<Choice>)
    requires chs != [] && chs[0].data != [] && NoEmptyChoice(chs[1..])
    ensures NoEmptyChoice(chs)
  {
    forall i | 0 <= i < |chs| ensures chs[i].data != [] {
      if i > 0 {
        assert chs[1..][i - 1] == chs[i];
      }
    }
  }

  lemma {:induction false} CaseElseExpands(session: string, key: string, xs: seq<SExpr>, i: nat, o: Otherwise, d: nat, n: nat)
    returns (c: Core)
    requires i <= |xs| && xs[i..] == ElseText(o)
    requires OtherwiseShaped(o) && CaseFrom(session, key, xs, i, d, n).Ok?
    ensures CaseFrom(session, key, xs, i, d, n).value.value == CoreText(session, c)
    ensures OtherwiseDesugars(o, c) && CoreShaped(session, c)
    decreases OtherwiseSize(o), 0
  {
    hide ExpandForm, Sequence;
    EmptyBegin(session);
    if o.NoElse? {
      assert i == |xs|;
      c := EMPTY_BEGIN;
    } else {
      var ys := Texts(o.body);
      assert xs[i..][0] == xs[i] && |xs| == i + 1;
      assert ([Sym("else")] + ys)[1..] == ys;
      c := SequenceExpands(session, o.body, d, n);
    }
  }

  lemma {:induction false} ChoiceExpands(session: string, key: string, ch: Choice, last: bool, rest: SExpr, d: nat, n: nat)
    returns (body: Core)
    requires ChoiceShaped(ch) && CaseClause(session, key, ChoiceText(ch), last, rest, d, n).Ok?
    ensures ch.data != [] && SequenceDesugars(ch.body, body) && CoreShaped(session, body)
    ensures CaseClause(session, key, ChoiceText(ch), last, rest, d, n).value.value
      == MakeIf(KeyTestText(key, ch.data), CoreText(session, body), rest)
    decreases ChoiceSize(ch), 0
  {
    hide Sequence, SequenceDesugars;
    var ys := Texts(ch.body);
    var xs := [Proper(ch.data)] + ys;
    assert xs[0] == Proper(ch.data) && xs[1..] == ys;
    body := SequenceExpands(session, ch.body, d, n);
  }

  /** Expanding the conditional expands its tests; the rest is core already. */
  lemma {:induction false} CaseTextExpands(
    session: string, key: Var, chs: seq<Choice>, bodies: seq<Core>, o: Otherwise, tail: Core, d: nat, n: nat) returns (c: Core)
    requires key.Temp? && NoEmptyChoice(chs) && BodiesDesugar(session, chs, bodies)
    requires OtherwiseDesugars(o, tail) && CoreShaped(session, tail)
    requires ExpandForm(session, CaseText(session, key, chs, bodies, tail), d, n).Ok?
    ensures ExpandForm(session, CaseText(session, key, chs, bodies, tail), d, n).value.value == CoreText(session, c)
    ensures CaseDesugars(key, chs, o, c) && CoreShaped(session, c)
    decreases |chs|
  {
    hide ExpandForm, ExpandAll, OtherwiseDesugars, KeyTestText, SequenceDesugars, VarText, IsKeyTest;
    var x := CaseText(session, key, chs, bodies, tail);
    if chs == [] {
      c := tail;
      ReexpansionIsIdentity(session, tail, d, n);
    } else {
      if d == 0 {
        FormTooDeep(session, x, n);
      }
      var t, b, r := KeyTestText(VarText(session, key), chs[0].data), CoreText(session, bodies[0]),
        CaseText(session, key, chs[1..], bodies[1..], tail);
      IfForm(session, [t, b, r], d, n);
      assert ([Sym("if")] + [t, b, r])[1..] == [t, b, r];
      EachOfThree(session, t, b, r, d - 1, n);
      var test := KeyTestExpands(session, key, chs[0].data, d - 1, n);
      var n1 := ExpandForm(session, t, d - 1, n).value.counter;
      ReexpansionIsIdentity(session, bodies[0], d - 1, n1);
      var rest := CaseTextExpands(session, key, chs[1..], bodies[1..], o, tail, d - 1, ExpandForm(session, b, d - 1, n1).value.counter);
      c := CIf(test, bodies[0], rest);
      var ys := [CoreText(session, test), b, CoreText(session, rest)];
      assert [Sym("if")] + ys + [] == [Sym("if")] + ys;
    }
  }

  lemma {:induction false} CaseExpands(session: string, e: Expr, d: nat, n: nat) returns (c: Core)
    requires e.Case? && Shaped(e) && ExpandForm(session, Text(e), d, n).Ok?
    ensures Gives(session, e, ExpandForm(session, Text(e), d, n), c)
    decreases Size(e), 0
  {
    hide ExpandForm, HandleCase, CaseFrom, RegularLet, CaseDesugars, CaseText, CoreText, CoreShaped, BindingList, VarText;
    if d == 0 {
      FormTooDeep(session, Text(e), n);
    }
    var rest := ChoiceTexts(e.choices) + ElseText(e.otherwise);
    CaseForm(session, [Text(e.key)] + rest, d, n);
    CaseSteps(session, Text(e.key), rest, d - 1, n);
    var xs := [Sym("case")] + ([Text(e.key)] + rest);
    var key := ExpandsToCore(session, e.key, d - 1, n);
    var k := ExpandForm(session, Text(e.key), d - 1, n).value.counter;
    var tmp := Temp(CaseTemp, k);
    var bodies, tail := ChoicesExpand(session, tmp, xs, 2, e.choices, e.otherwise, d - 1, k + 1);
    c := LetOverCase(session, tmp, key, e.choices, bodies, e.otherwise, tail, d - 1,
      CaseFrom(session, VarText(session, tmp), xs, 2, d - 1, k + 1).value.counter);
  }

  lemma CaseSteps(session: string, key: SExpr, rest: seq<SExpr>, d: nat, n: nat)
    requires HandleCase(session, [Sym("case")] + ([key] + rest), d, n).Ok?
    ensures var xs := [Sym("case")] + ([key] + rest);
      var k := ExpandForm(session, key, d, n);
      |xs| >= 2 && xs[2..] == rest && k.Ok? && var tmp := VarText(session, Temp(CaseTemp, k.value.counter));
      var r := CaseFrom(session, tmp, xs, 2, d, k.value.counter + 1);
      r.Ok? && HandleCase(session, xs, d, n)
        == RegularLet(session, BindingList([Pair(tmp, k.value.value)]), [r.value.value], d, r.value.counter)
  {
    hide ExpandForm, CaseFrom, RegularLet, BindingList;
    var xs := [Sym("case")] + ([key] + rest);
    assert xs[1] == key && xs[2..] == rest;
  }

  lemma CaseTextIsNoDefine(session: string, key: Var, chs: seq<Choice>, bodies: seq<Core>, tail: Core)
    requires |chs| == |bodies| && NoEmptyChoice(chs) && CoreShaped(session, tail)
    ensures !IsDefine(CaseText(session, key, chs, bodies, tail))
  {
    if chs == [] {
      CoreIsNoDefine(session, tail);
    }
  }

  lemma LetOverCase(
    session: string, tmp: Var, key: Core, chs: seq<Choice>, bodies: seq<Core>, o: Otherwise, tail: Core, d: nat, n: nat)
    returns (c: Core)
    requires tmp.Temp? && tmp.hint == CaseTemp && CoreShaped(session, key)
    requires NoEmptyChoice(chs) && BodiesDesugar(session, chs, bodies)
    requires OtherwiseDesugars(o, tail) && CoreShaped(session, tail)
    requires RegularLet(session, BindingList([Pair(VarText(session, tmp), CoreText(session, key))]),
      [CaseText(session, tmp, chs, bodies, tail)], d, n).Ok?
    ensures RegularLet(session, BindingList([Pair(VarText(session, tmp), CoreText(session, key))]),
      [CaseText(session, tmp, chs, bodies, tail)], d, n).value.value == CoreText(session, c)
    ensures CoreShaped(session, c) && BindsTemp(CaseTemp, c) && c.fn.params[0] == tmp && c.args[0] == key
    ensures CaseDesugars(tmp, chs, o, c.fn.body[0])
  {
    hide RegularLet, HandleLambda, ExpandAll, ExpandForm, CaseDesugars, CaseText, CoreText, CoreShaped, BindingList, VarText, OtherwiseDesugars, ParseFormals, PairTexts;
    var name, k, x := VarText(session, tmp), CoreText(session, key), CaseText(session, tmp, chs, bodies, tail);
    OneBinding(session, tmp, k);
    OneText(session, key);
    var names := VarTexts(session, [tmp]);
    LetHalves(session, names, [k], [x], d, n);
    AllFormsStay(session, [key], d, n);
    var n1 := ExpandAll(session, [k], d, n).value.counter;
    SymbolsAreFormals(session, [tmp]);
    var formals := CoreFormals(session, [tmp], None);
    LambdaNeedsFormals(session, formals, [x], d, n1);
    CaseTextIsNoDefine(session, tmp, chs, bodies, tail);
    var n2 := LambdaOfOne(session, formals, x, d, n1);
    var body := CaseTextExpands(session, tmp, chs, bodies, o, tail, d, n2);
    OneText(session, body);
    LambdaCore(session, [tmp], [body]);
    AppCore(session, CLambda([tmp], None, [body]), [key]);
    c := CApp(CLambda([tmp], None, [body]), [key]);
  }

  lemma LambdaCore(session: string, params: seq<Var>, body: seq<Core>)
    ensures CoreText(session, CLambda(params, None, body))
      == MakeLambda(CoreFormals(session, params, None), CoreTexts(session, body))
    ensures CoreShaped(session, CLambda(params, None, body)) <==>
      body != [] && AllCoreShaped(session, body) && ParseFormals(CoreFormals(session, params, None)).Ok?
  {
    hide ParseFormals;
  }

  /** A lambda with one body form, which is no define. */
  lemma LambdaOfOne(session: string, formals: SExpr, x: SExpr, d: nat, n: nat) returns (n1: nat)
    requires !IsDefine(x) && HandleLambda(session, [Sym("lambda")] + ([formals] + [x]), d, n).Ok?
    ensures var y := ExpandForm(session, x, d, n1);
      y.Ok? && HandleLambda(session, [Sym("lambda")] + ([formals] + [x]), d, n)
        == Ok(Expanded(MakeLambda(formals, [y.value.value]), y.value.counter))
  {
    hide ExpandForm, ExpandAll, ParseFormals;
    var xs := [Sym("lambda")] + ([formals] + [x]);
    assert xs[1] == formals && xs[2..] == [x];
    assert RewriteDefines([x]) == Ok(None);
    var fm := ParseFormals(formals).value;
    n1 := n + |fm.fixed| + (if fm.rest.Some? then 1 else 0);
    assert [x] + [] == [x];
    OneMoreForm(session, x, [], d, n1);
    NoForms(session, d, ExpandForm(session, x, d, n1).value.counter);
    var y := ExpandForm(session, x, d, n1).value.value;
    assert [y] + [] == [y];
  }

  // ---- Named let ----

  /** A letrec over core programs, expanded again. */
  lemma CoreHandledLetrec(session: string, vars: seq<Var>, inits: seq<Core>, body: seq<Core>, d: nat, n: nat)
    requires |vars| == |inits| && AllCoreShaped(session, inits) && AllCoreShaped(session, body)
    requires var ps := PairTexts(VarTexts(session, vars), CoreTexts(session, inits));
      HandleLetrec(session, [Sym("letrec")] + ([Proper(ps)] + CoreTexts(session, body)), d, n).Ok?
    ensures var ps := PairTexts(VarTexts(session, vars), CoreTexts(session, inits));
      HandleLetrec(session, [Sym("letrec")] + ([Proper(ps)] + CoreTexts(session, body)), d, n).value.value
        == CoreText(session, CoreLetrec(vars, inits, body))
    ensures CoreShaped(session, CoreLetrec(vars, inits, body))
  {
    hide HandleLetrec, RegularLet, ExpandAll, PairTexts, AllCoreShaped, CoreTexts, BindingList, Sets, CoreText, CoreShaped;
    var names, xs, ys := VarTexts(session, vars), CoreTexts(session, inits), CoreTexts(session, body);
    LetrecHalves(session, names, xs, ys, d, n);
    AllFormsStay(session, inits, d, n);
    var n1 := ExpandAll(session, xs, d, n).value.counter;
    AllFormsStay(session, body, d, n1);
    CoreLetrecResult(session, vars, inits, body, d, ExpandAll(session, ys, d, n1).value.counter);
  }

  lemma LoopSteps(session: string, loop: string, names: seq<string>, xs: seq<SExpr>, ys: seq<SExpr>, d: nat, n: nat)
    requires |names| == |xs|
    requires HandleLet(session, [Sym("let")] + ([Sym(loop), Proper(PairTexts(names, xs))] + ys), d, n).Ok?
    ensures loop !in names
    ensures var inits := ExpandAll(session, xs, d, n);
      inits.Ok? && var lam := HandleLambda(session, [Sym("lambda")] + ([Proper(Symbols(names))] + ys), d, inits.value.counter);
      lam.Ok? && HandleLet(session, [Sym("let")] + ([Sym(loop), Proper(PairTexts(names, xs))] + ys), d, n)
        == HandleLetrec(session, [Sym("letrec")]
          + ([Proper(PairTexts([loop], [lam.value.value]))] + [Proper([Sym(loop)] + inits.value.value)]), d, lam.value.counter)
  {
    hide ExpandAll, HandleLambda, HandleLetrec, PairTexts, ParseLetPairs, BindingList;
    var all := [Sym("let")] + ([Sym(loop), Proper(PairTexts(names, xs))] + ys);
    assert all[1] == Sym(loop) && all[2] == Proper(PairTexts(names, xs)) && all[3..] == ys;
    PairsReadBack(names, xs, {});
    var inits := ExpandAll(session, xs, d, n).value;
    var lam := HandleLambda(session, [Sym("lambda")] + ([Proper(Symbols(names))] + ys), d, inits.counter).value.value;
    BindingTexts([loop], [lam]);
    assert Zip([loop], [lam]) == [Pair(loop, lam)];
    var ps, call := Proper(PairTexts([loop], [lam])), Proper([Sym(loop)] + inits.value);
    assert [ps] + [call] == [ps, call];
  }

  lemma {:induction false} LoopLetExpands(session: string, e: Expr, d: nat, n: nat) returns (c: Core)
    requires e.LoopLet? && Shaped(e) && ExpandForm(session, Text(e), d, n).Ok?
    ensures Gives(session, e, ExpandForm(session, Text(e), d, n), c)
    decreases Size(e), 0
  {
    hide ExpandForm, HandleLet, HandleLambda, HandleLetrec, ExpandAll, CoreText, CoreShaped, PairTexts, FormalsText;
    if d == 0 {
      FormTooDeep(session, Text(e), n);
    }
    var xs, ys := Texts(e.inits), BlockTexts(e.block);
    LetForm(session, [Sym(e.loop), Proper(PairTexts(e.names, xs))] + ys, d, n);
    LoopSteps(session, e.loop, e.names, xs, ys, d - 1, n);
    var args := AllExpandToCore(session, e.inits, d - 1, n);
    var n1 := ExpandAll(session, xs, d - 1, n).value.counter;
    NoRest(e.names);
    var cs := LambdaBodyExpands(session, e.names, None, e.block, d - 1, n1);
    var lam, loop := CLambda(Users(e.names), None, cs), User(e.loop);
    var start := CApp(CRef(loop), args);
    c := LoopCore(session, loop, lam, args, d - 1,
      HandleLambda(session, [Sym("lambda")] + ([Proper(Symbols(e.names))] + ys), d - 1, n1).value.counter);
    assert LoopDesugars(loop, e.names, e.inits, e.block, lam, [start]);
    assert BinderDesugars(e, c);
  }

  /** `(letrec ((loop lam)) (loop arg ...))` over core programs. */
  lemma LoopCore(session: string, loop: Var, lam: Core, args: seq<Core>, d: nat, n: nat) returns (c: Core)
    requires CoreShaped(session, lam) && AllCoreShaped(session, args) && !IsSpecial(VarText(session, loop))
    requires var name := VarText(session, loop);
      HandleLetrec(session, [Sym("letrec")]
        + ([Proper(PairTexts([name], [CoreText(session, lam)]))] + [Proper([Sym(name)] + CoreTexts(session, args))]), d, n).Ok?
    ensures var name := VarText(session, loop);
      HandleLetrec(session, [Sym("letrec")]
        + ([Proper(PairTexts([name], [CoreText(session, lam)]))] + [Proper([Sym(name)] + CoreTexts(session, args))]), d, n).value.value
        == CoreText(session, c)
    ensures CoreShaped(session, c) && IsLetrec([loop], c)
    ensures LetrecInits([loop], c) == [lam] && LetrecBody([loop], c) == [CApp(CRef(loop), args)]
  {
    hide HandleLetrec, PairTexts, CoreText, CoreShaped;
    var start := CApp(CRef(loop), args);
    OneText(session, lam);
    AppCore(session, CRef(loop), args);
    RefCore(session, loop);
    OneText(session, start);
    assert VarTexts(session, [loop]) == [VarText(session, loop)];
    CoreHandledLetrec(session, [loop], [lam], [start], d, n);
    c := CoreLetrec([loop], [lam], [start]);
    CoreLetrecIsLetrec([loop], [lam], [start]);
  }

  lemma RefCore(session: string, v: Var)
    ensures CoreText(session, CRef(v)) == Sym(VarText(session, v))
    ensures CoreShaped(session, CRef(v)) <==> !IsSpecial(VarText(session, v))
  {
  }

  // ---- do ----

  function ZipDo(names: seq<string>, inits: seq<SExpr>, steps: seq<SExpr>): (vs: seq<DoVar>)
    requires |names| == |inits| == |steps|
    ensures |vs| == |names|
  {
    seq(|names|, i requires 0 <= i < |names| => DoVar(names[i], inits[i], steps[i]))
  }

  lemma {:induction false} DoVarsReadBack(
    names: seq<string>, xs: seq<SExpr>, steps: seq<Expr>, shown: seq<bool>, seen: set<string>)
    requires |names| == |xs| == |steps| == |shown| && HiddenStepsStay(names, steps, shown)
    requires ParseDoVars(DoVarTexts(names, xs, Texts(steps), shown), seen).Ok?
    ensures ParseDoVars(DoVarTexts(names, xs, Texts(steps), shown), seen).value == ZipDo(names, xs, Texts(steps))
  {
    hide Text, ParseDoVars;
    if names == [] {
      NoDoVars(seen);
    } else {
      var ss := Texts(steps);
      var rest := DoVarTexts(names[1..], xs[1..], ss[1..], shown[1..]);
      FirstDoVar(names[0], xs[0], ss[0], shown[0], rest, seen);
      DoVarsReadBack(names[1..], xs[1..], steps[1..], shown[1..], seen + {names[0]});
      HiddenStep(names[0], steps[0], shown[0]);
      assert ZipDo(names, xs, ss) == [DoVar(names[0], xs[0], ss[0])] + ZipDo(names[1..], xs[1..], ss[1..]);
    }
  }

  lemma NoDoVars(seen: set<string>)
    ensures ParseDoVars([], seen) == Ok([])
  {
  }

  lemma FirstDoVar(name: string, init: SExpr, step: SExpr, shown: bool, rest: seq<SExpr>, seen: set<string>)
    requires ParseDoVars([Proper([Sym(name), init] + (if shown then [step] else []))] + rest, seen).Ok?
    ensures ParseDoVars(rest, seen + {name}).Ok?
    ensures ParseDoVars([Proper([Sym(name), init] + (if shown then [step] else []))] + rest, seen).value
      == [DoVar(name, init, if shown then step else Sym(name))] + ParseDoVars(rest, seen + {name}).value
  {
    hide IsReserved;
    var v := Proper([Sym(name), init] + (if shown then [step] else []));
    var all := [v] + rest;
    assert all[0] == v && all[1..] == rest && v.elems[0] == Sym(name) && v.elems[1] == init;
  }

  lemma HiddenStep(name: string, step: Expr, shown: bool)
    requires !shown ==> step == Ref(name)
    ensures !shown ==> Text(step) == Sym(name)
  {
  }

  lemma DoParts(names: seq<string>, xs: seq<SExpr>, ss: seq<SExpr>)
    requires |names| == |xs| == |ss|
    ensures DoNames(ZipDo(names, xs, ss)) == names
    ensures DoInits(ZipDo(names, xs, ss)) == xs && DoSteps(ZipDo(names, xs, ss)) == ss
  {
  }

  /** The loop procedure, written with the loop's gensym as if it were a variable of the program. */
  function LoopProcedure(e: Expr, loop: string): Expr
    requires e.Do?
  {
    Lambda(e.names, None, Plain([If(e.test, Begin(e.exits), Begin(e.body + [App(Ref(loop), e.steps)]))]))
  }

  function LoopStart(e: Expr, loop: string): Expr
    requires e.Do?
  {
    App(Ref(loop), e.inits)
  }

  lemma DoIsLetrec(session: string, e: Expr, d: nat, n: nat)
    requires e.Do? && Shaped(e)
    requires var xs := [Sym("do")] + ([Proper(DoVarTexts(e.names, Texts(e.inits), Texts(e.steps), e.shown)),
        Proper([Text(e.test)] + Texts(e.exits))] + Texts(e.body));
      HandleDo(session, xs, d, n).Ok? || ParseDoVars(xs[1].elems, {}).Ok?
    ensures var xs := [Sym("do")] + ([Proper(DoVarTexts(e.names, Texts(e.inits), Texts(e.steps), e.shown)),
        Proper([Text(e.test)] + Texts(e.exits))] + Texts(e.body));
      var loop := VarText(session, Temp(DoTemp, n));
      HandleDo(session, xs, d, n) == HandleLetrec(session, [Sym("letrec")]
        + ([Proper(PairTexts([loop], Texts([LoopProcedure(e, loop)])))] + Texts([LoopStart(e, loop)])), d, n + 1)
  {
    hide HandleLetrec, Text, Texts, PairTexts, BindingList, DoVarTexts, ParseDoVars, Shaped, DoLambda;
    var vs, ts, ys := DoVarTexts(e.names, Texts(e.inits), Texts(e.steps), e.shown), [Text(e.test)] + Texts(e.exits), Texts(e.body);
    var xs := [Sym("do")] + ([Proper(vs), Proper(ts)] + ys);
    assert xs[1] == Proper(vs) && xs[2] == Proper(ts) && xs[3..] == ys && ts[1..] == Texts(e.exits);
    DoShape(e);
    DoVarsReadBack(e.names, Texts(e.inits), e.steps, e.shown, {});
    var vars := ZipDo(e.names, Texts(e.inits), Texts(e.steps));
    DoParts(e.names, Texts(e.inits), Texts(e.steps));
    var loop := VarText(session, Temp(DoTemp, n));
    var lam := DoLambda(loop, vars, ts[0], ts[1..], ys);
    LoopTexts(e, loop, vars);
    BindingTexts([loop], [lam]);
    assert Zip([loop], [lam]) == [Pair(loop, lam)];
    var ps, call := Proper(PairTexts([loop], [lam])), Proper([Sym(loop)] + Texts(e.inits));
    assert [ps] + [call] == [ps, call];
  }

  lemma DoShape(e: Expr)
    requires e.Do? && Shaped(e)
    ensures |e.names| == |e.inits| == |e.steps| == |e.shown| && HiddenStepsStay(e.names, e.steps, e.shown)
    ensures AllShaped(e.inits) && AllShaped(e.steps) && Shaped(e.test) && AllShaped(e.exits) && AllShaped(e.body)
    ensures Size(e) == 60 + AllSize(e.inits) + AllSize(e.steps) + Size(e.test) + AllSize(e.exits) + AllSize(e.body)
  {
  }

  lemma {:induction false} TextsSnoc(es: seq<Expr>, e: Expr)
    ensures Texts(es + [e]) == Texts(es) + [Text(e)]
    ensures AllShaped(es) && Shaped(e) ==> AllShaped(es + [e])
    ensures AllSize(es + [e]) == AllSize(es) + 1 + Size(e)
  {
    hide Text, Shaped, Size;
    if es == [] {
      assert [e][1..] == [] && es + [e] == [e];
    } else {
      assert (es + [e])[1..] == es[1..] + [e];
      TextsSnoc(es[1..], e);
    }
  }

  lemma OneExpr(e: Expr)
    ensures Texts([e]) == [Text(e)] && (AllShaped([e]) <==> Shaped(e)) && AllSize([e]) == 1 + Size(e)
  {
    assert [e][1..] == [];
  }

  lemma LoopTexts(e: Expr, loop: string, vars: seq<DoVar>)
    requires e.Do? && DoNames(vars) == e.names && DoSteps(vars) == Texts(e.steps)
    ensures Texts([LoopProcedure(e, loop)]) == [DoLambda(loop, vars, Text(e.test), Texts(e.exits), Texts(e.body))]
    ensures Texts([LoopStart(e, loop)]) == [Proper([Sym(loop)] + Texts(e.inits))]
  {
    var call := App(Ref(loop), e.steps);
    TextsSnoc(e.body, call);
    var branch := If(e.test, Begin(e.exits), Begin(e.body + [call]));
    OneExpr(branch);
    OneExpr(LoopProcedure(e, loop));
    OneExpr(LoopStart(e, loop));
    LoopBranchText(e.test, e.exits, e.body + [call]);
    LambdaOfBranch(e.names, branch);
    assert Text(call) == Proper([Sym(loop)] + Texts(e.steps));
  }

  lemma LambdaOfBranch(names: seq<string>, branch: Expr)
    ensures var lam := Lambda(names, None, Plain([branch]));
      && Text(lam) == MakeLambda(Proper(Symbols(names)), [Text(branch)])
      && (Shaped(branch) ==> Shaped(lam)) && Size(lam) == 6 + Size(branch)
  {
    hide Text, Shaped, Size;
    var lam := Lambda(names, None, Plain([branch]));
    OneExpr(branch);
    PlainTexts(lam.block);
    LambdaParts(lam);
  }

  lemma LambdaParts(e: Expr)
    requires e.Lambda?
    ensures Text(e) == MakeLambda(FormalsText(e.params, e.rest), BlockTexts(e.block))
    ensures (Shaped(e) <==> BlockShaped(e.block)) && Size(e) == 3 + BlockSize(e.block)
  {
    hide BlockTexts, BlockShaped, BlockSize, FormalsText;
  }

  lemma LoopBranchText(test: Expr, exits: seq<Expr>, again: seq<Expr>)
    ensures Text(If(test, Begin(exits), Begin(again))) == MakeIf(Text(test), MakeBegin(Texts(exits)), MakeBegin(Texts(again)))
  {
  }

  lemma LoopShapes(e: Expr, loop: string)
    requires e.Do? && Shaped(e) && !IsSpecial(loop)
    ensures AllShaped([LoopProcedure(e, loop)]) && AllShaped([LoopStart(e, loop)])
    ensures AllSize([LoopProcedure(e, loop)]) + AllSize([LoopStart(e, loop)]) + 1 < Size(e)
  {
    hide Shaped, AllShaped, Size, AllSize, Text, Texts, IsSpecial;
    DoShape(e);
    var call := App(Ref(loop), e.steps);
    TextsSnoc(e.body, call);
    var branch := If(e.test, Begin(e.exits), Begin(e.body + [call]));
    OneExpr(branch);
    OneExpr(LoopProcedure(e, loop));
    OneExpr(LoopStart(e, loop));
    LambdaOfBranch(e.names, branch);
    CallShape(loop, e.steps);
    CallShape(loop, e.inits);
    BranchShape(e.test, e.exits, e.body + [call]);
  }

  lemma CallShape(loop: string, args: seq<Expr>)
    requires !IsSpecial(loop)
    ensures (Shaped(App(Ref(loop), args)) <==> AllShaped(args)) && Size(App(Ref(loop), args)) == 7 + AllSize(args)
  {
    hide IsSpecial, AllShaped, AllSize;
    assert Shaped(Ref(loop)) && Size(Ref(loop)) == 4;
  }

  lemma BranchShape(test: Expr, exits: seq<Expr>, again: seq<Expr>)
    ensures var e := If(test, Begin(exits), Begin(again));
      && (Shaped(test) && AllShaped(exits) && AllShaped(again) ==> Shaped(e))
      && Size(e) == 11 + Size(test) + AllSize(exits) + AllSize(again)
  {
    assert Shaped(Begin(exits)) == AllShaped(exits) && Shaped(Begin(again)) == AllShaped(again);
    assert Size(Begin(exits)) == 3 + AllSize(exits) && Size(Begin(again)) == 3 + AllSize(again);
  }

  lemma {:induction false} DoExpands(session: string, e: Expr, d: nat, n: nat) returns (c: Core)
    requires e.Do? && Shaped(e) && ExpandForm(session, Text(e), d, n).Ok?
    ensures Gives(session, e, ExpandForm(session, Text(e), d, n), c)
    decreases Size(e), 0
  {
    hide ExpandForm, HandleDo, HandleLetrec, CoreText, CoreShaped, Shaped, VarText, LoopProcedure, LoopStart, DoDesugars, PairTexts;
    if d == 0 {
      FormTooDeep(session, Text(e), n);
    }
    var v := Temp(DoTemp, n);
    var loop := VarText(session, v);
    DoForm(session, [Proper(DoVarTexts(e.names, Texts(e.inits), Texts(e.steps), e.shown)),
      Proper([Text(e.test)] + Texts(e.exits))] + Texts(e.body), d, n);
    DoIsLetrec(session, e, d - 1, n);
    TempIsNoKeyword(session, DoTemp, n);
    LoopShapes(e, loop);
    var c0 := LetrecPartsExpand(session, [loop], [LoopProcedure(e, loop)], [LoopStart(e, loop)], d - 1, n + 1);
    c := LoopRenamed(session, e, loop, v, c0);
    assert BinderDesugars(e, c);
  }

  /** The loop variable, read as the temporary it is. */
  lemma LoopRenamed(session: string, e: Expr, loop: string, v: Var, c0: Core) returns (c: Core)
    requires e.Do? && v.Temp? && v.hint == DoTemp && loop == VarText(session, v)
    requires LetrecDesugars([loop], [LoopProcedure(e, loop)], [LoopStart(e, loop)], c0) && CoreShaped(session, c0)
    ensures CoreText(session, c) == CoreText(session, c0) && CoreShaped(session, c)
    ensures IsLetrec([v], c) && BindsTemp(DoTemp, c) && c.fn.params == [v]
    ensures DoDesugars(v, e.names, e.inits, e.steps, e.test, e.exits, e.body, LetrecInits([v], c)[0], LetrecBody([v], c))
  {
    hide CoreText, CoreShaped, LoopProcedure, ProcedureDesugars, CallDesugars, Desugars, AllDesugar;
    var us := Users([loop]);
    assert us == [User(loop)];
    var lams, starts := LetrecInits(us, c0), LetrecBody(us, c0);
    LetrecIsCoreLetrec(us, c0);
    OnlyOne(LoopProcedure(e, loop), lams);
    OnlyOne(LoopStart(e, loop), starts);
    LetrecShapes(session, us, lams, starts);
    var lam := ProcedureRenamed(session, e, loop, v, lams[0]);
    var start := CallRenamed(session, e.inits, loop, v, starts[0]);
    c := CoreLetrec([v], [lam], [start]);
    CoreLetrecIsLetrec([v], [lam], [start]);
    OneCoreBinding(v, lam, start);
    SameLetrecText(session, User(loop), v, lams[0], lam, starts[0], start);
  }

  lemma OnlyOne(e: Expr, cs: seq<Core>)
    requires AllDesugar([e], cs)
    ensures |cs| == 1 && cs == [cs[0]] && Desugars(e, cs[0])
  {
  }

  lemma OneCoreBinding(v: Var, lam: Core, start: Core)
    requires v.Temp? && v.hint == DoTemp
    ensures BindsTemp(DoTemp, CoreLetrec([v], [lam], [start]))
  {
  }

  lemma LetrecShapes(session: string, vars: seq<Var>, inits: seq<Core>, body: seq<Core>)
    requires |vars| == |inits| == 1 && |body| == 1 && CoreShaped(session, CoreLetrec(vars, inits, body))
    ensures CoreShaped(session, inits[0]) && CoreShaped(session, body[0])
  {
    var sets := CoreSets(vars, inits);
    assert sets + body == [CSet(vars[0], inits[0]), body[0]];
    LetrecIsBegin(session, vars, sets + body);
    TwoShaped(session, CSet(vars[0], inits[0]), body[0]);
  }

  lemma LetrecIsBegin(session: string, vars: seq<Var>, all: seq<Core>)
    requires CoreShaped(session, CApp(CLambda(vars, None, [CBegin(all)]), Nils(|vars|)))
    ensures AllCoreShaped(session, all) && ParseFormals(CoreFormals(session, vars, None)).Ok?
  {
    OneText(session, CBegin(all));
    assert CoreShaped(session, CLambda(vars, None, [CBegin(all)]));
    assert AllCoreShaped(session, [CBegin(all)]);
    assert CoreShaped(session, CBegin(all));
  }

  lemma TwoShaped(session: string, a: Core, b: Core)
    ensures AllCoreShaped(session, [a, b]) <==> CoreShaped(session, a) && CoreShaped(session, b)
    ensures CoreTexts(session, [a, b]) == [CoreText(session, a), CoreText(session, b)]
    ensures a.CSet? ==> (CoreShaped(session, a) <==> CoreShaped(session, a.value))
    ensures a.CSet? ==> CoreText(session, a) == MakeSet(Sym(VarText(session, a.variable)), CoreText(session, a.value))
  {
    assert [a, b][1..] == [b] && [b][1..] == [];
    OneText(session, b);
    assert AllCoreShaped(session, [b]) <==> CoreShaped(session, b);
  }

  /** Two letrecs of the same texts have the same text. */
  lemma SameLetrecText(session: string, u: Var, v: Var, lam0: Core, lam: Core, start0: Core, start: Core)
    requires VarText(session, u) == VarText(session, v)
    requires CoreText(session, lam0) == CoreText(session, lam) && CoreText(session, start0) == CoreText(session, start)
    requires CoreShaped(session, lam) && CoreShaped(session, start)
    requires CoreShaped(session, CoreLetrec([u], [lam0], [start0]))
    ensures CoreText(session, CoreLetrec([v], [lam], [start])) == CoreText(session, CoreLetrec([u], [lam0], [start0]))
    ensures CoreShaped(session, CoreLetrec([v], [lam], [start]))
  {
    hide *;
    SameFormals(session, u, v);
    TextOfOneLetrec(session, u, lam0, start0);
    TextOfOneLetrec(session, v, lam, start);
  }

  lemma SameFormals(session: string, u: Var, v: Var)
    requires VarText(session, u) == VarText(session, v)
    ensures CoreFormals(session, [u], None) == CoreFormals(session, [v], None)
  {
    assert VarTexts(session, [u]) == VarTexts(session, [v]);
  }

  /** `((lambda (name) (begin (set! name lam) start)) nil)` */
  function OneLetrecText(formals: SExpr, name: string, lam: SExpr, start: SExpr): SExpr {
    Proper([MakeLambda(formals, [MakeBegin([MakeSet(Sym(name), lam), start])])] + [Nil])
  }

  lemma TextOfOneLetrec(session: string, v: Var, lam: Core, start: Core)
    ensures CoreText(session, CoreLetrec([v], [lam], [start])) ==
      OneLetrecText(CoreFormals(session, [v], None), VarText(session, v), CoreText(session, lam), CoreText(session, start))
    ensures CoreShaped(session, CoreLetrec([v], [lam], [start])) <==>
      CoreShaped(session, lam) && CoreShaped(session, start) && ParseFormals(CoreFormals(session, [v], None)).Ok?
  {
    hide ParseFormals, VarText, CoreFormals, CoreText, CoreShaped, AllCoreShaped, CoreTexts, CoreLetrec, Nils;
    var first := CSet(v, lam);
    var begin := CBegin([first, start]);
    LetrecOfOne(v, lam, start);
    TwoShaped(session, first, start);
    BeginText(session, [first, start]);
    OneText(session, begin);
    OneShaped(session, begin);
    LambdaCore(session, [v], [begin]);
    AppCore(session, CLambda([v], None, [begin]), Nils(1));
    OneNil(session);
  }

  lemma LetrecOfOne(v: Var, lam: Core, start: Core)
    ensures CoreLetrec([v], [lam], [start]) == CApp(CLambda([v], None, [CBegin([CSet(v, lam), start])]), Nils(1))
  {
    assert CoreSets([v], [lam]) + [start] == [CSet(v, lam), start];
  }

  lemma BeginText(session: string, body: seq<Core>)
    ensures CoreText(session, CBegin(body)) == MakeBegin(CoreTexts(session, body))
    ensures CoreShaped(session, CBegin(body)) <==> AllCoreShaped(session, body)
  {
  }

  lemma OneShaped(session: string, c: Core)
    ensures AllCoreShaped(session, [c]) <==> CoreShaped(session, c)
  {
    assert [c][1..] == [];
  }

  lemma OneNil(session: string)
    ensures CoreTexts(session, Nils(1)) == [Nil] && AllCoreShaped(session, Nils(1))
  {
    assert Nils(1) == [CLit(Nil)];
    OneText(session, CLit(Nil));
  }

  lemma CallRenamed(session: string, args: seq<Expr>, loop: string, v: Var, c0: Core) returns (c: Core)
    requires loop == VarText(session, v) && Desugars(App(Ref(loop), args), c0) && CoreShaped(session, c0)
    ensures CallDesugars(v, args, c) && CoreText(session, c) == CoreText(session, c0) && CoreShaped(session, c)
  {
    assert c0.fn == CRef(User(loop));
    c := CApp(CRef(v), c0.args);
    RefCore(session, v);
    RefCore(session, User(loop));
    AppCore(session, CRef(v), c0.args);
    AppCore(session, CRef(User(loop)), c0.args);
  }

  lemma {:induction false} AllDesugarSnoc(es: seq<Expr>, e: Expr, cs: seq<Core>)
    requires AllDesugar(es + [e], cs)
    ensures |cs| == |es| + 1 && AllDesugar(es, cs[..|es|]) && Desugars(e, cs[|es|])
  {
    hide Desugars;
    if es == [] {
      assert es + [e] == [e];
    } else {
      assert (es + [e])[1..] == es[1..] + [e];
      AllDesugarSnoc(es[1..], e, cs[1..]);
      assert cs[..|es|][1..] == cs[1..][..|es| - 1];
    }
  }

  lemma {:induction false} ReplaceLast(session: string, cs: seq<Core>, c: Core)
    requires cs != [] && CoreText(session, c) == CoreText(session, cs[|cs| - 1])
    requires AllCoreShaped(session, cs) && CoreShaped(session, c)
    ensures CoreTexts(session, cs[..|cs| - 1] + [c]) == CoreTexts(session, cs)
    ensures AllCoreShaped(session, cs[..|cs| - 1] + [c])
    decreases |cs|
  {
    hide CoreText, CoreShaped;
    var ds := cs[..|cs| - 1] + [c];
    if |cs| > 1 {
      ReplaceLast(session, cs[1..], c);
      assert ds[1..] == cs[1..][..|cs| - 2] + [c];
    } else {
      assert ds == [c] && [c][1..] == [] && cs[1..] == [];
    }
  }

  lemma {:induction false} LastShaped(session: string, cs: seq<Core>)
    requires cs != [] && AllCoreShaped(session, cs)
    ensures CoreShaped(session, cs[|cs| - 1])
    decreases |cs|
  {
    if |cs| > 1 {
      LastShaped(session, cs[1..]);
    }
  }

  lemma ProcedureRenamed(session: string, e: Expr, loop: string, v: Var, lam0: Core) returns (lam: Core)
    requires e.Do? && loop == VarText(session, v)
    requires Desugars(LoopProcedure(e, loop), lam0) && CoreShaped(session, lam0)
    ensures ProcedureDesugars(v, e.names, e.steps, e.test, e.exits, e.body, lam)
    ensures CoreText(session, lam) == CoreText(session, lam0) && CoreShaped(session, lam)
  {
    hide Desugars, CoreShaped, CoreText, VarText, AllDesugar;
    var call := App(Ref(loop), e.steps);
    var branch := If(e.test, Begin(e.exits), Begin(e.body + [call]));
    LambdaDesugars(e.names, branch, lam0);
    var b0 := lam0.body[0];
    BranchOf(branch, b0);
    BeginDesugars(e.exits, b0.yes);
    BeginDesugars(e.body + [call], b0.no);
    AllDesugarSnoc(e.body, call, b0.no.body);
    ShapesInside(session, lam0);
    LastShaped(session, b0.no.body);
    var c := CallRenamed(session, e.steps, loop, v, b0.no.body[|e.body|]);
    var again := b0.no.body[..|e.body|] + [c];
    ReplaceLast(session, b0.no.body, c);
    lam := CLambda(Users(e.names), None, [CIf(b0.test, b0.yes, CBegin(again))]);
    assert again[..|e.body|] == b0.no.body[..|e.body|];
    SameProcedure(session, lam0, lam, again);
  }

  lemma LambdaDesugars(names: seq<string>, branch: Expr, c: Core)
    requires Desugars(Lambda(names, None, Plain([branch])), c)
    ensures c.CLambda? && c.params == Users(names) && c.rest == None && |c.body| == 1 && Desugars(branch, c.body[0])
  {
    OnlyOne(branch, c.body);
  }

  lemma BeginDesugars(body: seq<Expr>, c: Core)
    requires Desugars(Begin(body), c)
    ensures SequenceDesugars(body, c) && c.CBegin? && AllDesugar(body, c.body)
  {
  }

  lemma ShapesInside(session: string, lam: Core)
    requires lam.CLambda? && |lam.body| == 1 && lam.body[0].CIf? && lam.body[0].no.CBegin? && CoreShaped(session, lam)
    ensures CoreShaped(session, lam.body[0].test) && CoreShaped(session, lam.body[0].yes)
    ensures AllCoreShaped(session, lam.body[0].no.body) && ParseFormals(CoreFormals(session, lam.params, lam.rest)).Ok?
  {
    assert AllCoreShaped(session, lam.body);
    assert CoreShaped(session, lam.body[0]);
    assert CoreShaped(session, lam.body[0].no);
  }

  lemma SameProcedure(session: string, lam0: Core, lam: Core, again: seq<Core>)
    requires lam0.CLambda? && |lam0.body| == 1 && lam0.body[0].CIf? && lam0.body[0].no.CBegin? && CoreShaped(session, lam0)
    requires var b := lam0.body[0]; lam == CLambda(lam0.params, lam0.rest, [CIf(b.test, b.yes, CBegin(again))])
    requires CoreTexts(session, again) == CoreTexts(session, lam0.body[0].no.body) && AllCoreShaped(session, again)
    ensures CoreText(session, lam) == CoreText(session, lam0) && CoreShaped(session, lam)
  {
    hide ParseFormals;
    var b0, b := lam0.body[0], lam.body[0];
    ShapesInside(session, lam0);
    assert lam0.body == [b0];
    OneText(session, b0);
    OneText(session, b);
    assert CoreText(session, CBegin(again)) == CoreText(session, b0.no) && CoreShaped(session, CBegin(again));
    assert CoreText(session, b) == CoreText(session, b0) && CoreShaped(session, b);
    LambdaWithRest(session, lam0.params, lam0.rest, [b]);
    LambdaWithRest(session, lam0.params, lam0.rest, [b0]);
  }

  // ---- quasiquote ----

  lemma {:induction false} QuasiExpands(session: string, e: Expr, d: nat, n: nat) returns (c: Core)
    requires e.Quasi? && Shaped(e) && ExpandForm(session, Text(e), d, n).Ok?
    ensures Gives(session, e, ExpandForm(session, Text(e), d, n), c)
    decreases Size(e), 0
  {
    hide ExpandQuasiquote, CoreText, CoreShaped, TmplDesugars, TmplText;
    if d == 0 {
      FormTooDeep(session, Text(e), n);
    }
    var x := TmplText(e.template);
    if !e.short {
      hide ExpandForm;
      QuasiquoteForm(session, [x], d, n);
      QuasiquoteHandled(session, x, d - 1, n);
    }
    c := TmplExpands(session, e.template, d - 1, n);
  }

  lemma QuasiquoteHandled(session: string, x: SExpr, d: nat, n: nat)
    ensures HandleQuoteLike(session, "quasiquote", [Sym("quasiquote")] + [x], d, n) == ExpandQuasiquote(session, x, 1, d, n)
  {
    hide ExpandQuasiquote;
    assert ([Sym("quasiquote")] + [x])[1] == x;
  }

  lemma {:induction false} TmplExpands(session: string, t: Tmpl, d: nat, n: nat) returns (c: Core)
    requires TmplShaped(t) && ExpandQuasiquote(session, TmplText(t), 1, d, n).Ok?
    ensures ExpandQuasiquote(session, TmplText(t), 1, d, n).value.value == CoreText(session, c)
    ensures TmplDesugars(t, c) && CoreShaped(session, c)
    decreases TmplSize(t), 1
  {
    hide ExpandQuasiquote, CoreText, CoreShaped, TmplDesugars, TmplText, TmplShaped;
    match t
    case Constant(_) => c := ConstantExpands(session, t, d, n);
    case Unquoted(_, _) => c := UnquotedExpands(session, t, d, n);
    case Listed(_, _) => c := ListedExpands(session, t, d, n);
    case Vectored(_) => c := VectoredExpands(session, t, d, n);
  }

  lemma ConstantExpands(session: string, t: Tmpl, d: nat, n: nat) returns (c: Core)
    requires t.Constant? && TmplShaped(t) && ExpandQuasiquote(session, TmplText(t), 1, d, n).Ok?
    ensures ExpandQuasiquote(session, TmplText(t), 1, d, n).value.value == CoreText(session, c)
    ensures TmplDesugars(t, c) && CoreShaped(session, c)
  {
    c := CQuote(t.datum);
  }

  /** Unquoting, in either spelling, expands the expression. */
  lemma UnquoteIsForm(session: string, short: bool, x: SExpr, d: nat, n: nat)
    ensures var y := if short then Reader(Unquote, x) else Form("unquote", [x]);
      ExpandQuasiquote(session, y, 1, d, n) == ExpandForm(session, x, d, n)
  {
    hide ExpandForm;
    if !short {
      var xs := [Sym("unquote")] + [x];
      assert xs[0] == Sym("unquote") && xs[1] == x;
      assert ListHead(xs, None) == Head(Unquote, x);
      var y := List(xs, None);
      assert ExpandQuasiquote(session, y, 1, d, n) == QuasiOfList(session, y, xs, None, 1, d, n);
      assert QuasiOfList(session, y, xs, None, 1, d, n) == QuasiHead(session, y, Unquote, x, 1, d, n);
    }
  }

  lemma {:induction false} UnquotedExpands(session: string, t: Tmpl, d: nat, n: nat) returns (c: Core)
    requires t.Unquoted? && TmplShaped(t) && ExpandQuasiquote(session, TmplText(t), 1, d, n).Ok?
    ensures ExpandQuasiquote(session, TmplText(t), 1, d, n).value.value == CoreText(session, c)
    ensures TmplDesugars(t, c) && CoreShaped(session, c)
    decreases TmplSize(t), 0
  {
    hide ExpandQuasiquote, ExpandForm, CoreText, CoreShaped, Text;
    UnquoteIsForm(session, t.short, Text(t.of), d, n);
    c := ExpandsToCore(session, t.of, d, n);
  }

  lemma PlainListIsNoQuote(elems: seq<Elem>)
    requires AllElemsShaped(elems) && !ReadsAsQuote(elems)
    ensures ListHead(ElemTexts(elems), None) == NoHead
  {
    var xs := ElemTexts(elems);
    if |elems| == 2 && xs[0].Sym? {
      SymbolElem(elems[0]);
    }
  }

  lemma SymbolElem(x: Elem)
    requires ElemText(x).Sym?
    ensures x.One? && x.tmpl.Constant? && x.tmpl.datum == ElemText(x)
  {
  }

  lemma TmplIsNoSplice(t: Tmpl)
    requires TmplShaped(t)
    ensures HeadOf(TmplText(t)).Head? ==> !HeadOf(TmplText(t)).kind.UnquoteSplicing?
  {
    if t.Listed? && t.tail.None? {
      PlainListIsNoQuote(t.elems);
    }
  }

  lemma {:induction false} ListedExpands(session: string, t: Tmpl, d: nat, n: nat) returns (c: Core)
    requires t.Listed? && TmplShaped(t) && ExpandQuasiquote(session, TmplText(t), 1, d, n).Ok?
    ensures ExpandQuasiquote(session, TmplText(t), 1, d, n).value.value == CoreText(session, c)
    ensures TmplDesugars(t, c) && CoreShaped(session, c)
    decreases TmplSize(t), 0
  {
    hide ExpandQuasiquote, QuasiElements, CoreText, CoreShaped, ElemTexts, ListHead, ElemsDesugar;
    var xs := ElemTexts(t.elems);
    var x := TmplText(t);
    if t.tail.None? {
      PlainListIsNoQuote(t.elems);
      ProperIsElements(session, x, xs, d, n);
      EmptyQuote(session);
      c := ElemsExpand(session, x, t.elems, 0, CQuote(Proper([])), d, n);
    } else {
      var tail := t.tail.value;
      TmplIsNoSplice(tail);
      DottedIsElements(session, xs, TmplText(tail), d, n);
      var r := TmplExpands(session, tail, d, n);
      c := ElemsExpand(session, x, t.elems, 0, r, d, ExpandQuasiquote(session, TmplText(tail), 1, d, n).value.counter);
    }
    assert t.elems[0..] == t.elems;
  }

  lemma EmptyQuote(session: string)
    ensures CoreText(session, CQuote(Proper([]))) == MakeQuote(Proper([])) && CoreShaped(session, CQuote(Proper([])))
  {
  }

  lemma ProperIsElements(session: string, x: SExpr, xs: seq<SExpr>, d: nat, n: nat)
    requires x == List(xs, None) && ListHead(xs, None) == NoHead
    ensures ExpandQuasiquote(session, x, 1, d, n)
      == QuasiElements(session, x, xs, 0, Expanded(MakeQuote(Proper([])), n), 1, d)
  {
    hide QuasiElements, ListHead;
    assert ExpandQuasiquote(session, x, 1, d, n) == QuasiOfList(session, x, xs, None, 1, d, n);
  }

  lemma DottedIsElements(session: string, xs: seq<SExpr>, tail: SExpr, d: nat, n: nat)
    requires HeadOf(tail).Head? ==> !HeadOf(tail).kind.UnquoteSplicing?
    requires ExpandQuasiquote(session, List(xs, Some(tail)), 1, d, n).Ok?
    ensures var x := List(xs, Some(tail));
      var rest := ExpandQuasiquote(session, tail, 1, d, n);
      rest.Ok? && ExpandQuasiquote(session, x, 1, d, n) == QuasiElements(session, x, xs, 0, rest.value, 1, d)
  {
    hide QuasiElements;
    var x := List(xs, Some(tail));
    assert ExpandQuasiquote(session, x, 1, d, n) == QuasiOfList(session, x, xs, Some(tail), 1, d, n);
    assert ListHead(xs, Some(tail)) == NoHead;
  }

  lemma {:induction false} VectoredExpands(session: string, t: Tmpl, d: nat, n: nat) returns (c: Core)
    requires t.Vectored? && TmplShaped(t) && ExpandQuasiquote(session, TmplText(t), 1, d, n).Ok?
    ensures ExpandQuasiquote(session, TmplText(t), 1, d, n).value.value == CoreText(session, c)
    ensures TmplDesugars(t, c) && CoreShaped(session, c)
    decreases TmplSize(t), 0
  {
    hide ExpandQuasiquote, QuasiElements, CoreText, CoreShaped, ElemTexts, ListHead, ElemsDesugar;
    var xs := ElemTexts(t.elems);
    var x := TmplText(t);
    PlainListIsNoQuote(t.elems);
    VectorIsElements(session, x, xs, d, n);
    EmptyQuote(session);
    var list := ElemsExpand(session, x, t.elems, 0, CQuote(Proper([])), d, n);
    assert t.elems[0..] == t.elems;
    c := CApp(CRef(User("list->vector")), [list]);
    CallOne(session, "list->vector", list);
  }

  lemma VectorIsElements(session: string, x: SExpr, xs: seq<SExpr>, d: nat, n: nat)
    requires x == Vector(xs) && ListHead(xs, None) == NoHead && ExpandQuasiquote(session, x, 1, d, n).Ok?
    ensures var list := QuasiElements(session, x, xs, 0, Expanded(MakeQuote(Proper([])), n), 1, d);
      list.Ok? && ExpandQuasiquote(session, x, 1, d, n).value.value == Form("list->vector", [list.value.value])
  {
    hide QuasiElements, ListHead;
  }

  lemma CallOne(session: string, name: string, a: Core)
    requires !IsSpecial(name)
    ensures CoreText(session, CApp(CRef(User(name)), [a])) == Form(name, [CoreText(session, a)])
    ensures CoreShaped(session, CApp(CRef(User(name)), [a])) <==> CoreShaped(session, a)
  {
    hide CoreText, CoreShaped;
    OneText(session, a);
    OneShaped(session, a);
    RefCore(session, User(name));
    AppCore(session, CRef(User(name)), [a]);
  }

  lemma CallTwo(session: string, name: string, a: Core, b: Core)
    requires !IsSpecial(name)
    ensures CoreText(session, CApp(CRef(User(name)), [a, b])) == Form(name, [CoreText(session, a), CoreText(session, b)])
    ensures CoreShaped(session, CApp(CRef(User(name)), [a, b])) <==> CoreShaped(session, a) && CoreShaped(session, b)
  {
    hide CoreText, CoreShaped;
    TwoShaped(session, a, b);
    RefCore(session, User(name));
    AppCore(session, CRef(User(name)), [a, b]);
  }

  /** The elements from `i` on. */
  lemma {:induction false} ElemsExpand(session: string, x: SExpr, all: seq<Elem>, i: nat, r: Core, d: nat, n: nat) returns (c: Core)
    requires i <= |all| && AllElemsShaped(all[i..]) && CoreShaped(session, r)
    requires (x.List? && x.elems == ElemTexts(all)) || (x.Vector? && x.items == ElemTexts(all))
    requires QuasiElements(session, x, ElemTexts(all), i, Expanded(CoreText(session, r), n), 1, d).Ok?
    ensures QuasiElements(session, x, ElemTexts(all), i, Expanded(CoreText(session, r), n), 1, d).value.value == CoreText(session, c)
    ensures ElemsDesugar(all[i..], r, c) && CoreShaped(session, c)
    decreases ElemsSize(all[i..]), 1
  {
    hide QuasiElement, CoreText, CoreShaped, ElemText, ElemDesugars, ElemShaped;
    var xs := ElemTexts(all);
    if i == |all| {
      c := r;
    } else {
      assert all[i..][0] == all[i] && all[i..][1..] == all[i + 1..];
      ElemTextAt(all, i);
      var more := ElemsExpand(session, x, all, i + 1, r, d, n);
      var rest := QuasiElements(session, x, xs, i + 1, Expanded(CoreText(session, r), n), 1, d).value;
      c := ElemExpands(session, all[i], more, d, rest.counter);
    }
  }

  lemma {:induction false} ElemTextAt(xs: seq<Elem>, i: nat)
    requires i < |xs|
    ensures ElemTexts(xs)[i] == ElemText(xs[i])
    decreases |xs|
  {
    hide ElemText;
    if i > 0 {
      ElemTextAt(xs[1..], i - 1);
    }
  }

  lemma {:induction false} ElemExpands(session: string, e: Elem, rest: Core, d: nat, n: nat) returns (c: Core)
    requires ElemShaped(e) && CoreShaped(session, rest)
    requires QuasiElement(session, ElemText(e), CoreText(session, rest), 1, d, n).Ok?
    ensures QuasiElement(session, ElemText(e), CoreText(session, rest), 1, d, n).value.value == CoreText(session, c)
    ensures ElemDesugars(e, c) && c.args[1] == rest && CoreShaped(session, c)
    decreases ElemSize(e), 0
  {
    hide ExpandQuasiquote, ExpandForm, CoreText, CoreShaped, TmplDesugars, TmplText, Text;
    match e
    case One(t) =>
      TmplIsNoSplice(t);
      var y := TmplExpands(session, t, d, n);
      c := CApp(CRef(User("cons")), [y, rest]);
      CallTwo(session, "cons", y, rest);
    case Splice(short, of) =>
      SpliceHead(short, Text(of));
      var y := ExpandsToCore(session, of, d, n);
      c := CApp(CRef(User("append")), [y, rest]);
      CallTwo(session, "append", y, rest);
  }

  lemma SpliceHead(short: bool, x: SExpr)
    ensures HeadOf(if short then Reader(UnquoteSplicing, x) else Form("unquote-splicing", [x])) == Head(UnquoteSplicing, x)
  {
    var xs := [Sym("unquote-splicing")] + [x];
    assert xs[0] == Sym("unquote-splicing") && xs[1] == x;
  }
}
