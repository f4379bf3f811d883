/**
 The expander accepts every well-named program, at every depth limit that is at least four times
 its size; and nothing else.
 */
module Acceptance {
  import opened Wrappers
  import opened SExprs
  import opened Expanders
  import opened ExpanderHeads
  import opened Programs
  import opened Reexpansion
  import opened Desugaring
  import opened Expansion
  import opened ExpansionOfForms
  import opened NameChecks

  // ---- Names ----

  lemma ColonIsNotReserved(name: string)
    requires ':' in name
    ensures !IsReserved(name)
  {
  }

  lemma TempIsGood(session: string, v: Var)
    requires v.Temp?
    ensures !IsReserved(VarText(session, v)) && GoodNames(VarTexts(session, [v]))
  {
    hide IsReserved;
    var name := VarText(session, v);
    assert name[|HintText(v.hint)|] == ':';
    ColonIsNotReserved(name);
  }

  lemma {:induction false} PairsAccepted(names: seq<string>, xs: seq<SExpr>, seen: set<string>)
    requires |names| == |xs| && GoodNames(names) && forall i :: 0 <= i < |names| ==> names[i] !in seen
    ensures ParseLetPairs(PairTexts(names, xs), seen).Ok?
  {
    hide IsReserved;
    if names != [] {
      var texts := PairTexts(names, xs);
      assert texts[1..] == PairTexts(names[1..], xs[1..]);
      assert forall i :: 0 < i < |names| ==> names[i] == names[1..][i - 1];
      forall i | 0 <= i < |names[1..]| ensures names[1..][i] !in seen + {names[0]} {
        assert names[1..][i] == names[i + 1];
      }
      PairsAccepted(names[1..], xs[1..], seen + {names[0]});
    }
  }

  // ---- Composing handlers ----

  lemma LambdaComposes(session: string, formals: SExpr, ys: seq<SExpr>, d: nat, n: nat) returns (n1: nat)
    requires ParseFormals(formals).Ok? && ys != [] && RewriteDefines(ys) == Ok(None)
    ensures ExpandAll(session, ys, d, n1).Ok? ==> HandleLambda(session, [Sym("lambda")] + ([formals] + ys), d, n).Ok?
  {
    hide ExpandAll, ParseFormals, RewriteDefines;
    var xs := [Sym("lambda")] + ([formals] + ys);
    assert xs[1] == formals && xs[2..] == ys;
    var fm := ParseFormals(formals).value;
    n1 := n + |fm.fixed| + (if fm.rest.Some? then 1 else 0);
  }

  lemma RewrittenComposes(session: string, formals: SExpr, ys: seq<SExpr>, x: SExpr, d: nat, n: nat) returns (n1: nat)
    requires ParseFormals(formals).Ok? && ys != [] && RewriteDefines(ys) == Ok(Some(x))
    ensures ExpandForm(session, x, d, n1).Ok? ==> HandleLambda(session, [Sym("lambda")] + ([formals] + ys), d, n).Ok?
  {
    hide ExpandForm, ParseFormals, RewriteDefines;
    var xs := [Sym("lambda")] + ([formals] + ys);
    assert xs[1] == formals && xs[2..] == ys;
    var fm := ParseFormals(formals).value;
    n1 := n + |fm.fixed| + (if fm.rest.Some? then 1 else 0);
  }

  lemma LetComposes(session: string, names: seq<string>, xs: seq<SExpr>, ys: seq<SExpr>, d: nat, n: nat)
    requires |names| == |xs| && GoodNames(names) && ExpandAll(session, xs, d, n).Ok?
    requires HandleLambda(session, [Sym("lambda")] + ([FormalsText(names, None)] + ys), d, ExpandAll(session, xs, d, n).value.counter).Ok?
    ensures RegularLet(session, PairTexts(names, xs), ys, d, n).Ok?
  {
    hide ExpandAll, HandleLambda, ParseLetPairs, PairTexts, GoodNames;
    PairsAccepted(names, xs, {});
    PairsReadBack(names, xs, {});
    NoRest(names);
  }

  /** A let over core programs needs no more depth than their heights. */
  lemma CoreLetAccepted(session: string, vars: seq<Var>, inits: seq<Core>, body: seq<Core>, d: nat, n: nat)
    requires |vars| == |inits| && GoodNames(VarTexts(session, vars)) && body != []
    requires AllCoreShaped(session, inits) && AllCoreShaped(session, body) && AllHeight(inits) <= d && AllHeight(body) <= d
    ensures RegularLet(session, PairTexts(VarTexts(session, vars), CoreTexts(session, inits)), CoreTexts(session, body), d, n).Ok?
  {
    hide ExpandAll, HandleLambda, RegularLet, PairTexts, ParseFormals, FormalsText, GoodNames, AllCoreShaped, AllHeight;
    var names := VarTexts(session, vars);
    AllFormsStay(session, inits, d, n);
    var n1 := ExpandAll(session, CoreTexts(session, inits), d, n).value.counter;
    FormalsAccepted(names, None);
    BodyIsKept(session, body);
    var n2 := LambdaComposes(session, FormalsText(names, None), CoreTexts(session, body), d, n1);
    AllFormsStay(session, body, d, n2);
    LetComposes(session, names, CoreTexts(session, inits), CoreTexts(session, body), d, n);
  }

  /** The second half of a letrec: placeholders, then the assignments and the body. */
  lemma CoreLetrecAccepted(session: string, vars: seq<Var>, inits: seq<Core>, body: seq<Core>, d: nat, n: nat)
    requires |vars| == |inits| && GoodNames(VarTexts(session, vars))
    requires AllCoreShaped(session, inits) && AllCoreShaped(session, body)
    requires 2 + AllHeight(inits) <= d && 1 + AllHeight(body) <= d
    ensures var names := VarTexts(session, vars);
      RegularLet(session, BindingList(Placeholders(names)),
        [MakeBegin(Sets(names, CoreTexts(session, inits)) + CoreTexts(session, body))], d, n).Ok?
  {
    hide RegularLet, PairTexts, BindingList, Sets, CoreSets, GoodNames, AllCoreShaped;
    var names := VarTexts(session, vars);
    var begin := CBegin(CoreSets(vars, inits) + body);
    SetTexts(session, vars, inits);
    SetsShaped(session, vars, inits);
    TextsConcat(session, CoreSets(vars, inits), body);
    NilTexts(session, names);
    OneText(session, begin);
    SetsHeight(vars, inits);
    HeightConcat(CoreSets(vars, inits), body);
    OneHeight(begin);
    NilsHeight(|vars|);
    CoreLetAccepted(session, vars, Nils(|vars|), [begin], d, n);
  }

  lemma LetrecComposes(session: string, names: seq<string>, xs: seq<SExpr>, ys: seq<SExpr>, d: nat, n: nat)
    requires |names| == |xs| && GoodNames(names) && ys != [] && ExpandAll(session, xs, d, n).Ok?
    requires ExpandAll(session, ys, d, ExpandAll(session, xs, d, n).value.counter).Ok?
    requires var inits := ExpandAll(session, xs, d, n).value;
      var body := ExpandAll(session, ys, d, inits.counter).value;
      RegularLet(session, BindingList(Placeholders(names)), [MakeBegin(Sets(names, inits.value) + body.value)], d, body.counter).Ok?
    ensures HandleLetrec(session, [Sym("letrec")] + ([Proper(PairTexts(names, xs))] + ys), d, n).Ok?
  {
    hide RegularLet, ExpandAll, PairTexts, ParseLetPairs, BindingList, Sets, GoodNames;
    var all := [Sym("letrec")] + ([Proper(PairTexts(names, xs))] + ys);
    assert all[1] == Proper(PairTexts(names, xs)) && all[2..] == ys;
    PairsAccepted(names, xs, {});
    PairsReadBack(names, xs, {});
  }

  // ---- Every well-named program ----

  lemma {:induction false} Accepted(session: string, e: Expr, d: nat, n: nat)
    requires Shaped(e) && WellNamed(e) && d >= 4 * Size(e)
    ensures ExpandForm(session, Text(e), d, n).Ok?
    decreases Size(e), 2
  {
    hide *;
    match e
    case Lit(_) => LeafAccepted(session, e, d, n);
    case Ref(_) => LeafAccepted(session, e, d, n);
    case QuoteOf(_, _) => LeafAccepted(session, e, d, n);
    case If(_, _, _) => IfAccepted(session, e, d, n);
    case OneArmed(_, _) => IfAccepted(session, e, d, n);
    case When(_, _) => WhenAccepted(session, e, d, n);
    case Unless(_, _) => WhenAccepted(session, e, d, n);
    case Begin(_) => BeginAccepted(session, e, d, n);
    case Lambda(_, _, _) => LambdaAccepted(session, e, d, n);
    case Assign(_, _) => AssignAccepted(session, e, d, n);
    case App(_, _) => AppAccepted(session, e, d, n);
    case Let(_, _, _) => LetAccepted(session, e, d, n);
    case LetStar(_, _, _) => LetStarAccepted(session, e, d, n);
    case Letrec(_, _, _) => LetrecAccepted(session, e, d, n);
    case LoopLet(_, _, _, _) => LoopLetAccepted(session, e, d, n);
    case And(_) => AndAccepted(session, e, d, n);
    case Or(_) => OrAccepted(session, e, d, n);
    case Cond(_, _) => CondAccepted(session, e, d, n);
    case Case(_, _, _) => CaseAccepted(session, e, d, n);
    case Do(_, _, _, _, _, _, _) => DoAccepted(session, e, d, n);
    case Quasi(_, _) => QuasiAccepted(session, e, d, n);
  }

  lemma {:induction false} AllAccepted(session: string, es: seq<Expr>, d: nat, n: nat)
    requires AllShaped(es) && AllWellNamed(es) && d >= 4 * AllSize(es)
    ensures ExpandAll(session, Texts(es), d, n).Ok?
    decreases AllSize(es), 1
  {
    hide ExpandForm, ExpandAll, Text, Shaped, WellNamed, Size;
    if es == [] {
      NoForms(session, d, n);
    } else {
      OneMoreForm(session, Text(es[0]), Texts(es[1..]), d, n);
      Accepted(session, es[0], d, n);
      AllAccepted(session, es[1..], d, ExpandForm(session, Text(es[0]), d, n).value.counter);
    }
  }

  lemma LeafAccepted(session: string, e: Expr, d: nat, n: nat)
    requires (e.Lit? || e.Ref? || e.QuoteOf?) && Shaped(e) && d >= 4 * Size(e)
    ensures ExpandForm(session, Text(e), d, n).Ok?
  {
    if e.QuoteOf? {
      if !e.short {
        hide ExpandForm;
        QuoteForm(session, [e.datum], d, n);
        QuoteStays(session, e.datum, d - 1, n);
      }
    } else {
      AtomStays(session, Text(e), d, n);
    }
  }

  lemma {:induction false} BeginAccepted(session: string, e: Expr, d: nat, n: nat)
    requires e.Begin? && Shaped(e) && WellNamed(e) && d >= 4 * Size(e)
    ensures ExpandForm(session, Text(e), d, n).Ok?
    decreases Size(e), 0
  {
    hide ExpandForm, ExpandAll, AllShaped, AllWellNamed, AllSize, Texts;
    var xs := Texts(e.body);
    BeginForm(session, xs, d, n);
    assert ([Sym("begin")] + xs)[1..] == xs;
    AllAccepted(session, e.body, d - 1, n);
  }

  lemma {:induction false} IfAccepted(session: string, e: Expr, d: nat, n: nat)
    requires (e.If? || e.OneArmed?) && Shaped(e) && WellNamed(e) && d >= 4 * Size(e)
    ensures ExpandForm(session, Text(e), d, n).Ok?
    decreases Size(e), 0
  {
    hide ExpandForm, ExpandAll, Text, Texts, Shaped, WellNamed, Size, AllSize;
    var es := if e.If? then [e.test, e.yes, e.no] else [e.test, e.yes];
    IfParts(e);
    var xs := Texts(es);
    IfForm(session, xs, d, n);
    assert ([Sym("if")] + xs)[1..] == xs;
    AllAccepted(session, es, d - 1, n);
  }

  lemma IfParts(e: Expr)
    requires (e.If? || e.OneArmed?) && Shaped(e) && WellNamed(e)
    ensures var es := if e.If? then [e.test, e.yes, e.no] else [e.test, e.yes];
      && AllShaped(es) && AllWellNamed(es) && AllSize(es) < Size(e) && Text(e) == Form("if", Texts(es))
  {
    var t, y := e.test, e.yes;
    if e.If? {
      ThreeExprs(t, y, e.no);
    } else {
      TwoExprs(t, y);
    }
  }

  lemma OneExprFacts(a: Expr)
    ensures Texts([a]) == [Text(a)] && AllSize([a]) == 1 + Size(a)
    ensures (AllShaped([a]) <==> Shaped(a)) && (AllWellNamed([a]) <==> WellNamed(a))
  {
    hide Text, Size, Shaped, WellNamed;
    assert [a][1..] == [];
  }

  lemma TwoExprs(a: Expr, b: Expr)
    ensures Texts([a, b]) == [Text(a), Text(b)] && AllSize([a, b]) == 2 + Size(a) + Size(b)
    ensures (AllShaped([a, b]) <==> Shaped(a) && Shaped(b)) && (AllWellNamed([a, b]) <==> WellNamed(a) && WellNamed(b))
  {
    hide Text, Size, Shaped, WellNamed;
    assert [a, b][1..] == [b];
    OneExprFacts(b);
  }

  lemma ThreeExprs(a: Expr, b: Expr, c: Expr)
    ensures Texts([a, b, c]) == [Text(a), Text(b), Text(c)] && AllSize([a, b, c]) == 3 + Size(a) + Size(b) + Size(c)
    ensures AllShaped([a, b, c]) <==> Shaped(a) && Shaped(b) && Shaped(c)
    ensures AllWellNamed([a, b, c]) <==> WellNamed(a) && WellNamed(b) && WellNamed(c)
  {
    hide Text, Size, Shaped, WellNamed;
    assert [a, b, c][1..] == [b, c];
    TwoExprs(b, c);
  }

  lemma {:induction false} AssignAccepted(session: string, e: Expr, d: nat, n: nat)
    requires e.Assign? && Shaped(e) && WellNamed(e) && d >= 4 * Size(e)
    ensures ExpandForm(session, Text(e), d, n).Ok?
    decreases Size(e), 0
  {
    hide ExpandForm;
    var x := Text(e.value);
    SetForm(session, [Sym(e.name), x], d, n);
    assert [Sym("set!")] + [Sym(e.name), x] == [Sym("set!"), Sym(e.name), x];
    Accepted(session, e.value, d - 1, n);
  }

  lemma {:induction false} AppAccepted(session: string, e: Expr, d: nat, n: nat)
    requires e.App? && Shaped(e) && WellNamed(e) && d >= 4 * Size(e)
    ensures ExpandForm(session, Text(e), d, n).Ok?
    decreases Size(e), 0
  {
    hide ExpandForm, ExpandAll, AllShaped, AllWellNamed, AllSize, Texts, IsSpecial;
    OperatorIsNoKeyword(e.fn);
    var xs := [Text(e.fn)] + Texts(e.args);
    FormIsApplication(session, xs, d, n);
    OneMoreForm(session, Text(e.fn), Texts(e.args), d - 1, n);
    Accepted(session, e.fn, d - 1, n);
    AllAccepted(session, e.args, d - 1, ExpandForm(session, Text(e.fn), d - 1, n).value.counter);
  }

  // ---- Binders ----

  lemma {:induction false} LambdaAccepted(session: string, e: Expr, d: nat, n: nat)
    requires e.Lambda? && Shaped(e) && WellNamed(e) && d >= 4 * Size(e)
    ensures ExpandForm(session, Text(e), d, n).Ok?
    decreases Size(e), 0
  {
    hide ExpandForm, HandleLambda, BlockTexts, BlockShaped, BlockWellNamed, BlockSize, GoodFormals, FormalsText;
    LambdaForm(session, [FormalsText(e.params, e.rest)] + BlockTexts(e.block), d, n);
    BlockAccepted(session, e.params, e.rest, e.block, d - 1, n);
  }

  lemma {:induction false} BlockAccepted(session: string, params: seq<string>, rest: Option<string>, b: Block, d: nat, n: nat)
    requires GoodFormals(params, rest) && BlockShaped(b) && BlockWellNamed(b) && d >= 4 * BlockSize(b)
    ensures HandleLambda(session, [Sym("lambda")] + ([FormalsText(params, rest)] + BlockTexts(b)), d, n).Ok?
    decreases BlockSize(b), 2
  {
    hide HandleLambda, RewriteDefines, ParseFormals, FormalsText, GoodFormals, GoodNames, ExpandAll, ExpandForm, HandleLetrec,
      AllShaped, AllWellNamed, AllSize, DefineTexts, PairTexts;
    FormalsAccepted(params, rest);
    var xs, ys := Texts(b.inits), Texts(b.exprs);
    assert |BlockTexts(b)| >= |ys| > 0;
    if b.names == [] {
      PlainTexts(b);
      BodyIsNotRewritten(b.exprs);
      var n1 := LambdaComposes(session, FormalsText(params, rest), ys, d, n);
      AllAccepted(session, b.exprs, d, n1);
    } else {
      DefinesAccepted(b.names, xs, ys) by { BodyIsNotRewritten(b.exprs); NoLeading(ys); }
      DefsAreLetrec(b.names, xs, b.exprs);
      var rest1 := [Proper(PairTexts(b.names, xs))] + ys;
      var n1 := RewrittenComposes(session, FormalsText(params, rest), BlockTexts(b), Form("letrec", rest1), d, n);
      LetrecForm(session, rest1, d, n1);
      LetrecPartsAccepted(session, b.names, b.inits, b.exprs, d - 1, n1);
    }
  }

  lemma {:induction false} DefinesAccepted(names: seq<string>, xs: seq<SExpr>, ys: seq<SExpr>)
    requires |names| == |xs| && GoodNames(names) && LeadingDefines(ys) == Ok([])
    ensures LeadingDefines(DefineTexts(names, xs) + ys).Ok? && RewriteDefines(DefineTexts(names, xs) + ys).Ok?
  {
    hide IsReserved, DefinedPair;
    var ds := DefineTexts(names, xs);
    if names == [] {
      assert ds + ys == ys;
    } else {
      DefineIsAccepted(names[0], xs[0]);
      assert (ds + ys)[1..] == DefineTexts(names[1..], xs[1..]) + ys;
      assert forall i :: 0 < i < |names| ==> names[i] == names[1..][i - 1];
      DefinesAccepted(names[1..], xs[1..], ys);
    }
  }

  lemma DefineIsAccepted(name: string, x: SExpr)
    requires !IsReserved(name)
    ensures IsDefine(Form("define", [Sym(name), x])) && DefinedPair(Form("define", [Sym(name), x])).Ok?
  {
    hide IsReserved;
  }

  lemma {:induction false} LetrecPartsAccepted(
    session: string, names: seq<string>, inits: seq<Expr>, body: seq<Expr>, d: nat, n: nat)
    requires |names| == |inits| && AllShaped(inits) && AllShaped(body)
    requires GoodNames(names) && AllWellNamed(inits) && AllWellNamed(body) && body != []
    requires d >= 4 * (AllSize(inits) + AllSize(body)) + 4
    ensures HandleLetrec(session, [Sym("letrec")] + ([Proper(PairTexts(names, Texts(inits)))] + Texts(body)), d, n).Ok?
    decreases AllSize(inits) + AllSize(body) + 1, 1
  {
    hide HandleLetrec, RegularLet, ExpandAll, PairTexts, BindingList, Sets, GoodNames, AllShaped, AllWellNamed, AllSize,
      AllDesugar, AllCoreShaped, CoreTexts, AllHeight;
    AllAccepted(session, inits, d, n);
    var as_ := AllExpandToCore(session, inits, d, n);
    AllFit(session, inits, as_);
    var n1 := ExpandAll(session, Texts(inits), d, n).value.counter;
    AllAccepted(session, body, d, n1);
    var bs := AllExpandToCore(session, body, d, n1);
    AllFit(session, body, bs);
    SameLength(inits, as_);
    UserTexts(session, names, None);
    CoreLetrecAccepted(session, Users(names), as_, bs, d, ExpandAll(session, Texts(body), d, n1).value.counter);
    LetrecComposes(session, names, Texts(inits), Texts(body), d, n);
  }

  lemma {:induction false} LetrecAccepted(session: string, e: Expr, d: nat, n: nat)
    requires e.Letrec? && Shaped(e) && WellNamed(e) && d >= 4 * Size(e)
    ensures ExpandForm(session, Text(e), d, n).Ok?
    decreases Size(e), 0
  {
    hide ExpandForm, HandleLetrec, AllShaped, AllWellNamed, AllSize, GoodNames, PairTexts;
    LetrecForm(session, [Proper(PairTexts(e.names, Texts(e.inits)))] + Texts(e.body), d, n);
    LetrecPartsAccepted(session, e.names, e.inits, e.body, d - 1, n);
  }

  lemma {:induction false} LetPartsAccepted(session: string, names: seq<string>, inits: seq<Expr>, body: Block, d: nat, n: nat)
    requires |names| == |inits| && AllShaped(inits) && BlockShaped(body)
    requires GoodNames(names) && AllWellNamed(inits) && BlockWellNamed(body) && d >= 4 * (AllSize(inits) + BlockSize(body))
    ensures RegularLet(session, PairTexts(names, Texts(inits)), BlockTexts(body), d, n).Ok?
    decreases AllSize(inits) + BlockSize(body) + 1, 0
  {
    hide RegularLet, HandleLambda, ExpandAll, PairTexts, Texts, BlockTexts, AllShaped, AllWellNamed, AllSize, BlockShaped, BlockWellNamed,
      BlockSize, GoodNames, FormalsText;
    AllAccepted(session, inits, d, n);
    var n1 := ExpandAll(session, Texts(inits), d, n).value.counter;
    assert GoodFormals(names, None);
    BlockAccepted(session, names, None, body, d, n1);
    LetComposes(session, names, Texts(inits), BlockTexts(body), d, n);
  }

  lemma {:induction false} LetAccepted(session: string, e: Expr, d: nat, n: nat)
    requires e.Let? && Shaped(e) && WellNamed(e) && d >= 4 * Size(e)
    ensures ExpandForm(session, Text(e), d, n).Ok?
    decreases Size(e), 0
  {
    hide ExpandForm, RegularLet, HandleLet, AllShaped, AllWellNamed, AllSize, BlockShaped, BlockWellNamed, BlockSize, GoodNames, PairTexts;
    var ps, ys := PairTexts(e.names, Texts(e.inits)), BlockTexts(e.block);
    LetForm(session, [Proper(ps)] + ys, d, n);
    BlockIsNotEmpty(e.block);
    LetIsRegular(session, ps, ys, d - 1, n);
    LetPartsAccepted(session, e.names, e.inits, e.block, d - 1, n);
  }

  lemma BlockIsNotEmpty(b: Block)
    requires BlockWellNamed(b)
    ensures BlockTexts(b) != []
  {
    assert |Texts(b.exprs)| > 0;
  }

  lemma {:induction false} LetStarAccepted(session: string, e: Expr, d: nat, n: nat)
    requires e.LetStar? && Shaped(e) && WellNamed(e) && d >= 4 * Size(e)
    ensures ExpandForm(session, Text(e), d, n).Ok?
    decreases Size(e), 1
  {
    hide ExpandForm, RegularLet, HandleLetStar, AllShaped, AllWellNamed, AllSize, BlockShaped, BlockWellNamed, BlockSize, Unreserved;
    var ps, ys := PairTexts(e.names, Texts(e.inits)), BlockTexts(e.block);
    LetStarForm(session, [Proper(ps)] + ys, d, n);
    BlockIsNotEmpty(e.block);
    if e.names == [] {
      LetStarOfNothing(session, ys, d - 1, n);
      assert PairTexts([], Texts([])) == [];
      NoNames();
      NothingNamed();
      LetPartsAccepted(session, [], [], e.block, d - 1, n);
    } else {
      LetStarStepAccepted(session, e, d - 1, n);
    }
  }

  lemma NothingNamed()
    ensures AllShaped([]) && AllWellNamed([]) && AllSize([]) == 0
  {
  }

  lemma {:induction false} LetStarStepAccepted(session: string, e: Expr, d: nat, n: nat)
    requires e.LetStar? && Shaped(e) && WellNamed(e) && |e.names| == |e.inits| && e.names != [] && d + 1 >= 4 * Size(e)
    ensures HandleLetStar(session, [Sym("let*")] + ([Proper(PairTexts(e.names, Texts(e.inits)))] + BlockTexts(e.block)), d, n).Ok?
    decreases Size(e), 0
  {
    hide RegularLet, HandleLetStar, HandleLambda, ExpandAll, Texts, Text, FormalsText, Shaped, WellNamed, Size, AllSize, RewriteDefines, ParseFormals;
    var inner, name, init := InnerLetStar(e), e.names[0], e.inits[0];
    LetStarParts(session, e);
    LetStarNames(e);
    BlockIsNotEmpty(e.block);
    LetStarPeels(session, PairTexts(e.names, Texts(e.inits)), BlockTexts(e.block), name, Text(init), d, n);
    AllAccepted(session, [init], d, n);
    var n1 := ExpandAll(session, [Text(init)], d, n).value.counter;
    FormalsAccepted([name], None);
    BodyIsNotRewritten([inner]);
    var n2 := LambdaComposes(session, FormalsText([name], None), Texts([inner]), d, n1);
    AllAccepted(session, [inner], d, n2);
    LetComposes(session, [name], [Text(init)], Texts([inner]), d, n);
  }

  lemma LetStarNames(e: Expr)
    requires e.LetStar? && Shaped(e) && WellNamed(e) && |e.names| == |e.inits| && e.names != []
    ensures BlockWellNamed(e.block) && GoodNames([e.names[0]]) && GoodFormals([e.names[0]], None)
    ensures AllWellNamed([e.inits[0]]) && AllWellNamed([InnerLetStar(e)])
    ensures AllSize([e.inits[0]]) + 3 <= Size(e) && AllSize([InnerLetStar(e)]) + 3 <= Size(e)
  {
    hide IsReserved, BlockWellNamed, BlockShaped, BlockSize, Size, Shaped, WellNamed, AllSize, AllWellNamed;
    var init, inner := e.inits[0], InnerLetStar(e);
    LetStarFacts(e);
    OneExprFacts(init);
    OneExprFacts(inner);
  }

  lemma LetStarFacts(e: Expr)
    requires e.LetStar? && WellNamed(e) && |e.names| == |e.inits| && e.names != []
    ensures BlockWellNamed(e.block) && !IsReserved(e.names[0]) && WellNamed(e.inits[0]) && WellNamed(InnerLetStar(e))
    ensures Size(e) == 1 + Size(e.inits[0]) + Size(InnerLetStar(e)) && Size(e.inits[0]) >= 3 && Size(InnerLetStar(e)) >= 3
  {
    hide IsReserved, BlockWellNamed, BlockShaped, BlockSize;
    SizeIsThree(e.inits[0]);
    assert forall i :: 0 < i < |e.names| ==> e.names[i] == e.names[1..][i - 1];
  }

  lemma SizeIsThree(e: Expr)
    ensures Size(e) >= 3
  {
  }

  // ---- Named let ----

  lemma LoopComposes(session: string, loop: string, names: seq<string>, xs: seq<SExpr>, ys: seq<SExpr>, d: nat, n: nat)
    requires |names| == |xs| && GoodNames(names) && loop !in names && ExpandAll(session, xs, d, n).Ok?
    requires HandleLambda(session, [Sym("lambda")] + ([FormalsText(names, None)] + ys), d, ExpandAll(session, xs, d, n).value.counter).Ok?
    ensures var inits := ExpandAll(session, xs, d, n).value;
      var lam := HandleLambda(session, [Sym("lambda")] + ([FormalsText(names, None)] + ys), d, inits.counter).value;
      HandleLet(session, [Sym("let")] + ([Sym(loop), Proper(PairTexts(names, xs))] + ys), d, n)
        == HandleLetrec(session, [Sym("letrec")]
          + ([Proper(PairTexts([loop], [lam.value]))] + [Proper([Sym(loop)] + inits.value)]), d, lam.counter)
  {
    hide ExpandAll, HandleLambda, HandleLetrec, PairTexts, ParseLetPairs, BindingList, GoodNames;
    var all := [Sym("let")] + ([Sym(loop), Proper(PairTexts(names, xs))] + ys);
    assert all[1] == Sym(loop) && all[2] == Proper(PairTexts(names, xs)) && all[3..] == ys;
    PairsAccepted(names, xs, {});
    PairsReadBack(names, xs, {});
    NoRest(names);
    var inits := ExpandAll(session, xs, d, n).value;
    var lam := HandleLambda(session, [Sym("lambda")] + ([Proper(Symbols(names))] + ys), d, inits.counter).value.value;
    BindingTexts([loop], [lam]);
    assert Zip([loop], [lam]) == [Pair(loop, lam)];
    var ps, call := Proper(PairTexts([loop], [lam])), Proper([Sym(loop)] + inits.value);
    assert [ps] + [call] == [ps, call];
  }

  /** A letrec over core programs, expanded again. */
  lemma CoreLetrecAgain(session: string, vars: seq<Var>, inits: seq<Core>, body: seq<Core>, d: nat, n: nat)
    requires |vars| == |inits| && GoodNames(VarTexts(session, vars)) && body != []
    requires AllCoreShaped(session, inits) && AllCoreShaped(session, body)
    requires 2 + AllHeight(inits) <= d && 1 + AllHeight(body) <= d
    ensures HandleLetrec(session, [Sym("letrec")]
      + ([Proper(PairTexts(VarTexts(session, vars), CoreTexts(session, inits)))] + CoreTexts(session, body)), d, n).Ok?
  {
    hide HandleLetrec, RegularLet, ExpandAll, PairTexts, AllCoreShaped, CoreTexts, BindingList, Sets, GoodNames, AllHeight;
    AllFormsStay(session, inits, d, n);
    var n1 := n + AllBinders(inits);
    AllFormsStay(session, body, d, n1);
    CoreLetrecAccepted(session, vars, inits, body, d, n1 + AllBinders(body));
    LetrecComposes(session, VarTexts(session, vars), CoreTexts(session, inits), CoreTexts(session, body), d, n);
  }

  lemma {:induction false} LoopLetAccepted(session: string, e: Expr, d: nat, n: nat)
    requires e.LoopLet? && Shaped(e) && WellNamed(e) && d >= 4 * Size(e)
    ensures ExpandForm(session, Text(e), d, n).Ok?
    decreases Size(e), 0
  {
    hide ExpandForm, HandleLet, HandleLambda, HandleLetrec, ExpandAll, CoreText, CoreShaped, PairTexts, FormalsText, AllShaped, AllWellNamed,
      AllSize, BlockShaped, BlockWellNamed, BlockSize, GoodNames, AllDesugar, BlockDesugars, IsReserved, IsSpecial, Texts, BlockTexts;
    var xs, ys := Texts(e.inits), BlockTexts(e.block);
    LetForm(session, [Sym(e.loop), Proper(PairTexts(e.names, xs))] + ys, d, n);
    AllAccepted(session, e.inits, d - 1, n);
    var args := AllExpandToCore(session, e.inits, d - 1, n);
    AllFit(session, e.inits, args);
    var n1 := ExpandAll(session, xs, d - 1, n).value.counter;
    BlockAccepted(session, e.names, None, e.block, d - 1, n1);
    var cs := LambdaBodyExpands(session, e.names, None, e.block, d - 1, n1);
    var lam := CLambda(Users(e.names), None, cs);
    LambdaHeight(session, e.block, lam);
    LoopComposes(session, e.loop, e.names, xs, ys, d - 1, n);
    LoopAgain(session, User(e.loop), lam, args, d - 1,
      HandleLambda(session, [Sym("lambda")] + ([FormalsText(e.names, None)] + ys), d - 1, n1).value.counter);
  }

  lemma LambdaHeight(session: string, b: Block, lam: Core)
    requires lam.CLambda? && CoreShaped(session, lam) && BlockShaped(b) && BlockDesugars(b, lam.body)
    ensures Height(lam) <= 1 + 4 * BlockSize(b)
  {
    hide BlockShaped, BlockDesugars, ParseFormals, CoreFormals;
    BlockFits(session, b, lam.body);
  }

  lemma LoopAgain(session: string, loop: Var, lam: Core, args: seq<Core>, d: nat, n: nat)
    requires CoreShaped(session, lam) && AllCoreShaped(session, args) && !IsSpecial(VarText(session, loop))
    requires !IsReserved(VarText(session, loop)) && 2 + Height(lam) <= d && 2 + AllHeight(args) <= d && 3 <= d
    ensures var name := VarText(session, loop);
      HandleLetrec(session, [Sym("letrec")]
        + ([Proper(PairTexts([name], [CoreText(session, lam)]))] + [Proper([Sym(name)] + CoreTexts(session, args))]), d, n).Ok?
  {
    hide HandleLetrec, PairTexts, CoreText, CoreShaped, AllCoreShaped, VarText, IsReserved, IsSpecial;
    var start := CApp(CRef(loop), args);
    OneText(session, lam);
    AppCore(session, CRef(loop), args);
    RefCore(session, loop);
    OneText(session, start);
    OneHeight(lam);
    OneHeight(start);
    assert VarTexts(session, [loop]) == [VarText(session, loop)];
    assert GoodNames(VarTexts(session, [loop]));
    CoreLetrecAgain(session, [loop], [lam], [start], d, n);
  }

  // ---- and, or, when, unless ----

  lemma {:induction false} AndAccepted(session: string, e: Expr, d: nat, n: nat)
    requires e.And? && Shaped(e) && WellNamed(e) && d >= 4 * Size(e)
    ensures ExpandForm(session, Text(e), d, n).Ok?
    decreases Size(e), 0
  {
    hide ExpandForm, HandleAnd, AllShaped, AllWellNamed, AllSize;
    var xs := Texts(e.tests);
    AndForm(session, xs, d, n);
    assert ([Sym("and")] + xs)[1..] == xs;
    AndOperandsAccepted(session, e.tests, d - 1, n);
  }

  lemma {:induction false} AndOperandsAccepted(session: string, es: seq<Expr>, d: nat, n: nat)
    requires AllShaped(es) && AllWellNamed(es) && d >= 4 * AllSize(es)
    ensures HandleAnd(session, Texts(es), d, n).Ok?
    decreases AllSize(es), 0
  {
    hide ExpandForm, Text, Shaped, WellNamed, Size;
    if es != [] {
      var xs := Texts(es);
      assert xs[0] == Text(es[0]) && xs[1..] == Texts(es[1..]);
      Accepted(session, es[0], d, n);
      if |es| > 1 {
        AndOperandsAccepted(session, es[1..], d, ExpandForm(session, xs[0], d, n).value.counter);
      }
    }
  }

  lemma {:induction false} OrAccepted(session: string, e: Expr, d: nat, n: nat)
    requires e.Or? && Shaped(e) && WellNamed(e) && d >= 4 * Size(e)
    ensures ExpandForm(session, Text(e), d, n).Ok?
    decreases Size(e), 0
  {
    hide ExpandForm, HandleOr, AllShaped, AllWellNamed, AllSize;
    var xs := Texts(e.tests);
    OrForm(session, xs, d, n);
    assert ([Sym("or")] + xs)[1..] == xs;
    OrOperandsAccepted(session, e.tests, d - 1, n);
  }

  /** An `or` step is accepted when its parts are. */
  lemma OrComposes(session: string, xs: seq<SExpr>, d: nat, n: nat)
    requires |xs| > 1 && ExpandForm(session, xs[0], d, n).Ok?
    requires HandleOr(session, xs[1..], d, ExpandForm(session, xs[0], d, n).value.counter + 1).Ok?
    requires var init := ExpandForm(session, xs[0], d, n).value;
      var rest := HandleOr(session, xs[1..], d, init.counter + 1).value;
      var t := VarText(session, Temp(OrTemp, init.counter));
      RegularLet(session, BindingList([Pair(t, init.value)]), [MakeIf(Sym(t), Sym(t), rest.value)], d, rest.counter).Ok?
    ensures HandleOr(session, xs, d, n).Ok?
  {
    hide ExpandForm, RegularLet, BindingList;
  }

  /** The let around one `or` step. */
  lemma OrLetAccepted(session: string, t: Var, init: Core, rest: Core, d: nat, n: nat)
    requires t.Temp? && CoreShaped(session, init) && CoreShaped(session, rest) && Height(init) <= d && 1 + Height(rest) <= d
    ensures var name := VarText(session, t);
      RegularLet(session, BindingList([Pair(name, CoreText(session, init))]),
        [MakeIf(Sym(name), Sym(name), CoreText(session, rest))], d, n).Ok?
  {
    hide RegularLet, PairTexts, BindingList, VarText, GoodNames, CoreText, CoreShaped, IsReserved;
    TempIsNoKeyword(session, t.hint, t.counter);
    TempIsGood(session, t);
    var test := CIf(CRef(t), CRef(t), rest);
    RefCore(session, t);
    IfTextAndShape(session, test);
    HeightIsPositive(rest);
    assert Height(test) == 1 + Height(rest);
    OneText(session, test);
    OneText(session, init);
    OneHeight(test);
    OneHeight(init);
    OneBinding(session, t, CoreText(session, init));
    CoreLetAccepted(session, [t], [init], [test], d, n);
  }

  lemma {:induction false} OrOperandsAccepted(session: string, es: seq<Expr>, d: nat, n: nat)
    requires AllShaped(es) && AllWellNamed(es) && d >= 4 * AllSize(es)
    ensures HandleOr(session, Texts(es), d, n).Ok?
    decreases AllSize(es), 0
  {
    hide ExpandForm, RegularLet, Text, Shaped, WellNamed, Size, CoreText, CoreShaped, Desugars, OrDesugars;
    var xs := Texts(es);
    if es != [] {
      assert xs[0] == Text(es[0]) && xs[1..] == Texts(es[1..]);
      Accepted(session, es[0], d, n);
      if |es| > 1 {
        var init := ExpandsToCore(session, es[0], d, n);
        ExpandedFits(session, es[0], init);
        var n1 := ExpandForm(session, xs[0], d, n).value.counter;
        OrOperandsAccepted(session, es[1..], d, n1 + 1);
        var rest := OperandsOfOr(session, es[1..], d, n1 + 1);
        OrFits(session, es[1..], rest);
        SizeIsThree(es[0]);
        OrLetAccepted(session, Temp(OrTemp, n1), init, rest, d, HandleOr(session, xs[1..], d, n1 + 1).value.counter);
        OrComposes(session, xs, d, n);
      }
    }
  }

  lemma {:induction false} WhenAccepted(session: string, e: Expr, d: nat, n: nat)
    requires (e.When? || e.Unless?) && Shaped(e) && WellNamed(e) && d >= 4 * Size(e)
    ensures ExpandForm(session, Text(e), d, n).Ok?
    decreases Size(e), 0
  {
    hide ExpandForm, HandleWhen, Sequence, Text, Texts, Shaped, AllShaped, AllWellNamed, AllSize;
    WhenText(e);
    var t, ys := Text(e.test), Texts(e.body);
    if e.When? {
      WhenForm(session, [t] + ys, d, n);
    } else {
      UnlessForm(session, [t] + ys, d, n);
    }
    var head := Sym(if e.When? then "when" else "unless");
    Accepted(session, e.test, d - 1, n);
    SequenceAccepted(session, e.body, d - 1, ExpandForm(session, t, d - 1, n).value.counter);
    WhenComposes(session, e.When?, head, t, ys, d - 1, n);
  }

  lemma WhenComposes(session: string, positive: bool, head: SExpr, t: SExpr, ys: seq<SExpr>, d: nat, n: nat)
    requires ExpandForm(session, t, d, n).Ok? && Sequence(session, ys, d, ExpandForm(session, t, d, n).value.counter).Ok?
    ensures HandleWhen(session, positive, [head] + ([t] + ys), d, n).Ok?
  {
    hide ExpandForm, Sequence;
    var xs := [head] + ([t] + ys);
    assert xs[1] == t && xs[2..] == ys;
  }

  lemma {:induction false} SequenceAccepted(session: string, body: seq<Expr>, d: nat, n: nat)
    requires AllShaped(body) && AllWellNamed(body) && d >= 4 * AllSize(body)
    ensures Sequence(session, Texts(body), d, n).Ok?
    decreases AllSize(body), 2
  {
    hide ExpandAll;
    AllAccepted(session, body, d, n);
  }

  // ---- cond ----

  lemma {:induction false} CondAccepted(session: string, e: Expr, d: nat, n: nat)
    requires e.Cond? && Shaped(e) && WellNamed(e) && d >= 4 * Size(e)
    ensures ExpandForm(session, Text(e), d, n).Ok?
    decreases Size(e), 0
  {
    hide ExpandForm, CondFrom, AllClausesShaped, OtherwiseShaped, ClausesWellNamed, OtherwiseWellNamed, ClausesSize, OtherwiseSize;
    var ys := ClauseTexts(e.clauses) + ElseText(e.otherwise);
    var xs := [Sym("cond")] + ys;
    assert xs[1..] == ys;
    CondForm(session, ys, d, n);
    assert |ys| > 0;
    ClausesAccepted(session, xs, 1, e.clauses, e.otherwise, d - 1, n);
  }

  lemma {:induction false} ClausesAccepted(session: string, xs: seq<SExpr>, i: nat, cls: seq<Clause>, o: Otherwise, d: nat, n: nat)
    requires i <= |xs| && xs[i..] == ClauseTexts(cls) + ElseText(o)
    requires AllClausesShaped(cls) && OtherwiseShaped(o) && ClausesWellNamed(cls) && OtherwiseWellNamed(o)
    requires d >= 4 * (ClausesSize(cls) + OtherwiseSize(o))
    ensures CondFrom(session, xs, i, d, n).Ok?
    decreases ClausesSize(cls) + OtherwiseSize(o) + 1, 0
  {
    hide ExpandForm, CondClause, ClauseText, ClauseShaped, ClauseWellNamed, Sequence, OtherwiseShaped, OtherwiseWellNamed, OtherwiseSize, ClauseSize;
    if cls == [] {
      assert ClauseTexts(cls) + ElseText(o) == ElseText(o);
      ElseAccepted(session, xs, i, o, d, n);
    } else {
      assert xs[i..][0] == xs[i] && xs[i..][1..] == xs[i + 1..];
      assert (ClauseTexts(cls) + ElseText(o))[1..] == ClauseTexts(cls[1..]) + ElseText(o);
      ClausesAccepted(session, xs, i + 1, cls[1..], o, d, n);
      var r := CondFrom(session, xs, i + 1, d, n).value;
      ClauseAccepted(session, cls[0], i + 1 == |xs|, r.value, d, r.counter);
    }
  }

  lemma {:induction false} ElseAccepted(session: string, xs: seq<SExpr>, i: nat, o: Otherwise, d: nat, n: nat)
    requires i <= |xs| && xs[i..] == ElseText(o) && OtherwiseShaped(o) && OtherwiseWellNamed(o) && d >= 4 * OtherwiseSize(o)
    ensures CondFrom(session, xs, i, d, n).Ok?
    decreases OtherwiseSize(o), 0
  {
    hide ExpandForm, Sequence;
    if o.Else? {
      var ys := Texts(o.body);
      assert xs[i..][0] == xs[i] && |xs| == i + 1;
      assert ([Sym("else")] + ys)[1..] == ys;
      SequenceAccepted(session, o.body, d, n);
    }
  }

  lemma {:induction false} ClauseAccepted(session: string, cl: Clause, last: bool, rest: SExpr, d: nat, n: nat)
    requires ClauseShaped(cl) && ClauseWellNamed(cl) && d >= 4 * ClauseSize(cl)
    ensures CondClause(session, ClauseText(cl), last, rest, d, n).Ok?
    decreases ClauseSize(cl), 0
  {
    hide ExpandForm, Sequence;
    var t, ys := Text(cl.test), Texts(cl.body);
    var xs := [t] + ys;
    assert xs[0] == t && xs[1..] == ys && xs[1] == Text(cl.body[0]);
    TextIsNoSymbol(cl.test, "else");
    TextIsNoSymbol(cl.body[0], "=>");
    Accepted(session, cl.test, d, n);
    SequenceAccepted(session, cl.body, d, ExpandForm(session, t, d, n).value.counter);
  }

  // ---- case ----

  lemma {:induction false} CaseAccepted(session: string, e: Expr, d: nat, n: nat)
    requires e.Case? && Shaped(e) && WellNamed(e) && d >= 4 * Size(e)
    ensures ExpandForm(session, Text(e), d, n).Ok?
    decreases Size(e), 0
  {
    hide ExpandForm, HandleCase, CaseFrom, RegularLet, CaseText, CoreText, CoreShaped, BindingList, VarText, AllChoicesShaped, OtherwiseShaped,
      ChoicesWellNamed, OtherwiseWellNamed, ChoicesSize, OtherwiseSize, Desugars, OtherwiseDesugars, BodiesDesugar;
    var rest := ChoiceTexts(e.choices) + ElseText(e.otherwise);
    CaseForm(session, [Text(e.key)] + rest, d, n);
    var xs := [Sym("case")] + ([Text(e.key)] + rest);
    assert xs[1] == Text(e.key) && xs[2..] == rest;
    Accepted(session, e.key, d - 1, n);
    var key := ExpandsToCore(session, e.key, d - 1, n);
    ExpandedFits(session, e.key, key);
    var k := ExpandForm(session, Text(e.key), d - 1, n).value.counter;
    var tmp := Temp(CaseTemp, k);
    ChoicesAccepted(session, VarText(session, tmp), xs, 2, e.choices, e.otherwise, d - 1, k + 1);
    var bodies, tail := ChoicesExpand(session, tmp, xs, 2, e.choices, e.otherwise, d - 1, k + 1);
    LetOverCaseAccepted(session, tmp, key, e.choices, bodies, e.otherwise, tail, d - 1,
      CaseFrom(session, VarText(session, tmp), xs, 2, d - 1, k + 1).value.counter);
    CaseComposes(session, xs, d - 1, n);
  }

  lemma CaseComposes(session: string, xs: seq<SExpr>, d: nat, n: nat)
    requires |xs| >= 2 && ExpandForm(session, xs[1], d, n).Ok?
    requires var k := ExpandForm(session, xs[1], d, n).value;
      var tmp := VarText(session, Temp(CaseTemp, k.counter));
      CaseFrom(session, tmp, xs, 2, d, k.counter + 1).Ok?
      && var r := CaseFrom(session, tmp, xs, 2, d, k.counter + 1).value;
      RegularLet(session, BindingList([Pair(tmp, k.value)]), [r.value], d, r.counter).Ok?
    ensures HandleCase(session, xs, d, n).Ok?
  {
    hide ExpandForm, CaseFrom, RegularLet, BindingList;
  }

  lemma {:induction false} ChoicesAccepted(
    session: string, key: string, xs: seq<SExpr>, i: nat, chs: seq<Choice>, o: Otherwise, d: nat, n: nat)
    requires i <= |xs| && xs[i..] == ChoiceTexts(chs) + ElseText(o)
    requires AllChoicesShaped(chs) && OtherwiseShaped(o) && ChoicesWellNamed(chs) && OtherwiseWellNamed(o)
    requires d >= 4 * (ChoicesSize(chs) + OtherwiseSize(o))
    ensures CaseFrom(session, key, xs, i, d, n).Ok?
    decreases ChoicesSize(chs) + OtherwiseSize(o) + 1, 0
  {
    hide ExpandForm, CaseClause, ChoiceText, ChoiceShaped, ChoiceWellNamed, Sequence, OtherwiseShaped, OtherwiseWellNamed, OtherwiseSize, ChoiceSize;
    if chs == [] {
      assert ChoiceTexts(chs) + ElseText(o) == ElseText(o);
      CaseElseAccepted(session, key, xs, i, o, d, n);
    } else {
      assert xs[i..][0] == xs[i] && xs[i..][1..] == xs[i + 1..];
      assert (ChoiceTexts(chs) + ElseText(o))[1..] == ChoiceTexts(chs[1..]) + ElseText(o);
      ChoicesAccepted(session, key, xs, i + 1, chs[1..], o, d, n);
      var r := CaseFrom(session, key, xs, i + 1, d, n).value;
      ChoiceAccepted(session, key, chs[0], i + 1 == |xs|, r.value, d, r.counter);
    }
  }

  lemma {:induction false} CaseElseAccepted(session: string, key: string, xs: seq<SExpr>, i: nat, o: Otherwise, d: nat, n: nat)
    requires i <= |xs| && xs[i..] == ElseText(o) && OtherwiseShaped(o) && OtherwiseWellNamed(o) && d >= 4 * OtherwiseSize(o)
    ensures CaseFrom(session, key, xs, i, d, n).Ok?
    decreases OtherwiseSize(o), 0
  {
    hide ExpandForm, Sequence;
    if o.Else? {
      var ys := Texts(o.body);
      assert xs[i..][0] == xs[i] && |xs| == i + 1;
      assert ([Sym("else")] + ys)[1..] == ys;
      SequenceAccepted(session, o.body, d, n);
    }
  }

  lemma {:induction false} ChoiceAccepted(session: string, key: string, ch: Choice, last: bool, rest: SExpr, d: nat, n: nat)
    requires ChoiceShaped(ch) && ChoiceWellNamed(ch) && d >= 4 * ChoiceSize(ch)
    ensures CaseClause(session, key, ChoiceText(ch), last, rest, d, n).Ok?
    decreases ChoiceSize(ch), 0
  {
    hide Sequence;
    var ys := Texts(ch.body);
    var xs := [Proper(ch.data)] + ys;
    assert xs[0] == Proper(ch.data) && xs[1..] == ys;
    SequenceAccepted(session, ch.body, d, n);
  }

  /** How deep the conditional of a `case` is, its tests expanded. */
  function CaseHeight(chs: seq<Choice>, o: Otherwise): nat {
    if chs == [] then 4 * OtherwiseSize(o) else 4 * ChoiceSize(chs[0]) + 1 + CaseHeight(chs[1..], o)
  }

  lemma {:induction false} CaseIsNotHigh(chs: seq<Choice>, o: Otherwise)
    ensures CaseHeight(chs, o) <= 4 * (ChoicesSize(chs) + OtherwiseSize(o)) && CaseHeight(chs, o) >= 4
  {
    if chs != [] {
      CaseIsNotHigh(chs[1..], o);
    }
  }

  lemma KeyTestAccepted(session: string, key: Var, data: seq<SExpr>, d: nat, n: nat)
    requires key.Temp? && data != [] && d >= 3 * |data| + 1
    ensures ExpandForm(session, KeyTestText(VarText(session, key), data), d, n).Ok?
  {
    hide ExpandForm, HandleOr, CoreText, VarText, EqvTests;
    if |data| == 1 {
      var c := EqvCore(key, data[0]);
      EqvCoreText(session, key, data[0]);
      EqvHeight(key, data[0]);
      ReexpansionIsIdentity(session, c, d, n);
    } else {
      var xs := EqvTests(VarText(session, key), data);
      OrForm(session, xs, d, n);
      assert ([Sym("or")] + xs)[1..] == xs;
      KeyOperandsAccepted(session, key, data, d - 1, n);
    }
  }

  lemma {:induction false} KeyOperandsAccepted(session: string, key: Var, data: seq<SExpr>, d: nat, n: nat)
    requires key.Temp? && data != [] && d >= 3 * |data|
    ensures HandleOr(session, EqvTests(VarText(session, key), data), d, n).Ok?
    decreases |data|
  {
    hide ExpandForm, HandleOr, CoreText, VarText, RegularLet, CoreShaped, Height, BindingList;
    var xs := EqvTests(VarText(session, key), data);
    var first := EqvCore(key, data[0]);
    EqvCoreText(session, key, data[0]);
    EqvHeight(key, data[0]);
    ReexpansionIsIdentity(session, first, d, n);
    if |data| == 1 {
      OneOperandOr(session, xs, d, n);
    } else {
      assert xs[1..] == EqvTests(VarText(session, key), data[1..]);
      var n1 := ExpandForm(session, xs[0], d, n).value.counter;
      KeyOperandsAccepted(session, key, data[1..], d, n1 + 1);
      var rest := OperandsOfKeyTest(session, key, data[1..], d, n1 + 1);
      KeyTestFits(session, key, data[1..], rest);
      OrLetAccepted(session, Temp(OrTemp, n1), first, rest, d, HandleOr(session, xs[1..], d, n1 + 1).value.counter);
      OrComposes(session, xs, d, n);
    }
  }

  lemma OneOperandOr(session: string, xs: seq<SExpr>, d: nat, n: nat)
    requires |xs| == 1
    ensures HandleOr(session, xs, d, n) == ExpandForm(session, xs[0], d, n)
  {
    hide ExpandForm;
  }

  lemma {:induction false} CaseTextAccepted(
    session: string, key: Var, chs: seq<Choice>, bodies: seq<Core>, o: Otherwise, tail: Core, d: nat, n: nat)
    requires key.Temp? && NoEmptyChoice(chs) && BodiesDesugar(session, chs, bodies) && AllChoicesShaped(chs)
    requires OtherwiseDesugars(o, tail) && OtherwiseShaped(o) && CoreShaped(session, tail) && d >= CaseHeight(chs, o)
    ensures ExpandForm(session, CaseText(session, key, chs, bodies, tail), d, n).Ok?
    decreases |chs|
  {
    hide ExpandForm, ExpandAll, OtherwiseDesugars, OtherwiseShaped, KeyTestText, SequenceDesugars, VarText, OtherwiseSize, CoreShaped, AllShaped,
      CoreText, Height, AllSize;
    if chs == [] {
      ElseFits(session, o, tail);
      ReexpansionIsIdentity(session, tail, d, n);
    } else {
      var ch := chs[0];
      assert ChoiceShaped(ch) && ChoiceSize(ch) == 2 + |ch.data| + AllSize(ch.body);
      var t, b, r := KeyTestText(VarText(session, key), ch.data), CoreText(session, bodies[0]),
        CaseText(session, key, chs[1..], bodies[1..], tail);
      IfForm(session, [t, b, r], d, n);
      assert ([Sym("if")] + [t, b, r])[1..] == [t, b, r];
      CaseIsNotHigh(chs[1..], o);
      KeyTestAccepted(session, key, ch.data, d - 1, n);
      var n1 := ExpandForm(session, t, d - 1, n).value.counter;
      SequenceFits(session, ch.body, bodies[0]);
      ReexpansionIsIdentity(session, bodies[0], d - 1, n1);
      var n2 := n1 + Binders(bodies[0]);
      CaseTextAccepted(session, key, chs[1..], bodies[1..], o, tail, d - 1, n2);
      ThreeAccepted(session, t, b, r, d - 1, n);
    }
  }

  lemma ThreeAccepted(session: string, t: SExpr, b: SExpr, r: SExpr, d: nat, n: nat)
    requires ExpandForm(session, t, d, n).Ok?
    requires ExpandForm(session, b, d, ExpandForm(session, t, d, n).value.counter).Ok?
    requires ExpandForm(session, r, d, ExpandForm(session, b, d, ExpandForm(session, t, d, n).value.counter).value.counter).Ok?
    ensures ExpandAll(session, [t, b, r], d, n).Ok?
  {
    hide ExpandForm, ExpandAll;
    assert [t] + ([b] + ([r] + [])) == [t, b, r];
    OneMoreForm(session, t, [b] + ([r] + []), d, n);
    var n1 := ExpandForm(session, t, d, n).value.counter;
    OneMoreForm(session, b, [r] + [], d, n1);
    var n2 := ExpandForm(session, b, d, n1).value.counter;
    OneMoreForm(session, r, [], d, n2);
    NoForms(session, d, ExpandForm(session, r, d, n2).value.counter);
  }

  lemma LetOverCaseAccepted(
    session: string, tmp: Var, key: Core, chs: seq<Choice>, bodies: seq<Core>, o: Otherwise, tail: Core, d: nat, n: nat)
    requires tmp.Temp? && tmp.hint == CaseTemp && CoreShaped(session, key) && Height(key) <= d
    requires NoEmptyChoice(chs) && BodiesDesugar(session, chs, bodies) && AllChoicesShaped(chs)
    requires OtherwiseDesugars(o, tail) && OtherwiseShaped(o) && CoreShaped(session, tail)
    requires d >= 4 * (ChoicesSize(chs) + OtherwiseSize(o))
    ensures RegularLet(session, BindingList([Pair(VarText(session, tmp), CoreText(session, key))]),
      [CaseText(session, tmp, chs, bodies, tail)], d, n).Ok?
  {
    hide RegularLet, HandleLambda, ExpandAll, ExpandForm, CaseText, CoreText, CoreShaped, BindingList, VarText, OtherwiseDesugars, ParseFormals,
      PairTexts, GoodNames, FormalsText, AllChoicesShaped, OtherwiseShaped, NoEmptyChoice, ChoicesSize, OtherwiseSize,
      RewriteDefines;
    var k, x := CoreText(session, key), CaseText(session, tmp, chs, bodies, tail);
    var names := VarTexts(session, [tmp]);
    OneBinding(session, tmp, k);
    OneText(session, key);
    OneHeight(key);
    AllFormsStay(session, [key], d, n);
    var n1 := ExpandAll(session, [k], d, n).value.counter;
    TempIsGood(session, tmp);
    FormalsAccepted(names, None);
    CaseTextIsNoDefine(session, tmp, chs, bodies, tail);
    OneIsNotRewritten(x);
    var n2 := LambdaComposes(session, FormalsText(names, None), [x], d, n1);
    CaseIsNotHigh(chs, o);
    CaseTextAccepted(session, tmp, chs, bodies, o, tail, d, n2);
    assert [x] + [] == [x];
    OneMoreForm(session, x, [], d, n2);
    NoForms(session, d, ExpandForm(session, x, d, n2).value.counter);
    LetComposes(session, names, [k], [x], d, n);
  }

  lemma OneIsNotRewritten(x: SExpr)
    requires !IsDefine(x)
    ensures RewriteDefines([x]) == Ok(None)
  {
  }

  // ---- do ----

  lemma {:induction false} DoVarsAccepted(
    names: seq<string>, xs: seq<SExpr>, ss: seq<SExpr>, shown: seq<bool>, seen: set<string>)
    requires |names| == |xs| == |ss| == |shown| && GoodNames(names) && forall i :: 0 <= i < |names| ==> names[i] !in seen
    ensures ParseDoVars(DoVarTexts(names, xs, ss, shown), seen).Ok?
  {
    hide IsReserved;
    if names != [] {
      var texts := DoVarTexts(names, xs, ss, shown);
      var v := Proper([Sym(names[0]), xs[0]] + (if shown[0] then [ss[0]] else []));
      assert texts[0] == v && texts[1..] == DoVarTexts(names[1..], xs[1..], ss[1..], shown[1..]);
      assert v.elems[0] == Sym(names[0]) && 2 <= |v.elems| <= 3;
      assert forall i :: 0 < i < |names| ==> names[i] == names[1..][i - 1];
      forall i | 0 <= i < |names[1..]| ensures names[1..][i] !in seen + {names[0]} {
        assert names[1..][i] == names[i + 1];
      }
      DoVarsAccepted(names[1..], xs[1..], ss[1..], shown[1..], seen + {names[0]});
    }
  }

  lemma {:induction false} DoAccepted(session: string, e: Expr, d: nat, n: nat)
    requires e.Do? && Shaped(e) && WellNamed(e) && d >= 4 * Size(e)
    ensures ExpandForm(session, Text(e), d, n).Ok?
    decreases Size(e), 0
  {
    hide ExpandForm, HandleDo, HandleLetrec, Shaped, WellNamed, VarText, LoopProcedure, LoopStart, PairTexts, Size, AllSize, GoodNames, ParseDoVars,
      DoVarTexts, Texts, IsReserved, IsSpecial;
    var loop := VarText(session, Temp(DoTemp, n));
    TempIsNoKeyword(session, DoTemp, n);
    TempIsGood(session, Temp(DoTemp, n));
    DoNames(e);
    DoShape(e);
    DoVarsAccepted(e.names, Texts(e.inits), Texts(e.steps), e.shown, {});
    var vs, ts, ys := DoVarTexts(e.names, Texts(e.inits), Texts(e.steps), e.shown), [Text(e.test)] + Texts(e.exits), Texts(e.body);
    DoText(e);
    DoForm(session, [Proper(vs), Proper(ts)] + ys, d, n);
    DoIsLetrec(session, e, d - 1, n);
    LoopShapes(e, loop);
    LoopNames(e, loop);
    assert VarTexts(session, [Temp(DoTemp, n)]) == [loop];
    LetrecPartsAccepted(session, [loop], [LoopProcedure(e, loop)], [LoopStart(e, loop)], d - 1, n + 1);
  }

  lemma DoText(e: Expr)
    requires e.Do?
    ensures Text(e) == Form("do", [Proper(DoVarTexts(e.names, Texts(e.inits), Texts(e.steps), e.shown)),
      Proper([Text(e.test)] + Texts(e.exits))] + Texts(e.body))
  {
  }

  lemma DoNames(e: Expr)
    requires e.Do? && WellNamed(e)
    ensures GoodNames(e.names) && AllWellNamed(e.inits) && AllWellNamed(e.steps) && WellNamed(e.test)
    ensures AllWellNamed(e.exits) && AllWellNamed(e.body)
  {
  }

  lemma {:induction false} NamedSnoc(es: seq<Expr>, e: Expr)
    requires AllWellNamed(es) && WellNamed(e)
    ensures AllWellNamed(es + [e])
  {
    hide WellNamed;
    if es == [] {
      assert [e][1..] == [] && es + [e] == [e];
    } else {
      assert (es + [e])[1..] == es[1..] + [e];
      NamedSnoc(es[1..], e);
    }
  }

  lemma LoopNames(e: Expr, loop: string)
    requires e.Do? && WellNamed(e)
    ensures AllWellNamed([LoopProcedure(e, loop)]) && AllWellNamed([LoopStart(e, loop)])
  {
    hide WellNamed, AllWellNamed, GoodNames;
    DoNames(e);
    var call := App(Ref(loop), e.steps);
    CallNamed(loop, e.steps);
    CallNamed(loop, e.inits);
    NamedSnoc(e.body, call);
    var branch := If(e.test, Begin(e.exits), Begin(e.body + [call]));
    BranchNamed(e.test, e.exits, e.body + [call]);
    LambdaNamed(e.names, branch);
    OneExprFacts(LoopProcedure(e, loop));
    OneExprFacts(LoopStart(e, loop));
  }

  lemma CallNamed(loop: string, args: seq<Expr>)
    requires AllWellNamed(args)
    ensures WellNamed(App(Ref(loop), args))
  {
    hide AllWellNamed;
    assert WellNamed(Ref(loop));
  }

  lemma BranchNamed(test: Expr, exits: seq<Expr>, again: seq<Expr>)
    requires WellNamed(test) && AllWellNamed(exits) && AllWellNamed(again)
    ensures WellNamed(If(test, Begin(exits), Begin(again)))
  {
    hide AllWellNamed;
    assert WellNamed(Begin(exits)) && WellNamed(Begin(again));
  }

  lemma LambdaNamed(names: seq<string>, branch: Expr)
    requires GoodNames(names) && WellNamed(branch)
    ensures WellNamed(Lambda(names, None, Plain([branch])))
  {
    hide GoodNames;
    NoNames();
    NoneNamed();
    OneExprFacts(branch);
    var b := Plain([branch]);
    assert BlockWellNamed(b);
  }

  // ---- quasiquote ----

  lemma {:induction false} QuasiAccepted(session: string, e: Expr, d: nat, n: nat)
    requires e.Quasi? && Shaped(e) && WellNamed(e) && d >= 4 * Size(e)
    ensures ExpandForm(session, Text(e), d, n).Ok?
    decreases Size(e), 0
  {
    hide ExpandQuasiquote, TmplText, TmplShaped, TmplWellNamed, TmplSize;
    var x := TmplText(e.template);
    if !e.short {
      hide ExpandForm;
      QuasiquoteForm(session, [x], d, n);
      QuasiquoteHandled(session, x, d - 1, n);
    }
    TmplAccepted(session, e.template, d - 1, n);
  }

  lemma {:induction false} TmplAccepted(session: string, t: Tmpl, d: nat, n: nat)
    requires TmplShaped(t) && TmplWellNamed(t) && d >= 4 * TmplSize(t)
    ensures ExpandQuasiquote(session, TmplText(t), 1, d, n).Ok?
    decreases TmplSize(t), 1
  {
    hide ExpandQuasiquote, ExpandForm, Text, TmplText, Shaped, WellNamed, Size;
    match t
    case Constant(_) => ConstantAccepted(session, t, d, n);
    case Unquoted(short, of) =>
      UnquoteIsForm(session, short, Text(of), d, n);
      UnquotedText(t);
      Accepted(session, of, d, n);
    case Listed(_, _) => ListedAccepted(session, t, d, n);
    case Vectored(_) => VectoredAccepted(session, t, d, n);
  }

  lemma ConstantAccepted(session: string, t: Tmpl, d: nat, n: nat)
    requires t.Constant? && TmplShaped(t)
    ensures ExpandQuasiquote(session, TmplText(t), 1, d, n).Ok?
  {
  }

  lemma UnquotedText(t: Tmpl)
    requires t.Unquoted?
    ensures TmplText(t) == if t.short then Reader(Unquote, Text(t.of)) else Form("unquote", [Text(t.of)])
  {
  }

  lemma {:induction false} ListedAccepted(session: string, t: Tmpl, d: nat, n: nat)
    requires t.Listed? && TmplShaped(t) && TmplWellNamed(t) && d >= 4 * TmplSize(t)
    ensures ExpandQuasiquote(session, TmplText(t), 1, d, n).Ok?
    decreases TmplSize(t), 0
  {
    hide ExpandQuasiquote, QuasiElements, ElemTexts, ListHead, ElemsSize, ElemsWellNamed, AllElemsShaped;
    var xs := ElemTexts(t.elems);
    var x := TmplText(t);
    assert t.elems[0..] == t.elems;
    if t.tail.None? {
      PlainListIsNoQuote(t.elems);
      ProperIsElements(session, x, xs, d, n);
      ElemsAccepted(session, x, t.elems, 0, Expanded(MakeQuote(Proper([])), n), d);
    } else {
      var tail := t.tail.value;
      TmplIsNoSplice(tail);
      TmplAccepted(session, tail, d, n);
      var rest := ExpandQuasiquote(session, TmplText(tail), 1, d, n).value;
      DottedComposes(session, xs, TmplText(tail), d, n);
      ElemsAccepted(session, x, t.elems, 0, rest, d);
    }
  }

  lemma DottedComposes(session: string, xs: seq<SExpr>, tail: SExpr, d: nat, n: nat)
    requires HeadOf(tail).Head? ==> !HeadOf(tail).kind.UnquoteSplicing?
    requires ExpandQuasiquote(session, tail, 1, d, n).Ok?
    ensures var x := List(xs, Some(tail));
      ExpandQuasiquote(session, x, 1, d, n)
        == QuasiElements(session, x, xs, 0, ExpandQuasiquote(session, tail, 1, d, n).value, 1, d)
  {
    hide QuasiElements;
    var x := List(xs, Some(tail));
    assert ExpandQuasiquote(session, x, 1, d, n) == QuasiOfList(session, x, xs, Some(tail), 1, d, n);
    assert ListHead(xs, Some(tail)) == NoHead;
  }

  lemma {:induction false} VectoredAccepted(session: string, t: Tmpl, d: nat, n: nat)
    requires t.Vectored? && TmplShaped(t) && TmplWellNamed(t) && d >= 4 * TmplSize(t)
    ensures ExpandQuasiquote(session, TmplText(t), 1, d, n).Ok?
    decreases TmplSize(t), 0
  {
    hide ExpandQuasiquote, QuasiElements, ElemTexts, ListHead, ElemsSize, ElemsWellNamed, AllElemsShaped;
    var xs := ElemTexts(t.elems);
    var x := TmplText(t);
    assert t.elems[0..] == t.elems;
    PlainListIsNoQuote(t.elems);
    ElemsAccepted(session, x, t.elems, 0, Expanded(MakeQuote(Proper([])), n), d);
    VectorComposes(session, x, xs, d, n);
  }

  lemma VectorComposes(session: string, x: SExpr, xs: seq<SExpr>, d: nat, n: nat)
    requires x == Vector(xs) && ListHead(xs, None) == NoHead
    requires QuasiElements(session, x, xs, 0, Expanded(MakeQuote(Proper([])), n), 1, d).Ok?
    ensures ExpandQuasiquote(session, x, 1, d, n).Ok?
  {
    hide QuasiElements, ListHead;
  }

  lemma {:induction false} ElemsAccepted(session: string, x: SExpr, all: seq<Elem>, i: nat, rest: Expanded<SExpr>, d: nat)
    requires i <= |all| && AllElemsShaped(all[i..]) && ElemsWellNamed(all[i..]) && d >= 4 * ElemsSize(all[i..])
    requires (x.List? && x.elems == ElemTexts(all)) || (x.Vector? && x.items == ElemTexts(all))
    ensures QuasiElements(session, x, ElemTexts(all), i, rest, 1, d).Ok?
    decreases ElemsSize(all[i..]), 1
  {
    hide QuasiElement, ElemText, ElemShaped, ElemWellNamed, ElemSize;
    var xs := ElemTexts(all);
    if i < |all| {
      assert all[i..][0] == all[i] && all[i..][1..] == all[i + 1..];
      ElemTextAt(all, i);
      ElemsAccepted(session, x, all, i + 1, rest, d);
      var more := QuasiElements(session, x, xs, i + 1, rest, 1, d).value;
      ElemAccepted(session, all[i], more.value, d, more.counter);
    }
  }

  lemma {:induction false} ElemAccepted(session: string, e: Elem, rest: SExpr, d: nat, n: nat)
    requires ElemShaped(e) && ElemWellNamed(e) && d >= 4 * ElemSize(e)
    ensures QuasiElement(session, ElemText(e), rest, 1, d, n).Ok?
    decreases ElemSize(e), 0
  {
    hide ExpandQuasiquote, ExpandForm, TmplText, Text, Shaped, WellNamed, TmplShaped, TmplWellNamed;
    match e
    case One(t) =>
      TmplIsNoSplice(t);
      TmplAccepted(session, t, d, n);
    case Splice(short, of) =>
      SpliceHead(short, Text(of));
      Accepted(session, of, d, n);
  }

  // ---- Exactly the well-named programs ----

  /** A program that is not well-named is accepted at no depth limit. */
  lemma AcceptedIsWellNamed(session: string, e: Expr, d: nat, n: nat)
    requires Shaped(e) && ExpandForm(session, Text(e), d, n).Ok?
    ensures WellNamed(e)
  {
    hide ExpandForm, Text, Shaped, Desugars, CoreShaped, WellNamed, Height;
    var c := ExpandsToCore(session, e, d, n);
    ExpandedFits(session, e, c);
  }

  /** At a sufficient depth limit, the expander accepts exactly the well-named programs. */
  lemma AcceptedIffWellNamed(session: string, e: Expr, d: nat, n: nat)
    requires Shaped(e) && d >= 4 * Size(e)
    ensures ExpandForm(session, Text(e), d, n).Ok? <==> WellNamed(e)
  {
    hide ExpandForm, Text, Shaped, WellNamed, Size;
    if WellNamed(e) {
      Accepted(session, e, d, n);
    }
    if ExpandForm(session, Text(e), d, n).Ok? {
      AcceptedIsWellNamed(session, e, d, n);
    }
  }
}
