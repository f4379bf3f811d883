/**
 What the expander checks of a program: binders are unreserved and distinct, bodies and clauses are
 not missing. Whatever has an expansion passes these checks, and no expansion is much higher than
 its program is large.
 */
module NameChecks {
  import opened Wrappers
  import opened SExprs
  import opened Expanders
  import opened Programs
  import opened Reexpansion
  import opened Desugaring
  import opened ExpansionOfForms

  predicate Unreserved(names: seq<string>) {
    forall i :: 0 <= i < |names| ==> !IsReserved(names[i])
  }

  predicate GoodNames(names: seq<string>) {
    Distinct(names) && Unreserved(names)
  }

  predicate GoodFormals(params: seq<string>, rest: Option<string>) {
    GoodNames(params) && (rest.Some? ==> !IsReserved(rest.value) && rest.value !in params)
  }

  predicate WellNamed(e: Expr) {
    match e
    case If(t, y, o) => WellNamed(t) && WellNamed(y) && WellNamed(o)
    case OneArmed(t, y) => WellNamed(t) && WellNamed(y)
    case Begin(body) => AllWellNamed(body)
    case Lambda(params, rest, body) => GoodFormals(params, rest) && BlockWellNamed(body)
    case Assign(_, v) => WellNamed(v)
    case App(f, args) => WellNamed(f) && AllWellNamed(args)
    case Let(names, inits, body) => GoodNames(names) && AllWellNamed(inits) && BlockWellNamed(body)
    case LoopLet(loop, names, inits, body) =>
      !IsReserved(loop) && loop !in names && GoodNames(names) && AllWellNamed(inits) && BlockWellNamed(body)
    case LetStar(names, inits, body) => Unreserved(names) && AllWellNamed(inits) && BlockWellNamed(body)
    case Letrec(names, inits, body) => GoodNames(names) && AllWellNamed(inits) && AllWellNamed(body) && body != []
    case And(tests) => AllWellNamed(tests)
    case Or(tests) => AllWellNamed(tests)
    case When(t, body) => WellNamed(t) && AllWellNamed(body)
    case Unless(t, body) => WellNamed(t) && AllWellNamed(body)
    case Cond(clauses, otherwise) =>
      (clauses != [] || otherwise.Else?) && ClausesWellNamed(clauses) && OtherwiseWellNamed(otherwise)
    case Case(key, choices, otherwise) =>
      WellNamed(key) && ChoicesWellNamed(choices) && OtherwiseWellNamed(otherwise)
    case Do(names, inits, steps, _, test, exits, body) =>
      && GoodNames(names) && AllWellNamed(inits) && AllWellNamed(steps) && WellNamed(test)
      && AllWellNamed(exits) && AllWellNamed(body)
    case Quasi(_, t) => TmplWellNamed(t)
    case _ => true
  }

  predicate AllWellNamed(es: seq<Expr>) {
    es == [] || (WellNamed(es[0]) && AllWellNamed(es[1..]))
  }

  predicate BlockWellNamed(b: Block) {
    GoodNames(b.names) && b.exprs != [] && AllWellNamed(b.inits) && AllWellNamed(b.exprs)
  }

  predicate OtherwiseWellNamed(o: Otherwise) {
    match o
    case NoElse => true
    case Else(body) => body != [] && AllWellNamed(body)
  }

  predicate ClauseWellNamed(c: Clause) {
    WellNamed(c.test) && AllWellNamed(c.body)
  }

  predicate ClausesWellNamed(cs: seq<Clause>) {
    cs == [] || (ClauseWellNamed(cs[0]) && ClausesWellNamed(cs[1..]))
  }

  predicate ChoiceWellNamed(c: Choice) {
    c.data != [] && AllWellNamed(c.body)
  }

  predicate ChoicesWellNamed(cs: seq<Choice>) {
    cs == [] || (ChoiceWellNamed(cs[0]) && ChoicesWellNamed(cs[1..]))
  }

  predicate TmplWellNamed(t: Tmpl) {
    match t
    case Constant(_) => true
    case Unquoted(_, e) => WellNamed(e)
    case Listed(elems, None) => ElemsWellNamed(elems)
    case Listed(elems, Some(tail)) => ElemsWellNamed(elems) && TmplWellNamed(tail)
    case Vectored(elems) => ElemsWellNamed(elems)
  }

  predicate ElemWellNamed(x: Elem) {
    match x
    case One(t) => TmplWellNamed(t)
    case Splice(_, e) => WellNamed(e)
  }

  predicate ElemsWellNamed(xs: seq<Elem>) {
    xs == [] || (ElemWellNamed(xs[0]) && ElemsWellNamed(xs[1..]))
  }

  // ---- Names and formals ----

  lemma {:induction false} ValidNames(names: seq<string>, seen: set<string>)
    ensures ValidateNames(names, seen).None? <==> GoodNames(names) && forall i :: 0 <= i < |names| ==> names[i] !in seen
  {
    hide IsReserved;
    if names != [] {
      ValidNames(names[1..], seen + {names[0]});
      assert forall i :: 0 < i < |names| ==> names[i] == names[1..][i - 1];
    }
  }

  /** Formals are accepted exactly when their names are unreserved and distinct. */
  lemma FormalsAccepted(params: seq<string>, rest: Option<string>)
    ensures ParseFormals(FormalsText(params, rest)).Ok? <==> GoodFormals(params, rest)
  {
    hide IsReserved, ValidateNames, GoodNames;
    ValidNames(params, {});
    LeadingSymbolsOf(params);
    assert Symbols(params) == [] <==> params == [];
    if params == [] {
      assert GoodNames(params) by { NoNames(); }
    }
  }

  lemma NoNames()
    ensures GoodNames([])
  {
  }

  lemma UserFormals(session: string, params: seq<string>, rest: Option<string>)
    ensures ParseFormals(CoreFormals(session, Users(params), UserRest(rest))).Ok? <==> GoodFormals(params, rest)
  {
    hide GoodFormals, CoreFormals, FormalsText, ParseFormals;
    UserTexts(session, params, rest);
    FormalsAccepted(params, rest);
  }

  // ---- Heights ----

  lemma OneHeight(c: Core)
    ensures AllHeight([c]) == Height(c)
  {
    assert [c][1..] == [];
  }

  lemma {:induction false} HeightConcat(a: seq<Core>, b: seq<Core>)
    ensures AllHeight(a + b) == Max(AllHeight(a), AllHeight(b))
  {
    hide Height;
    if a == [] {
      assert a + b == b;
    } else {
      assert (a + b)[1..] == a[1..] + b;
      HeightConcat(a[1..], b);
    }
  }

  lemma {:induction false} SetsHeight(vars: seq<Var>, xs: seq<Core>)
    requires |vars| == |xs|
    ensures AllHeight(CoreSets(vars, xs)) <= 1 + AllHeight(xs)
    decreases |vars|
  {
    if vars != [] {
      assert CoreSets(vars, xs)[1..] == CoreSets(vars[1..], xs[1..]);
      SetsHeight(vars[1..], xs[1..]);
    }
  }

  lemma {:induction false} NilsHeight(n: nat)
    ensures AllHeight(Nils(n)) <= 1
  {
    if n > 0 {
      assert Nils(n)[1..] == Nils(n - 1);
      NilsHeight(n - 1);
    }
  }

  lemma {:induction false} SetsWereShaped(session: string, vars: seq<Var>, xs: seq<Core>, body: seq<Core>)
    requires |vars| == |xs| && AllCoreShaped(session, CoreSets(vars, xs) + body)
    ensures AllCoreShaped(session, xs) && AllCoreShaped(session, body)
    decreases |vars|
  {
    var all := CoreSets(vars, xs) + body;
    if vars == [] {
      assert all == body;
    } else {
      assert all[1..] == CoreSets(vars[1..], xs[1..]) + body;
      SetsWereShaped(session, vars[1..], xs[1..], body);
      assert CoreShaped(session, all[0]) && all[0] == CSet(vars[0], xs[0]);
    }
  }

  /** Four levels around the higher of inits and body. */
  lemma LetrecFacts(session: string, vars: seq<Var>, c: Core)
    requires IsLetrec(vars, c) && CoreShaped(session, c)
    ensures Height(c) <= 4 + Max(AllHeight(LetrecInits(vars, c)), AllHeight(LetrecBody(vars, c)))
    ensures AllCoreShaped(session, LetrecInits(vars, c)) && AllCoreShaped(session, LetrecBody(vars, c))
    ensures ParseFormals(CoreFormals(session, vars, None)).Ok?
  {
    hide ParseFormals, CoreFormals;
    var inits, body := LetrecInits(vars, c), LetrecBody(vars, c);
    LetrecIsCoreLetrec(vars, c);
    LetrecIsBegin(session, vars, CoreSets(vars, inits) + body);
    SetsWereShaped(session, vars, inits, body);
    SetsHeight(vars, inits);
    HeightConcat(CoreSets(vars, inits), body);
    NilsHeight(|vars|);
    OneHeight(CBegin(CoreSets(vars, inits) + body));
  }

  // ---- Whatever has an expansion is well-named, and its expansion is not high ----

  ghost predicate Fits(e: Expr, c: Core) {
    WellNamed(e) && Height(c) <= 4 * Size(e)
  }

  lemma {:induction false} ExpandedFits(session: string, e: Expr, c: Core)
    requires Shaped(e) && Desugars(e, c) && CoreShaped(session, c)
    ensures Fits(e, c)
    decreases Size(e), 1
  {
    hide *;
    match e
    case Lit(_) => LeafFits(session, e, c);
    case Ref(_) => LeafFits(session, e, c);
    case QuoteOf(_, _) => LeafFits(session, e, c);
    case If(_, _, _) => BranchFits(session, e, c);
    case OneArmed(_, _) => BranchFits(session, e, c);
    case When(_, _) => BranchFits(session, e, c);
    case Unless(_, _) => BranchFits(session, e, c);
    case Begin(_) => PlainFits(session, e, c);
    case Lambda(_, _, _) => PlainFits(session, e, c);
    case Assign(_, _) => PlainFits(session, e, c);
    case App(_, _) => PlainFits(session, e, c);
    case Let(_, _, _) => BinderFits(session, e, c);
    case LetStar(_, _, _) => BinderFits(session, e, c);
    case Letrec(_, _, _) => BinderFits(session, e, c);
    case LoopLet(_, _, _, _) => LoopFits(session, e, c);
    case Do(_, _, _, _, _, _, _) => DoFits(session, e, c);
    case And(_) => TestsFit(session, e, c);
    case Or(_) => TestsFit(session, e, c);
    case Cond(_, _) => ChoiceFormFits(session, e, c);
    case Case(_, _, _) => ChoiceFormFits(session, e, c);
    case Quasi(_, _) => TemplateFits(session, e, c);
  }

  lemma {:induction false} AllFit(session: string, es: seq<Expr>, cs: seq<Core>)
    requires AllShaped(es) && AllDesugar(es, cs) && AllCoreShaped(session, cs)
    ensures AllWellNamed(es) && AllHeight(cs) <= 4 * AllSize(es)
    decreases AllSize(es), 1
  {
    hide Shaped, Desugars, CoreShaped, WellNamed, Height, Size;
    if es != [] {
      ExpandedFits(session, es[0], cs[0]);
      AllFit(session, es[1..], cs[1..]);
    }
  }

  lemma {:induction false} SequenceFits(session: string, es: seq<Expr>, c: Core)
    requires AllShaped(es) && SequenceDesugars(es, c) && CoreShaped(session, c)
    ensures AllWellNamed(es) && Height(c) <= 1 + 4 * AllSize(es)
    decreases AllSize(es), 2
  {
    hide AllShaped, AllDesugar, AllCoreShaped, AllWellNamed, AllHeight, AllSize;
    AllFit(session, es, c.body);
  }

  lemma LeafFits(session: string, e: Expr, c: Core)
    requires (e.Lit? || e.Ref? || e.QuoteOf?) && Desugars(e, c)
    ensures Fits(e, c)
  {
  }

  lemma {:induction false} PlainFits(session: string, e: Expr, c: Core)
    requires (e.Begin? || e.Lambda? || e.Assign? || e.App?) && Shaped(e) && Desugars(e, c) && CoreShaped(session, c)
    ensures Fits(e, c)
    decreases Size(e), 0
  {
    hide AllShaped, AllDesugar, AllCoreShaped, AllWellNamed, AllHeight, AllSize, BlockShaped, BlockDesugars, BlockWellNamed, BlockSize,
      GoodFormals, CoreFormals, ParseFormals;
    if e.Begin? {
      AllFit(session, e.body, c.body);
    } else if e.Lambda? {
      UserFormals(session, e.params, e.rest);
      BlockFits(session, e.block, c.body);
    } else if e.Assign? {
      ExpandedFits(session, e.value, c.value);
    } else {
      ExpandedFits(session, e.fn, c.fn);
      AllFit(session, e.args, c.args);
    }
  }

  lemma {:induction false} BlockFits(session: string, b: Block, cs: seq<Core>)
    requires BlockShaped(b) && BlockDesugars(b, cs) && cs != [] && AllCoreShaped(session, cs)
    ensures BlockWellNamed(b) && AllHeight(cs) <= 4 * BlockSize(b)
    decreases BlockSize(b), 0
  {
    hide AllShaped, AllDesugar, AllWellNamed, AllSize, LetrecDesugars, GoodNames, CoreShaped, Height;
    if b.names == [] {
      NoNames();
      AllFit(session, b.exprs, cs);
      SameLength(b.exprs, cs);
      assert AllWellNamed(b.inits) by { NoneNamed(); }
    } else {
      assert cs == [cs[0]];
      OneHeight(cs[0]);
      LetrecFits(session, b.names, b.inits, b.exprs, cs[0]);
    }
  }

  lemma NoneNamed()
    ensures AllWellNamed([])
  {
  }

  lemma {:induction false} LetrecFits(session: string, names: seq<string>, inits: seq<Expr>, body: seq<Expr>, c: Core)
    requires |names| == |inits| && AllShaped(inits) && AllShaped(body)
    requires LetrecDesugars(names, inits, body, c) && CoreShaped(session, c)
    ensures GoodNames(names) && body != [] && AllWellNamed(inits) && AllWellNamed(body)
    ensures Height(c) <= 4 + 4 * Max(AllSize(inits), AllSize(body))
    decreases AllSize(inits) + AllSize(body) + 1, 0
  {
    hide AllShaped, AllDesugar, AllWellNamed, AllSize, AllHeight, Height, CoreShaped, AllCoreShaped, IsLetrec, LetrecInits, LetrecBody,
      GoodNames, CoreFormals, ParseFormals, Users, Distinct;
    LetrecFacts(session, Users(names), c);
    UserFormals(session, names, None);
    AllFit(session, inits, LetrecInits(Users(names), c));
    AllFit(session, body, LetrecBody(Users(names), c));
  }

  lemma {:induction false} LetFits(session: string, names: seq<string>, inits: seq<Expr>, body: Block, c: Core)
    requires |names| == |inits| && AllShaped(inits) && BlockShaped(body) && LetDesugars(names, inits, body, c) && CoreShaped(session, c)
    ensures GoodNames(names) && AllWellNamed(inits) && BlockWellNamed(body)
    ensures Height(c) <= 2 + 4 * (AllSize(inits) + BlockSize(body))
    decreases AllSize(inits) + BlockSize(body) + 1, 0
  {
    hide AllShaped, AllDesugar, AllWellNamed, AllSize, AllHeight, AllCoreShaped, BlockShaped, BlockDesugars, BlockWellNamed, BlockSize,
      GoodNames, CoreFormals, ParseFormals, Users;
    UserFormals(session, names, None);
    AllFit(session, inits, c.args);
    BlockFits(session, body, c.fn.body);
  }

  lemma {:induction false} StarFits(session: string, names: seq<string>, inits: seq<Expr>, body: Block, c: Core)
    requires |names| == |inits| && AllShaped(inits) && BlockShaped(body)
    requires LetStarDesugars(names, inits, body, c) && CoreShaped(session, c)
    ensures Unreserved(names) && AllWellNamed(inits) && BlockWellNamed(body)
    ensures Height(c) <= 2 + 4 * (AllSize(inits) + BlockSize(body))
    decreases AllSize(inits) + BlockSize(body) + 1, 1
  {
    hide Shaped, Desugars, WellNamed, BlockShaped, BlockDesugars, BlockWellNamed, BlockSize, LetDesugars, CoreFormals, ParseFormals,
      IsReserved, Size;
    if names == [] {
      LetFits(session, [], [], body, c);
    } else {
      var inner, arg := c.fn.body[0], c.args[0];
      assert c.fn.body == [inner] && c.args == [arg];
      OneHeight(inner);
      OneHeight(arg);
      assert AllCoreShaped(session, [inner]) && AllCoreShaped(session, [arg]);
      assert Users([names[0]]) == [User(names[0])];
      UserFormals(session, [names[0]], None);
      assert [names[0]][0] == names[0];
      ExpandedFits(session, inits[0], arg);
      StarFits(session, names[1..], inits[1..], body, inner);
      assert forall i :: 0 < i < |names| ==> names[i] == names[1..][i - 1];
    }
  }

  lemma {:induction false} BinderFits(session: string, e: Expr, c: Core)
    requires (e.Let? || e.LetStar? || e.Letrec?) && Shaped(e) && Desugars(e, c) && CoreShaped(session, c)
    ensures Fits(e, c)
    decreases Size(e), 0
  {
    hide AllShaped, AllDesugar, AllWellNamed, AllSize, BlockShaped, BlockDesugars, BlockWellNamed, BlockSize, LetDesugars,
      LetStarDesugars, LetrecDesugars, GoodNames, Unreserved, CoreShaped, Height;
    BinderOf(e, c);
    if e.Let? {
      LetFits(session, e.names, e.inits, e.block, c);
    } else if e.LetStar? {
      StarFits(session, e.names, e.inits, e.block, c);
    } else {
      LetrecFits(session, e.names, e.inits, e.body, c);
    }
  }

  lemma {:induction false} BranchFits(session: string, e: Expr, c: Core)
    requires (e.If? || e.OneArmed? || e.When? || e.Unless?) && Shaped(e) && Desugars(e, c) && CoreShaped(session, c)
    ensures Fits(e, c)
    decreases Size(e), 0
  {
    hide AllShaped, AllWellNamed, AllSize, SequenceDesugars, AllDesugar;
    BranchOf(e, c);
    assert Height(EMPTY_BEGIN) == 1 by { assert AllHeight([]) == 0; }
    ExpandedFits(session, e.test, c.test);
    if e.If? {
      ExpandedFits(session, e.yes, c.yes);
      ExpandedFits(session, e.no, c.no);
    } else if e.OneArmed? {
      ExpandedFits(session, e.yes, c.yes);
    } else if e.When? {
      SequenceFits(session, e.body, c.yes);
    } else {
      SequenceFits(session, e.body, c.no);
    }
  }

  lemma {:induction false} LoopFits(session: string, e: Expr, c: Core)
    requires e.LoopLet? && Shaped(e) && Desugars(e, c) && CoreShaped(session, c)
    ensures Fits(e, c)
    decreases Size(e), 0
  {
    hide AllShaped, AllDesugar, AllWellNamed, AllSize, AllHeight, AllCoreShaped, BlockShaped, BlockDesugars, BlockWellNamed, BlockSize,
      GoodNames, CoreFormals, ParseFormals, IsLetrec, LetrecInits, LetrecBody, IsReserved;
    BinderOf(e, c);
    var vars := [User(e.loop)];
    var lam, start := LetrecInits(vars, c)[0], LetrecBody(vars, c);
    LetrecFacts(session, vars, c);
    assert Users([e.loop]) == vars;
    UserFormals(session, [e.loop], None);
    LoopNameIsGood(e.loop);
    assert LetrecInits(vars, c) == [lam] && start == [start[0]];
    OneHeight(lam);
    OneHeight(start[0]);
    FirstShaped(session, lam);
    FirstShaped(session, start[0]);
    UserFormals(session, e.names, None);
    BlockFits(session, e.block, lam.body);
    AllFit(session, e.inits, start[0].args);
  }

  lemma LoopNameIsGood(loop: string)
    requires GoodFormals([loop], None)
    ensures !IsReserved(loop)
  {
    hide IsReserved;
    assert [loop][0] == loop;
  }

  lemma FirstShaped(session: string, c: Core)
    requires AllCoreShaped(session, [c])
    ensures CoreShaped(session, c)
  {
  }

  lemma {:induction false} DoFits(session: string, e: Expr, c: Core)
    requires e.Do? && Shaped(e) && Desugars(e, c) && CoreShaped(session, c)
    ensures Fits(e, c)
    decreases Size(e), 0
  {
    hide AllShaped, AllDesugar, AllWellNamed, AllSize, AllHeight, AllCoreShaped, GoodNames, CoreFormals, ParseFormals, IsLetrec,
      LetrecInits, LetrecBody, ProcedureDesugars, CoreShaped, HiddenStepsStay;
    BinderOf(e, c);
    var vars := c.fn.params;
    var lam, start := LetrecInits(vars, c)[0], LetrecBody(vars, c);
    LetrecFacts(session, vars, c);
    assert LetrecInits(vars, c) == [lam] && start == [start[0]];
    OneHeight(lam);
    OneHeight(start[0]);
    FirstShaped(session, lam);
    FirstShaped(session, start[0]);
    ProcedureFits(session, vars[0], e, lam);
    CallFits(session, vars[0], e.inits, start[0]);
  }

  lemma {:induction false} CallFits(session: string, v: Var, es: seq<Expr>, c: Core)
    requires AllShaped(es) && CallDesugars(v, es, c) && CoreShaped(session, c)
    ensures AllWellNamed(es) && Height(c) <= 2 + 4 * AllSize(es)
    decreases AllSize(es), 2
  {
    hide AllShaped, AllDesugar, AllWellNamed, AllSize, AllHeight, AllCoreShaped;
    AllFit(session, es, c.args);
    assert Height(c.fn) == 1;
  }

  lemma {:induction false} ProcedureFits(session: string, v: Var, e: Expr, lam: Core)
    requires e.Do? && Shaped(e) && ProcedureDesugars(v, e.names, e.steps, e.test, e.exits, e.body, lam) && CoreShaped(session, lam)
    ensures GoodNames(e.names) && AllWellNamed(e.steps) && WellNamed(e.test) && AllWellNamed(e.exits) && AllWellNamed(e.body)
    ensures Height(lam) <= 8 + 4 * (AllSize(e.steps) + Size(e.test) + AllSize(e.exits) + AllSize(e.body))
    decreases AllSize(e.steps) + Size(e.test) + AllSize(e.exits) + AllSize(e.body) + 5, 0
  {
    hide Shaped, Desugars, AllShaped, AllDesugar, AllWellNamed, WellNamed, AllSize, Size, GoodNames, CoreFormals, ParseFormals,
      SequenceDesugars, CallDesugars, HiddenStepsStay;
    DoShape(e);
    UserFormals(session, e.names, None);
    var cif := lam.body[0];
    assert lam.body == [cif];
    OneHeight(cif);
    FirstShaped(session, cif);
    ExpandedFits(session, e.test, cif.test);
    SequenceFits(session, e.exits, cif.yes);
    var cs, n := cif.no.body, |e.body|;
    assert cs == cs[..n] + [cs[n]];
    ConcatShaped(session, cs[..n], [cs[n]]);
    HeightConcat(cs[..n], [cs[n]]);
    OneHeight(cs[n]);
    FirstShaped(session, cs[n]);
    AllFit(session, e.body, cs[..n]);
    CallFits(session, v, e.steps, cs[n]);
  }

  lemma {:induction false} ConcatShaped(session: string, a: seq<Core>, b: seq<Core>)
    requires AllCoreShaped(session, a + b)
    ensures AllCoreShaped(session, a) && AllCoreShaped(session, b)
  {
    hide CoreShaped;
    if a == [] {
      assert a + b == b;
    } else {
      assert (a + b)[1..] == a[1..] + b;
      ConcatShaped(session, a[1..], b);
    }
  }

  lemma {:induction false} TestsFit(session: string, e: Expr, c: Core)
    requires (e.And? || e.Or?) && Shaped(e) && Desugars(e, c) && CoreShaped(session, c)
    ensures Fits(e, c)
    decreases Size(e), 0
  {
    hide AllShaped, AndDesugars, OrDesugars, AllWellNamed, AllSize, CoreShaped, Height;
    if e.And? {
      AndFits(session, e.tests, c);
    } else {
      OrFits(session, e.tests, c);
    }
  }

  lemma {:induction false} AndFits(session: string, es: seq<Expr>, c: Core)
    requires AllShaped(es) && AndDesugars(es, c) && CoreShaped(session, c)
    ensures AllWellNamed(es) && Height(c) <= 1 + 4 * AllSize(es)
    decreases AllSize(es), 1
  {
    hide Shaped, Desugars, WellNamed, Size;
    if |es| == 1 {
      ExpandedFits(session, es[0], c);
      NoneNamed();
      assert es[1..] == [];
    } else if es != [] {
      ExpandedFits(session, es[0], c.test);
      AndFits(session, es[1..], c.yes);
    }
  }

  /** A bound temporary adds two levels. */
  lemma TempFacts(session: string, h: Hint, c: Core)
    requires BindsTemp(h, c) && CoreShaped(session, c)
    ensures CoreShaped(session, c.args[0]) && CoreShaped(session, c.fn.body[0])
    ensures Height(c) <= 2 + Max(Height(c.args[0]), Height(c.fn.body[0]))
  {
    hide ParseFormals, CoreFormals;
    var a, b := c.args[0], c.fn.body[0];
    assert c.args == [a] && c.fn.body == [b];
    OneHeight(a);
    OneHeight(b);
    FirstShaped(session, a);
    FirstShaped(session, b);
  }

  lemma OrFacts(session: string, c: Core)
    requires IsOrStep(c) && CoreShaped(session, c)
    ensures CoreShaped(session, OrInit(c)) && CoreShaped(session, OrRest(c))
    ensures Height(c) <= 3 + Max(Height(OrInit(c)), Height(OrRest(c)))
  {
    TempFacts(session, OrTemp, c);
    assert Height(OrRest(c)) >= 1 by { HeightIsPositive(OrRest(c)); }
  }

  lemma HeightIsPositive(c: Core)
    ensures Height(c) >= 1
  {
  }

  lemma {:induction false} OrFits(session: string, es: seq<Expr>, c: Core)
    requires AllShaped(es) && OrDesugars(es, c) && CoreShaped(session, c)
    ensures AllWellNamed(es) && Height(c) <= 1 + 4 * AllSize(es)
    decreases AllSize(es), 1
  {
    hide Shaped, Desugars, WellNamed, CoreShaped, Size, IsOrStep;
    if |es| == 1 {
      ExpandedFits(session, es[0], c);
      NoneNamed();
      assert es[1..] == [];
    } else if es != [] {
      OrFacts(session, c);
      ExpandedFits(session, es[0], OrInit(c));
      OrFits(session, es[1..], OrRest(c));
    }
  }

  lemma {:induction false} ChoiceFormFits(session: string, e: Expr, c: Core)
    requires (e.Cond? || e.Case?) && Shaped(e) && Desugars(e, c) && CoreShaped(session, c)
    ensures Fits(e, c)
    decreases Size(e), 0
  {
    hide CondDesugars, CaseDesugars, ClausesWellNamed, ChoicesWellNamed, OtherwiseWellNamed, CoreShaped, Height, ClausesSize, ChoicesSize,
      OtherwiseSize, AllClausesShaped, AllChoicesShaped, OtherwiseShaped;
    if e.Cond? {
      CondFits(session, e.clauses, e.otherwise, c);
    } else {
      TempFacts(session, CaseTemp, c);
      ExpandedFits(session, e.key, c.args[0]);
      CaseFits(session, c.fn.params[0], e.choices, e.otherwise, c.fn.body[0]);
    }
  }

  lemma {:induction false} ElseFits(session: string, o: Otherwise, c: Core)
    requires OtherwiseShaped(o) && OtherwiseDesugars(o, c) && CoreShaped(session, c)
    ensures OtherwiseWellNamed(o) && Height(c) <= 4 * OtherwiseSize(o)
    decreases OtherwiseSize(o), 0
  {
    hide SequenceDesugars, AllShaped, AllWellNamed, CoreShaped, AllSize;
    if o.Else? {
      SequenceFits(session, o.body, c);
    } else {
      assert AllHeight([]) == 0;
    }
  }

  lemma {:induction false} CondFits(session: string, cls: seq<Clause>, o: Otherwise, c: Core)
    requires AllClausesShaped(cls) && OtherwiseShaped(o) && CondDesugars(cls, o, c) && CoreShaped(session, c)
    ensures ClausesWellNamed(cls) && OtherwiseWellNamed(o) && Height(c) <= 4 * (ClausesSize(cls) + OtherwiseSize(o))
    decreases ClausesSize(cls) + OtherwiseSize(o), 1
  {
    hide Shaped, Desugars, WellNamed, SequenceDesugars, AllShaped, AllWellNamed, OtherwiseDesugars, OtherwiseShaped, OtherwiseWellNamed,
      OtherwiseSize, Size, AllSize;
    if cls == [] {
      ElseFits(session, o, c);
    } else {
      var cl := cls[0];
      assert ClauseDesugars(cl, c) && ClauseShaped(cl) && ClauseSize(cl) == 2 + Size(cl.test) + AllSize(cl.body);
      ExpandedFits(session, cl.test, c.test);
      SequenceFits(session, cl.body, c.yes);
      CondFits(session, cls[1..], o, c.no);
      assert ClauseWellNamed(cl);
    }
  }

  lemma {:induction false} KeyTestFits(session: string, key: Var, data: seq<SExpr>, c: Core)
    requires IsKeyTest(key, data, c) && CoreShaped(session, c)
    ensures Height(c) <= 3 * |data|
    decreases |data|
  {
    hide CoreShaped, Height;
    EqvHeight(key, data[0]);
    if |data| > 1 {
      OrFacts(session, c);
      KeyTestFits(session, key, data[1..], OrRest(c));
    }
  }

  lemma EqvHeight(key: Var, d: SExpr)
    ensures Height(EqvCore(key, d)) == 2
  {
    var args := [CRef(key), CQuote(d)];
    assert args[1..] == [CQuote(d)];
    OneHeight(CQuote(d));
    assert Height(args[0]) == 1 && Height(CQuote(d)) == 1 && Height(CRef(User("eqv?"))) == 1;
    assert AllHeight(args) == 1;
  }

  lemma {:induction false} CaseFits(session: string, key: Var, chs: seq<Choice>, o: Otherwise, c: Core)
    requires AllChoicesShaped(chs) && OtherwiseShaped(o) && CaseDesugars(key, chs, o, c) && CoreShaped(session, c)
    ensures ChoicesWellNamed(chs) && OtherwiseWellNamed(o) && Height(c) <= 4 * (ChoicesSize(chs) + OtherwiseSize(o))
    decreases ChoicesSize(chs) + OtherwiseSize(o), 1
  {
    hide SequenceDesugars, AllShaped, AllWellNamed, OtherwiseDesugars, OtherwiseShaped, OtherwiseWellNamed, OtherwiseSize, AllSize;
    if chs == [] {
      ElseFits(session, o, c);
    } else {
      var ch := chs[0];
      assert ChoiceDesugars(key, ch, c) && ChoiceShaped(ch) && ChoiceSize(ch) == 2 + |ch.data| + AllSize(ch.body);
      KeyTestFits(session, key, ch.data, c.test);
      SequenceFits(session, ch.body, c.yes);
      CaseFits(session, key, chs[1..], o, c.no);
      assert ChoiceWellNamed(ch);
    }
  }

  lemma {:induction false} TemplateFits(session: string, e: Expr, c: Core)
    requires e.Quasi? && Shaped(e) && Desugars(e, c) && CoreShaped(session, c)
    ensures Fits(e, c)
    decreases Size(e), 0
  {
    hide TmplDesugars, TmplShaped, TmplWellNamed, CoreShaped, Height, TmplSize;
    TmplFits(session, e.template, c);
  }

  lemma {:induction false} TmplFits(session: string, t: Tmpl, c: Core)
    requires TmplShaped(t) && TmplDesugars(t, c) && CoreShaped(session, c)
    ensures TmplWellNamed(t) && Height(c) <= 4 * TmplSize(t)
    decreases TmplSize(t), 1
  {
    hide Desugars, ElemsDesugar, Shaped, AllElemsShaped, WellNamed, ElemsWellNamed, Size, ElemsSize, ReadsAsQuote;
    match t
    case Constant(d) =>
    case Unquoted(_, e) => ExpandedFits(session, e, c);
    case Listed(elems, None) => ElemsFit(session, elems, CQuote(Proper([])), c);
    case Listed(elems, Some(tail)) =>
      var r :| TmplDesugars(tail, r) && ElemsDesugar(elems, r, c);
      RestShaped(session, elems, r, c);
      TmplFits(session, tail, r);
      ElemsFit(session, elems, r, c);
    case Vectored(elems) =>
      assert c.args == [c.args[0]];
      OneHeight(c.args[0]);
      FirstShaped(session, c.args[0]);
      ElemsFit(session, elems, CQuote(Proper([])), c.args[0]);
  }

  lemma {:induction false} RestShaped(session: string, xs: seq<Elem>, rest: Core, c: Core)
    requires ElemsDesugar(xs, rest, c) && CoreShaped(session, c)
    ensures CoreShaped(session, rest)
    decreases xs
  {
    if xs != [] {
      assert ElemDesugars(xs[0], c);
      PairCallFacts(session, if xs[0].One? then "cons" else "append", c);
      RestShaped(session, xs[1..], rest, c.args[1]);
    }
  }

  lemma PairCallFacts(session: string, name: string, c: Core)
    requires IsCall(name, 2, c) && CoreShaped(session, c)
    ensures CoreShaped(session, c.args[0]) && CoreShaped(session, c.args[1])
    ensures Height(c) <= 1 + Max(Height(c.args[0]), Height(c.args[1]))
  {
    var a, b := c.args[0], c.args[1];
    assert c.args == [a, b] && [a, b][1..] == [b];
    OneHeight(b);
    FirstShaped(session, b);
    HeightIsPositive(a);
  }

  lemma {:induction false} ElemsFit(session: string, xs: seq<Elem>, rest: Core, c: Core)
    requires AllElemsShaped(xs) && ElemsDesugar(xs, rest, c) && CoreShaped(session, c)
    ensures ElemsWellNamed(xs) && Height(c) <= Height(rest) + 4 * ElemsSize(xs)
    decreases ElemsSize(xs), 1
  {
    hide TmplDesugars, Desugars, TmplShaped, Shaped, TmplWellNamed, WellNamed, TmplSize, Size, CoreShaped, Height;
    if xs != [] {
      var x := xs[0];
      assert ElemDesugars(x, c) && ElemShaped(x) && ElemsSize(xs) == 1 + ElemSize(x) + ElemsSize(xs[1..]);
      PairCallFacts(session, if x.One? then "cons" else "append", c);
      match x {
        case One(t) => TmplFits(session, t, c.args[0]);
        case Splice(_, e) => ExpandedFits(session, e, c.args[0]);
      }
      ElemsFit(session, xs[1..], rest, c.args[1]);
      assert ElemWellNamed(x);
    }
  }
}
