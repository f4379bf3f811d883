/** An expansion uses the program's own names, its gensyms and four procedures, and nothing else. */
module CoreNames {
  import opened Wrappers
  import opened SExprs
  import opened Programs
  import opened Desugaring

  predicate NamesIn(names: seq<string>, ns: set<string>) {
    forall i :: 0 <= i < |names| ==> names[i] in ns
  }

  predicate RestIn(rest: Option<string>, ns: set<string>) {
    rest.Some? ==> rest.value in ns
  }

  /** Every name a program binds, assigns or looks up. */
  predicate Named(e: Expr, ns: set<string>) {
    match e
    case Lit(_) => true
    case Ref(n) => n in ns
    case QuoteOf(_, _) => true
    case If(t, y, o) => Named(t, ns) && Named(y, ns) && Named(o, ns)
    case OneArmed(t, y) => Named(t, ns) && Named(y, ns)
    case Begin(body) => AllNamed(body, ns)
    case Lambda(params, rest, body) => NamesIn(params, ns) && RestIn(rest, ns) && BlockNamed(body, ns)
    case Assign(n, v) => n in ns && Named(v, ns)
    case App(f, args) => Named(f, ns) && AllNamed(args, ns)
    case Let(names, inits, body) => NamesIn(names, ns) && AllNamed(inits, ns) && BlockNamed(body, ns)
    case LoopLet(loop, names, inits, body) =>
      loop in ns && NamesIn(names, ns) && AllNamed(inits, ns) && BlockNamed(body, ns)
    case LetStar(names, inits, body) => NamesIn(names, ns) && AllNamed(inits, ns) && BlockNamed(body, ns)
    case Letrec(names, inits, body) => NamesIn(names, ns) && AllNamed(inits, ns) && AllNamed(body, ns)
    case And(tests) => AllNamed(tests, ns)
    case Or(tests) => AllNamed(tests, ns)
    case When(t, body) => Named(t, ns) && AllNamed(body, ns)
    case Unless(t, body) => Named(t, ns) && AllNamed(body, ns)
    case Cond(clauses, otherwise) => ClausesNamed(clauses, ns) && OtherwiseNamed(otherwise, ns)
    case Case(key, choices, otherwise) => Named(key, ns) && ChoicesNamed(choices, ns) && OtherwiseNamed(otherwise, ns)
    case Do(names, inits, steps, _, test, exits, body) =>
      && NamesIn(names, ns) && AllNamed(inits, ns) && AllNamed(steps, ns) && Named(test, ns)
      && AllNamed(exits, ns) && AllNamed(body, ns)
    case Quasi(_, t) => TmplNamed(t, ns)
  }

  predicate AllNamed(es: seq<Expr>, ns: set<string>) {
    es == [] || (Named(es[0], ns) && AllNamed(es[1..], ns))
  }

  predicate BlockNamed(b: Block, ns: set<string>) {
    NamesIn(b.names, ns) && AllNamed(b.inits, ns) && AllNamed(b.exprs, ns)
  }

  predicate OtherwiseNamed(o: Otherwise, ns: set<string>) {
    match o
    case NoElse => true
    case Else(body) => AllNamed(body, ns)
  }

  predicate ClauseNamed(c: Clause, ns: set<string>) {
    Named(c.test, ns) && AllNamed(c.body, ns)
  }

  predicate ClausesNamed(cs: seq<Clause>, ns: set<string>) {
    cs == [] || (ClauseNamed(cs[0], ns) && ClausesNamed(cs[1..], ns))
  }

  predicate ChoiceNamed(c: Choice, ns: set<string>) {
    AllNamed(c.body, ns)
  }

  predicate ChoicesNamed(cs: seq<Choice>, ns: set<string>) {
    cs == [] || (ChoiceNamed(cs[0], ns) && ChoicesNamed(cs[1..], ns))
  }

  predicate TmplNamed(t: Tmpl, ns: set<string>) {
    match t
    case Constant(_) => true
    case Unquoted(_, e) => Named(e, ns)
    case Listed(elems, None) => ElemsNamed(elems, ns)
    case Listed(elems, Some(tail)) => ElemsNamed(elems, ns) && TmplNamed(tail, ns)
    case Vectored(elems) => ElemsNamed(elems, ns)
  }

  predicate ElemNamed(x: Elem, ns: set<string>) {
    match x
    case One(t) => TmplNamed(t, ns)
    case Splice(_, e) => Named(e, ns)
  }

  predicate ElemsNamed(xs: seq<Elem>, ns: set<string>) {
    xs == [] || (ElemNamed(xs[0], ns) && ElemsNamed(xs[1..], ns))
  }

  // ---- Core programs ----

  predicate VarIn(v: Var, ns: set<string>) {
    v.User? ==> v.name in ns
  }

  predicate UsersIn(c: Core, ns: set<string>) {
    match c
    case CLit(_) => true
    case CRef(v) => VarIn(v, ns)
    case CQuote(_) => true
    case CIf(t, y, o) => UsersIn(t, ns) && UsersIn(y, ns) && UsersIn(o, ns)
    case CBegin(body) => AllUsersIn(body, ns)
    case CLambda(params, rest, body) =>
      && (forall i :: 0 <= i < |params| ==> VarIn(params[i], ns)) && (rest.Some? ==> VarIn(rest.value, ns))
      && AllUsersIn(body, ns)
    case CSet(v, x) => VarIn(v, ns) && UsersIn(x, ns)
    case CApp(f, args) => UsersIn(f, ns) && AllUsersIn(args, ns)
  }

  predicate AllUsersIn(cs: seq<Core>, ns: set<string>) {
    cs == [] || (UsersIn(cs[0], ns) && AllUsersIn(cs[1..], ns))
  }

  predicate HasListOps(ns: set<string>) {
    "eqv?" in ns && "cons" in ns && "append" in ns && "list->vector" in ns
  }

  lemma {:induction false} AllIn(cs: seq<Core>, ns: set<string>)
    ensures AllUsersIn(cs, ns) <==> forall i :: 0 <= i < |cs| ==> UsersIn(cs[i], ns)
  {
    hide UsersIn;
    if cs != [] {
      AllIn(cs[1..], ns);
      assert forall i :: 0 < i < |cs| ==> cs[i] == cs[1..][i - 1];
    }
  }

  lemma OneIn(c: Core, ns: set<string>)
    ensures AllUsersIn([c], ns) <==> UsersIn(c, ns)
  {
    assert [c][1..] == [];
  }

  lemma NilsIn(n: nat, ns: set<string>)
    ensures AllUsersIn(Nils(n), ns)
  {
    AllIn(Nils(n), ns);
  }

  lemma LetrecIn(vars: seq<Var>, c: Core, ns: set<string>)
    requires IsLetrec(vars, c) && forall i :: 0 <= i < |vars| ==> VarIn(vars[i], ns)
    requires AllUsersIn(LetrecInits(vars, c), ns) && AllUsersIn(LetrecBody(vars, c), ns)
    ensures UsersIn(c, ns)
  {
    hide VarIn;
    var inits, body := LetrecInits(vars, c), LetrecBody(vars, c);
    LetrecIsCoreLetrec(vars, c);
    var all := CoreSets(vars, inits) + body;
    AllIn(inits, ns);
    AllIn(body, ns);
    forall i | 0 <= i < |all| ensures UsersIn(all[i], ns) {
      if i < |vars| {
        assert all[i] == CSet(vars[i], inits[i]);
      } else {
        assert all[i] == body[i - |vars|];
      }
    }
    AllIn(all, ns);
    OneIn(CBegin(all), ns);
    NilsIn(|vars|, ns);
  }

  lemma ParamsIn(names: seq<string>, ns: set<string>)
    requires NamesIn(names, ns)
    ensures forall i :: 0 <= i < |names| ==> VarIn(Users(names)[i], ns)
  {
  }

  // ---- The program's names and no others ----

  lemma {:induction false} NamesKept(e: Expr, c: Core, ns: set<string>)
    requires Desugars(e, c) && Named(e, ns) && HasListOps(ns)
    ensures UsersIn(c, ns)
    decreases Size(e), 1
  {
    hide *;
    match e
    case Lit(_) => LeafNames(e, c, ns);
    case Ref(_) => LeafNames(e, c, ns);
    case QuoteOf(_, _) => LeafNames(e, c, ns);
    case If(_, _, _) => BranchNames(e, c, ns);
    case OneArmed(_, _) => BranchNames(e, c, ns);
    case When(_, _) => BranchNames(e, c, ns);
    case Unless(_, _) => BranchNames(e, c, ns);
    case Begin(_) => PlainNames(e, c, ns);
    case Lambda(_, _, _) => PlainNames(e, c, ns);
    case Assign(_, _) => PlainNames(e, c, ns);
    case App(_, _) => PlainNames(e, c, ns);
    case Let(_, _, _) => BinderNames(e, c, ns);
    case LetStar(_, _, _) => BinderNames(e, c, ns);
    case Letrec(_, _, _) => BinderNames(e, c, ns);
    case LoopLet(_, _, _, _) => LoopNames(e, c, ns);
    case Do(_, _, _, _, _, _, _) => DoLoopNames(e, c, ns);
    case And(_) => TestNames(e, c, ns);
    case Or(_) => TestNames(e, c, ns);
    case Cond(_, _) => ChoiceFormNames(e, c, ns);
    case Case(_, _, _) => ChoiceFormNames(e, c, ns);
    case Quasi(_, _) => TemplateNames(e, c, ns);
  }

  lemma {:induction false} AllNamesKept(es: seq<Expr>, cs: seq<Core>, ns: set<string>)
    requires AllDesugar(es, cs) && AllNamed(es, ns) && HasListOps(ns)
    ensures AllUsersIn(cs, ns)
    decreases AllSize(es), 1
  {
    hide Desugars, Named, UsersIn;
    if es != [] {
      NamesKept(es[0], cs[0], ns);
      AllNamesKept(es[1..], cs[1..], ns);
    }
  }

  lemma {:induction false} SequenceNames(es: seq<Expr>, c: Core, ns: set<string>)
    requires SequenceDesugars(es, c) && AllNamed(es, ns) && HasListOps(ns)
    ensures UsersIn(c, ns)
    decreases AllSize(es), 2
  {
    hide AllDesugar, AllNamed;
    AllNamesKept(es, c.body, ns);
  }

  lemma LeafNames(e: Expr, c: Core, ns: set<string>)
    requires (e.Lit? || e.Ref? || e.QuoteOf?) && Desugars(e, c) && Named(e, ns)
    ensures UsersIn(c, ns)
  {
  }

  lemma {:induction false} PlainNames(e: Expr, c: Core, ns: set<string>)
    requires (e.Begin? || e.Lambda? || e.Assign? || e.App?) && Desugars(e, c) && Named(e, ns) && HasListOps(ns)
    ensures UsersIn(c, ns)
    decreases Size(e), 0
  {
    hide AllDesugar, AllNamed, AllSize, BlockDesugars, BlockNamed;
    if e.Begin? {
      SequenceNames(e.body, c, ns);
    } else if e.Lambda? {
      ParamsIn(e.params, ns);
      BlockNames(e.block, c.body, ns);
    } else if e.Assign? {
      NamesKept(e.value, c.value, ns);
    } else {
      NamesKept(e.fn, c.fn, ns);
      AllNamesKept(e.args, c.args, ns);
    }
  }

  lemma {:induction false} BranchNames(e: Expr, c: Core, ns: set<string>)
    requires (e.If? || e.OneArmed? || e.When? || e.Unless?) && Desugars(e, c) && Named(e, ns) && HasListOps(ns)
    ensures UsersIn(c, ns)
    decreases Size(e), 0
  {
    hide AllDesugar, AllNamed, AllSize, SequenceDesugars;
    BranchOf(e, c);
    assert UsersIn(EMPTY_BEGIN, ns) by { EmptyIn(ns); }
    NamesKept(e.test, c.test, ns);
    if e.If? {
      NamesKept(e.yes, c.yes, ns);
      NamesKept(e.no, c.no, ns);
    } else if e.OneArmed? {
      NamesKept(e.yes, c.yes, ns);
    } else if e.When? {
      SequenceNames(e.body, c.yes, ns);
    } else {
      SequenceNames(e.body, c.no, ns);
    }
  }

  lemma EmptyIn(ns: set<string>)
    ensures UsersIn(EMPTY_BEGIN, ns)
  {
    assert AllUsersIn([], ns);
  }

  lemma {:induction false} BinderNames(e: Expr, c: Core, ns: set<string>)
    requires (e.Let? || e.LetStar? || e.Letrec?) && Desugars(e, c) && Named(e, ns) && HasListOps(ns)
    ensures UsersIn(c, ns)
    decreases Size(e), 0
  {
    hide AllDesugar, AllNamed, BlockNamed, AllSize, LetDesugars, LetStarDesugars, LetrecDesugars, NamesIn, Users, UsersIn;
    BinderOf(e, c);
    if e.Let? {
      LetNames(e.names, e.inits, e.block, c, ns);
    } else if e.LetStar? {
      StarNames(e.names, e.inits, e.block, c, ns);
    } else {
      LetrecNames(e.names, e.inits, e.body, c, ns);
    }
  }

  lemma {:induction false} BlockNames(b: Block, cs: seq<Core>, ns: set<string>)
    requires BlockDesugars(b, cs) && BlockNamed(b, ns) && HasListOps(ns)
    ensures AllUsersIn(cs, ns)
    decreases BlockSize(b), 1
  {
    hide AllDesugar, AllNamed, LetrecDesugars, NamesIn, UsersIn, AllSize;
    if b.names == [] {
      AllNamesKept(b.exprs, cs, ns);
    } else {
      LetrecNames(b.names, b.inits, b.exprs, cs[0], ns);
      OneIn(cs[0], ns);
      assert cs == [cs[0]];
    }
  }

  lemma {:induction false} LetNames(names: seq<string>, inits: seq<Expr>, body: Block, c: Core, ns: set<string>)
    requires LetDesugars(names, inits, body, c) && NamesIn(names, ns) && AllNamed(inits, ns) && BlockNamed(body, ns) && HasListOps(ns)
    ensures UsersIn(c, ns)
    decreases AllSize(inits) + BlockSize(body), 2
  {
    hide AllDesugar, AllNamed, NamesIn, AllSize, BlockDesugars, BlockNamed;
    ParamsIn(names, ns);
    AllNamesKept(inits, c.args, ns);
    BlockNames(body, c.fn.body, ns);
  }

  lemma {:induction false} StarNames(names: seq<string>, inits: seq<Expr>, body: Block, c: Core, ns: set<string>)
    requires LetStarDesugars(names, inits, body, c) && NamesIn(names, ns) && AllNamed(inits, ns) && BlockNamed(body, ns) && HasListOps(ns)
    ensures UsersIn(c, ns)
    decreases AllSize(inits) + BlockSize(body), 3
  {
    hide Desugars, Named, LetDesugars, BlockNamed;
    if names == [] || inits == [] {
      LetNames([], [], body, c, ns);
    } else {
      assert NamesIn(names[1..], ns) by { assert forall i :: 0 <= i < |names[1..]| ==> names[1..][i] == names[i + 1]; }
      NamesKept(inits[0], c.args[0], ns);
      StarNames(names[1..], inits[1..], body, c.fn.body[0], ns);
      OneIn(c.args[0], ns);
      OneIn(c.fn.body[0], ns);
      assert c.args == [c.args[0]] && c.fn.body == [c.fn.body[0]];
    }
  }

  lemma {:induction false} LetrecNames(names: seq<string>, inits: seq<Expr>, body: seq<Expr>, c: Core, ns: set<string>)
    requires LetrecDesugars(names, inits, body, c) && NamesIn(names, ns) && AllNamed(inits, ns) && AllNamed(body, ns) && HasListOps(ns)
    ensures UsersIn(c, ns)
    decreases AllSize(inits) + AllSize(body), 2
  {
    hide AllDesugar, AllNamed, NamesIn, AllSize, IsLetrec, LetrecInits, LetrecBody, Users, Distinct;
    ParamsIn(names, ns);
    AllNamesKept(inits, LetrecInits(Users(names), c), ns);
    AllNamesKept(body, LetrecBody(Users(names), c), ns);
    LetrecIn(Users(names), c, ns);
  }

  lemma {:induction false} LoopNames(e: Expr, c: Core, ns: set<string>)
    requires e.LoopLet? && Desugars(e, c) && Named(e, ns) && HasListOps(ns)
    ensures UsersIn(c, ns)
    decreases Size(e), 0
  {
    hide AllDesugar, AllNamed, AllSize, IsLetrec, LetrecInits, LetrecBody, NamesIn, BlockDesugars, BlockNamed;
    BinderOf(e, c);
    var vars := [User(e.loop)];
    var lam, start := LetrecInits(vars, c)[0], LetrecBody(vars, c);
    ParamsIn(e.names, ns);
    BlockNames(e.block, lam.body, ns);
    AllNamesKept(e.inits, start[0].args, ns);
    OneIn(lam, ns);
    OneIn(start[0], ns);
    assert LetrecInits(vars, c) == [lam] && start == [start[0]];
    LetrecIn(vars, c, ns);
  }

  lemma {:induction false} DoLoopNames(e: Expr, c: Core, ns: set<string>)
    requires e.Do? && Desugars(e, c) && Named(e, ns) && HasListOps(ns)
    ensures UsersIn(c, ns)
    decreases Size(e), 0
  {
    hide AllDesugar, AllNamed, AllSize, IsLetrec, LetrecInits, LetrecBody, NamesIn, Users, ProcedureDesugars, UsersIn, Named;
    BinderOf(e, c);
    var vars := c.fn.params;
    var v := vars[0];
    var lam, start := LetrecInits(vars, c)[0], LetrecBody(vars, c);
    ProcedureNames(v, e, lam, ns);
    CallNames(v, e.inits, start[0], ns) by { InitsNamed(e, ns); }
    OneIn(lam, ns);
    OneIn(start[0], ns);
    assert LetrecInits(vars, c) == [lam] && start == [start[0]];
    LetrecIn(vars, c, ns);
  }

  lemma InitsNamed(e: Expr, ns: set<string>)
    requires e.Do? && Named(e, ns)
    ensures AllNamed(e.inits, ns)
  {
  }

  lemma {:induction false} CallNames(v: Var, es: seq<Expr>, c: Core, ns: set<string>)
    requires v.Temp? && CallDesugars(v, es, c) && AllNamed(es, ns) && HasListOps(ns)
    ensures UsersIn(c, ns)
    decreases AllSize(es), 2
  {
    hide AllDesugar, AllNamed;
    AllNamesKept(es, c.args, ns);
    assert UsersIn(CRef(v), ns);
  }

  lemma {:induction false} ProcedureNames(v: Var, e: Expr, lam: Core, ns: set<string>)
    requires e.Do? && v.Temp? && ProcedureDesugars(v, e.names, e.steps, e.test, e.exits, e.body, lam)
    requires Named(e, ns) && HasListOps(ns)
    ensures UsersIn(lam, ns)
    decreases AllSize(e.steps) + Size(e.test) + AllSize(e.exits) + AllSize(e.body) + 5, 0
  {
    hide Desugars, AllDesugar, SequenceDesugars, CallDesugars, AllNamed, NamesIn, HasListOps, AllSize;
    var cif := lam.body[0];
    ParamsIn(e.names, ns);
    NamesKept(e.test, cif.test, ns);
    SequenceNames(e.exits, cif.yes, ns);
    var cs, n := cif.no.body, |e.body|;
    AllNamesKept(e.body, cs[..n], ns);
    CallNames(v, e.steps, cs[n], ns);
    AllIn(cs[..n], ns);
    AllIn(cs, ns);
    assert UsersIn(cif.no, ns);
    OneIn(cif, ns);
    assert lam.body == [cif];
  }

  lemma {:induction false} TestNames(e: Expr, c: Core, ns: set<string>)
    requires (e.And? || e.Or?) && Desugars(e, c) && Named(e, ns) && HasListOps(ns)
    ensures UsersIn(c, ns)
    decreases Size(e), 0
  {
    hide AndDesugars, OrDesugars, AllNamed, AllSize, UsersIn;
    if e.And? {
      AndNames(e.tests, c, ns);
    } else {
      OrNames(e.tests, c, ns);
    }
  }

  lemma {:induction false} AndNames(es: seq<Expr>, c: Core, ns: set<string>)
    requires AndDesugars(es, c) && AllNamed(es, ns) && HasListOps(ns)
    ensures UsersIn(c, ns)
    decreases AllSize(es), 1
  {
    hide Desugars, Named;
    if |es| == 1 {
      NamesKept(es[0], c, ns);
    } else if es != [] {
      NamesKept(es[0], c.test, ns);
      AndNames(es[1..], c.yes, ns);
    }
  }

  lemma OrStepIn(c: Core, ns: set<string>)
    requires IsOrStep(c) && UsersIn(OrInit(c), ns) && UsersIn(OrRest(c), ns)
    ensures UsersIn(c, ns)
  {
    TempStepIn(OrTemp, c, ns);
  }

  lemma TempStepIn(h: Hint, c: Core, ns: set<string>)
    requires BindsTemp(h, c) && UsersIn(c.args[0], ns) && UsersIn(c.fn.body[0], ns)
    ensures UsersIn(c, ns)
  {
    OneIn(c.args[0], ns);
    OneIn(c.fn.body[0], ns);
    assert c.args == [c.args[0]] && c.fn.body == [c.fn.body[0]];
  }

  lemma {:induction false} OrNames(es: seq<Expr>, c: Core, ns: set<string>)
    requires OrDesugars(es, c) && AllNamed(es, ns) && HasListOps(ns)
    ensures UsersIn(c, ns)
    decreases AllSize(es), 1
  {
    hide Desugars, Named, UsersIn;
    if |es| == 1 {
      NamesKept(es[0], c, ns);
    } else if es != [] {
      NamesKept(es[0], OrInit(c), ns);
      OrNames(es[1..], OrRest(c), ns);
      OrStepIn(c, ns);
    } else {
      LiteralIn(Bool(false), ns);
    }
  }

  lemma LiteralIn(d: SExpr, ns: set<string>)
    ensures UsersIn(CLit(d), ns)
  {
  }

  lemma {:induction false} ChoiceFormNames(e: Expr, c: Core, ns: set<string>)
    requires (e.Cond? || e.Case?) && Desugars(e, c) && Named(e, ns) && HasListOps(ns)
    ensures UsersIn(c, ns)
    decreases Size(e), 0
  {
    hide CondDesugars, CaseDesugars, ClausesNamed, ChoicesNamed, OtherwiseNamed, UsersIn, HasListOps;
    if e.Cond? {
      CondNames(e.clauses, e.otherwise, c, ns);
    } else {
      NamesKept(e.key, c.args[0], ns);
      CaseNames(c.fn.params[0], e.choices, e.otherwise, c.fn.body[0], ns);
      TempStepIn(CaseTemp, c, ns);
    }
  }

  lemma {:induction false} ElseNames(o: Otherwise, c: Core, ns: set<string>)
    requires OtherwiseDesugars(o, c) && OtherwiseNamed(o, ns) && HasListOps(ns)
    ensures UsersIn(c, ns)
    decreases OtherwiseSize(o), 0
  {
    hide SequenceDesugars, AllNamed, UsersIn;
    if o.Else? {
      SequenceNames(o.body, c, ns);
    } else {
      EmptyIn(ns);
    }
  }

  lemma {:induction false} CondNames(cls: seq<Clause>, o: Otherwise, c: Core, ns: set<string>)
    requires CondDesugars(cls, o, c) && ClausesNamed(cls, ns) && OtherwiseNamed(o, ns) && HasListOps(ns)
    ensures UsersIn(c, ns)
    decreases ClausesSize(cls) + OtherwiseSize(o), 1
  {
    hide Desugars, Named, SequenceDesugars, AllNamed, OtherwiseDesugars, OtherwiseNamed, HasListOps;
    if cls == [] {
      ElseNames(o, c, ns);
    } else {
      var cl := cls[0];
      assert ClauseDesugars(cl, c) && ClauseNamed(cl, ns) && ClauseSize(cl) == 2 + Size(cl.test) + AllSize(cl.body);
      NamesKept(cl.test, c.test, ns);
      SequenceNames(cl.body, c.yes, ns);
      CondNames(cls[1..], o, c.no, ns);
    }
  }

  lemma {:induction false} KeyTestIn(key: Var, data: seq<SExpr>, c: Core, ns: set<string>)
    requires IsKeyTest(key, data, c) && key.Temp? && HasListOps(ns)
    ensures UsersIn(c, ns)
    decreases |data|
  {
    hide UsersIn;
    EqvIn(key, data[0], ns);
    if |data| > 1 {
      KeyTestIn(key, data[1..], OrRest(c), ns);
      OrStepIn(c, ns);
    }
  }

  lemma EqvIn(key: Var, d: SExpr, ns: set<string>)
    requires key.Temp? && HasListOps(ns)
    ensures UsersIn(EqvCore(key, d), ns)
  {
    OneIn(CQuote(d), ns);
    assert [CRef(key), CQuote(d)][1..] == [CQuote(d)];
    assert UsersIn(CRef(key), ns) && UsersIn(CRef(User("eqv?")), ns);
  }

  lemma {:induction false} CaseNames(key: Var, chs: seq<Choice>, o: Otherwise, c: Core, ns: set<string>)
    requires CaseDesugars(key, chs, o, c) && key.Temp? && ChoicesNamed(chs, ns) && OtherwiseNamed(o, ns) && HasListOps(ns)
    ensures UsersIn(c, ns)
    decreases ChoicesSize(chs) + OtherwiseSize(o), 1
  {
    hide SequenceDesugars, AllNamed, OtherwiseDesugars, OtherwiseNamed, HasListOps, IsKeyTest;
    if chs == [] {
      ElseNames(o, c, ns);
    } else {
      var ch := chs[0];
      assert ChoiceDesugars(key, ch, c) && ChoiceNamed(ch, ns) && ChoiceSize(ch) == 2 + |ch.data| + AllSize(ch.body);
      KeyTestIn(key, ch.data, c.test, ns);
      SequenceNames(ch.body, c.yes, ns);
      CaseNames(key, chs[1..], o, c.no, ns);
    }
  }

  lemma {:induction false} TemplateNames(e: Expr, c: Core, ns: set<string>)
    requires e.Quasi? && Desugars(e, c) && Named(e, ns) && HasListOps(ns)
    ensures UsersIn(c, ns)
    decreases Size(e), 0
  {
    hide TmplDesugars, TmplNamed, UsersIn;
    TmplNames(e.template, c, ns);
  }

  lemma {:induction false} TmplNames(t: Tmpl, c: Core, ns: set<string>)
    requires TmplDesugars(t, c) && TmplNamed(t, ns) && HasListOps(ns)
    ensures UsersIn(c, ns)
    decreases TmplSize(t), 1
  {
    hide Desugars, ElemsDesugar, Named, ElemsNamed;
    match t
    case Constant(d) =>
    case Unquoted(_, e) => NamesKept(e, c, ns);
    case Listed(elems, None) => ElemsNames(elems, CQuote(Proper([])), c, ns);
    case Listed(elems, Some(tail)) =>
      var r :| TmplDesugars(tail, r) && ElemsDesugar(elems, r, c);
      TmplNames(tail, r, ns);
      ElemsNames(elems, r, c, ns);
    case Vectored(elems) =>
      ElemsNames(elems, CQuote(Proper([])), c.args[0], ns);
      OneIn(c.args[0], ns);
      assert c.args == [c.args[0]] && UsersIn(CRef(User("list->vector")), ns);
  }

  lemma {:induction false} ElemsNames(xs: seq<Elem>, rest: Core, c: Core, ns: set<string>)
    requires ElemsDesugar(xs, rest, c) && ElemsNamed(xs, ns) && UsersIn(rest, ns) && HasListOps(ns)
    ensures UsersIn(c, ns)
    decreases ElemsSize(xs), 1
  {
    hide TmplDesugars, Desugars, TmplNamed, Named, UsersIn;
    if xs != [] {
      var x := xs[0];
      assert ElemDesugars(x, c) && ElemNamed(x, ns) && ElemsSize(xs) == 1 + ElemSize(x) + ElemsSize(xs[1..]);
      match x {
        case One(t) => TmplNames(t, c.args[0], ns);
        case Splice(_, e) => NamesKept(e, c.args[0], ns);
      }
      ElemsNames(xs[1..], rest, c.args[1], ns);
      PairCallIn(if x.One? then "cons" else "append", c, ns);
    }
  }

  lemma PairCallIn(name: string, c: Core, ns: set<string>)
    requires IsCall(name, 2, c) && name in ns && UsersIn(c.args[0], ns) && UsersIn(c.args[1], ns)
    ensures UsersIn(c, ns)
  {
    AllIn(c.args, ns);
    assert UsersIn(CRef(User(name)), ns);
  }
}
