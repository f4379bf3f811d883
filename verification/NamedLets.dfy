/**
 Named lets without the name capture: every named let written as the letrec it expands through. The
 two desugar to the same core programs, so this is what every program's expansion means.
 */
module NamedLets {
  import opened Wrappers
  import opened SExprs
  import opened Expanders
  import opened Programs
  import opened Desugaring

  /** `(letrec ((loop (lambda (name ...) body ...))) (loop init ...))` */
  function LoopLetrec(loop: string, names: seq<string>, inits: seq<Expr>, block: Block): Expr {
    Letrec([loop], [Lambda(names, None, block)], [App(Ref(loop), inits)])
  }

  // ---- Programs without named lets ----

  function Unlooped(e: Expr): Expr {
    match e
    case If(t, y, o) => If(Unlooped(t), Unlooped(y), Unlooped(o))
    case OneArmed(t, y) => OneArmed(Unlooped(t), Unlooped(y))
    case Begin(body) => Begin(UnloopedAll(body))
    case Lambda(params, rest, body) => Lambda(params, rest, UnloopedBlock(body))
    case Assign(n, v) => Assign(n, Unlooped(v))
    case App(f, args) => App(Unlooped(f), UnloopedAll(args))
    case Let(names, inits, body) => Let(names, UnloopedAll(inits), UnloopedBlock(body))
    case LoopLet(loop, names, inits, body) => LoopLetrec(loop, names, UnloopedAll(inits), UnloopedBlock(body))
    case LetStar(names, inits, body) => LetStar(names, UnloopedAll(inits), UnloopedBlock(body))
    case Letrec(names, inits, body) => Letrec(names, UnloopedAll(inits), UnloopedAll(body))
    case And(tests) => And(UnloopedAll(tests))
    case Or(tests) => Or(UnloopedAll(tests))
    case When(t, body) => When(Unlooped(t), UnloopedAll(body))
    case Unless(t, body) => Unless(Unlooped(t), UnloopedAll(body))
    case Cond(clauses, otherwise) => Cond(UnloopedClauses(clauses), UnloopedElse(otherwise))
    case Case(key, choices, otherwise) => Case(Unlooped(key), UnloopedChoices(choices), UnloopedElse(otherwise))
    case Do(names, inits, steps, shown, test, exits, body) =>
      Do(names, UnloopedAll(inits), UnloopedAll(steps), shown, Unlooped(test), UnloopedAll(exits), UnloopedAll(body))
    case Quasi(short, t) => Quasi(short, UnloopedTmpl(t))
    case _ => e
  }

  function UnloopedAll(es: seq<Expr>): (r: seq<Expr>)
    ensures |r| == |es|
  {
    if es == [] then [] else [Unlooped(es[0])] + UnloopedAll(es[1..])
  }

  function UnloopedBlock(b: Block): Block {
    Block(b.names, UnloopedAll(b.inits), UnloopedAll(b.exprs))
  }

  function UnloopedElse(o: Otherwise): Otherwise {
    match o
    case NoElse => NoElse
    case Else(body) => Else(UnloopedAll(body))
  }

  function UnloopedClauses(cs: seq<Clause>): (r: seq<Clause>)
    ensures |r| == |cs|
  {
    if cs == [] then [] else [UnloopedClause(cs[0])] + UnloopedClauses(cs[1..])
  }

  function UnloopedClause(cl: Clause): Clause {
    Clause(Unlooped(cl.test), UnloopedAll(cl.body))
  }

  function UnloopedChoices(cs: seq<Choice>): (r: seq<Choice>)
    ensures |r| == |cs|
  {
    if cs == [] then [] else [Choice(cs[0].data, UnloopedAll(cs[0].body))] + UnloopedChoices(cs[1..])
  }

  function UnloopedTmpl(t: Tmpl): Tmpl {
    match t
    case Constant(d) => Constant(d)
    case Unquoted(short, e) => Unquoted(short, Unlooped(e))
    case Listed(elems, None) => Listed(UnloopedElems(elems), None)
    case Listed(elems, Some(tail)) => Listed(UnloopedElems(elems), Some(UnloopedTmpl(tail)))
    case Vectored(elems) => Vectored(UnloopedElems(elems))
  }

  function UnloopedElem(x: Elem): Elem {
    match x
    case One(t) => One(UnloopedTmpl(t))
    case Splice(short, e) => Splice(short, Unlooped(e))
  }

  function UnloopedElems(xs: seq<Elem>): (r: seq<Elem>)
    ensures |r| == |xs|
  {
    if xs == [] then [] else [UnloopedElem(xs[0])] + UnloopedElems(xs[1..])
  }

  // ---- Shape ----

  ghost predicate Plainer(e: Expr) {
    Shaped(e) && Uncaptured(e)
  }

  ghost predicate AllPlainer(es: seq<Expr>) {
    AllShaped(es) && AllUncaptured(es)
  }

  /** Without named lets nothing is captured. */
  lemma {:induction false} UnloopedIsShaped(e: Expr)
    requires Shaped(e)
    ensures Plainer(Unlooped(e))
    decreases Size(e), 2
  {
    hide *;
    match e
    case Lit(_) => LeafUnloopedShaped(e);
    case Ref(_) => LeafUnloopedShaped(e);
    case QuoteOf(_, _) => LeafUnloopedShaped(e);
    case And(_) => PlainUnloopedShaped(e);
    case Or(_) => PlainUnloopedShaped(e);
    case Begin(_) => PlainUnloopedShaped(e);
    case Lambda(_, _, _) => PlainUnloopedShaped(e);
    case Assign(_, _) => PlainUnloopedShaped(e);
    case App(_, _) => PlainUnloopedShaped(e);
    case Cond(_, _) => ChoiceFormUnloopedShaped(e);
    case Case(_, _, _) => ChoiceFormUnloopedShaped(e);
    case Quasi(_, _) => ChoiceFormUnloopedShaped(e);
    case If(_, _, _) => BranchUnloopedShaped(e);
    case OneArmed(_, _) => BranchUnloopedShaped(e);
    case When(_, _) => BranchUnloopedShaped(e);
    case Unless(_, _) => BranchUnloopedShaped(e);
    case Let(_, _, _) => BinderUnloopedShaped(e);
    case LoopLet(_, _, _, _) => BinderUnloopedShaped(e);
    case LetStar(_, _, _) => BinderUnloopedShaped(e);
    case Letrec(_, _, _) => BinderUnloopedShaped(e);
    case Do(_, _, _, _, _, _, _) => BinderUnloopedShaped(e);
  }

  lemma LeafUnloopedShaped(e: Expr)
    requires (e.Lit? || e.Ref? || e.QuoteOf?) && Shaped(e)
    ensures Plainer(Unlooped(e))
  {
  }

  lemma {:induction false} PlainUnloopedShaped(e: Expr)
    requires (e.And? || e.Or? || e.Begin? || e.Lambda? || e.Assign? || e.App?) && Shaped(e)
    ensures Plainer(Unlooped(e))
    decreases Size(e), 1
  {
    hide UnloopedAll, UnloopedBlock, AllShaped, AllUncaptured, BlockShaped, BlockUncaptured, AllSize;
    match e
    case And(tests) => AllUnloopedShaped(tests);
    case Or(tests) => AllUnloopedShaped(tests);
    case Begin(body) => AllUnloopedShaped(body);
    case Lambda(_, _, body) => BlockUnloopedShaped(body);
    case Assign(_, v) => UnloopedIsShaped(v);
    case App(f, args) =>
      UnloopedIsShaped(f);
      AllUnloopedShaped(args);
    case _ =>
  }

  lemma {:induction false} BranchUnloopedShaped(e: Expr)
    requires (e.If? || e.OneArmed? || e.When? || e.Unless?) && Shaped(e)
    ensures Plainer(Unlooped(e))
    decreases Size(e), 1
  {
    hide UnloopedAll, AllShaped, AllUncaptured, AllSize;
    UnloopedIsShaped(e.test);
    match e
    case If(_, y, o) =>
      UnloopedIsShaped(y);
      UnloopedIsShaped(o);
    case OneArmed(_, y) => UnloopedIsShaped(y);
    case When(_, body) => AllUnloopedShaped(body);
    case Unless(_, body) => AllUnloopedShaped(body);
    case _ =>
  }

  lemma {:induction false} ChoiceFormUnloopedShaped(e: Expr)
    requires (e.Cond? || e.Case? || e.Quasi?) && Shaped(e)
    ensures Plainer(Unlooped(e))
    decreases Size(e), 1
  {
    hide UnloopedClauses, UnloopedChoices, UnloopedElse, UnloopedTmpl, AllClausesShaped, AllClausesUncaptured,
      AllChoicesShaped, AllChoicesUncaptured, OtherwiseShaped, OtherwiseUncaptured, TmplShaped, TmplUncaptured,
      ClausesSize, ChoicesSize, OtherwiseSize, TmplSize;
    match e
    case Cond(clauses, otherwise) =>
      ClausesUnloopedShaped(clauses);
      ElseUnloopedShaped(otherwise);
    case Case(key, choices, otherwise) =>
      UnloopedIsShaped(key);
      ChoicesUnloopedShaped(choices);
      ElseUnloopedShaped(otherwise);
    case Quasi(_, t) => TmplUnloopedShaped(t);
    case _ =>
  }

  lemma {:induction false} BinderUnloopedShaped(e: Expr)
    requires (e.Let? || e.LoopLet? || e.LetStar? || e.Letrec? || e.Do?) && Shaped(e)
    ensures Plainer(Unlooped(e))
    decreases Size(e), 1
  {
    hide UnloopedAll, UnloopedBlock, AllShaped, AllUncaptured, BlockShaped, BlockUncaptured, AllSize, BlockSize, LoopLetrec;
    AllUnloopedShaped(e.inits);
    match e
    case Let(_, _, body) => BlockUnloopedShaped(body);
    case LetStar(_, _, body) => BlockUnloopedShaped(body);
    case Letrec(_, _, body) => AllUnloopedShaped(body);
    case LoopLet(loop, names, inits, body) =>
      BlockUnloopedShaped(body);
      LoopLetrecIsShaped(loop, names, UnloopedAll(inits), UnloopedBlock(body));
    case Do(names, _, steps, shown, test, exits, body) =>
      AllUnloopedShaped(steps);
      UnloopedIsShaped(test);
      AllUnloopedShaped(exits);
      AllUnloopedShaped(body);
      HiddenStepsUnlooped(names, steps, shown);
    case _ =>
  }

  lemma LoopLetrecIsShaped(loop: string, names: seq<string>, inits: seq<Expr>, block: Block)
    requires AllPlainer(inits) && BlockShaped(block) && BlockUncaptured(block) && !IsSpecial(loop)
    ensures Plainer(LoopLetrec(loop, names, inits, block))
  {
    hide BlockShaped, BlockUncaptured, IsSpecial;
    var lam, call := Lambda(names, None, block), App(Ref(loop), inits);
    assert Plainer(lam) && Plainer(Ref(loop)) && Plainer(call);
    OnePlainer(lam);
    OnePlainer(call);
  }

  lemma OnePlainer(e: Expr)
    requires Plainer(e)
    ensures AllPlainer([e])
  {
    hide Shaped, Uncaptured;
    assert [e][1..] == [];
    assert AllShaped([]) && AllUncaptured([]);
  }

  lemma {:induction false} HiddenStepsUnlooped(names: seq<string>, steps: seq<Expr>, shown: seq<bool>)
    requires HiddenStepsStay(names, steps, shown)
    ensures HiddenStepsStay(names, UnloopedAll(steps), shown)
    decreases |steps|
  {
    if names != [] && steps != [] && shown != [] {
      HiddenStepsUnlooped(names[1..], steps[1..], shown[1..]);
    }
  }

  lemma {:induction false} AllUnloopedShaped(es: seq<Expr>)
    requires AllShaped(es)
    ensures AllPlainer(UnloopedAll(es))
    decreases AllSize(es), 0
  {
    hide Shaped, Uncaptured;
    if es != [] {
      UnloopedIsShaped(es[0]);
      AllUnloopedShaped(es[1..]);
    }
  }

  lemma {:induction false} BlockUnloopedShaped(b: Block)
    requires BlockShaped(b)
    ensures BlockShaped(UnloopedBlock(b)) && BlockUncaptured(UnloopedBlock(b))
    decreases BlockSize(b), 0
  {
    AllUnloopedShaped(b.inits);
    AllUnloopedShaped(b.exprs);
  }

  lemma {:induction false} ElseUnloopedShaped(o: Otherwise)
    requires OtherwiseShaped(o)
    ensures OtherwiseShaped(UnloopedElse(o)) && OtherwiseUncaptured(UnloopedElse(o))
    decreases OtherwiseSize(o), 0
  {
    if o.Else? { AllUnloopedShaped(o.body); }
  }

  lemma {:induction false} ClausesUnloopedShaped(cs: seq<Clause>)
    requires AllClausesShaped(cs)
    ensures AllClausesShaped(UnloopedClauses(cs)) && AllClausesUncaptured(UnloopedClauses(cs))
    decreases ClausesSize(cs), 0
  {
    hide AllShaped, AllUncaptured, ClauseShaped, ClauseUncaptured, UnloopedClause, ClauseSize;
    if cs != [] {
      ClauseUnloopedShaped(cs[0]);
      ClausesUnloopedShaped(cs[1..]);
    }
  }

  lemma {:induction false} ClauseUnloopedShaped(cl: Clause)
    requires ClauseShaped(cl)
    ensures ClauseShaped(UnloopedClause(cl)) && ClauseUncaptured(UnloopedClause(cl))
    decreases ClauseSize(cl)
  {
    hide AllShaped, AllUncaptured, Shaped, Uncaptured, AllSize;
    UnloopedIsShaped(cl.test);
    AllUnloopedShaped(cl.body);
    assert cl.test.Ref? || !Unlooped(cl.test).Ref?;
    assert UnloopedAll(cl.body)[0] == Unlooped(cl.body[0]);
    assert cl.body[0].Ref? || !Unlooped(cl.body[0]).Ref?;
  }

  lemma {:induction false} ChoicesUnloopedShaped(cs: seq<Choice>)
    requires AllChoicesShaped(cs)
    ensures AllChoicesShaped(UnloopedChoices(cs)) && AllChoicesUncaptured(UnloopedChoices(cs))
    decreases ChoicesSize(cs), 0
  {
    if cs != [] {
      assert ChoiceSize(cs[0]) == 2 + |cs[0].data| + AllSize(cs[0].body);
      AllUnloopedShaped(cs[0].body);
      ChoicesUnloopedShaped(cs[1..]);
    }
  }

  lemma {:induction false} TmplUnloopedShaped(t: Tmpl)
    requires TmplShaped(t)
    ensures TmplShaped(UnloopedTmpl(t)) && TmplUncaptured(UnloopedTmpl(t))
    decreases TmplSize(t), 1
  {
    match t
    case Constant(_) =>
    case Unquoted(_, e) => UnloopedIsShaped(e);
    case Listed(elems, None) => ElemsUnloopedShaped(elems);
    case Listed(elems, Some(tail)) =>
      ElemsUnloopedShaped(elems);
      TmplUnloopedShaped(tail);
    case Vectored(elems) => ElemsUnloopedShaped(elems);
  }

  lemma {:induction false} ElemsUnloopedShaped(xs: seq<Elem>)
    requires AllElemsShaped(xs)
    ensures var ys := UnloopedElems(xs); AllElemsShaped(ys) && AllElemsUncaptured(ys) && (ReadsAsQuote(ys) ==> ReadsAsQuote(xs))
    decreases ElemsSize(xs), 0
  {
    if xs != [] {
      assert ElemSize(xs[0]) == 1 + (match xs[0] case One(t) => TmplSize(t) case Splice(_, e) => Size(e));
      match xs[0] {
        case One(t) => TmplUnloopedShaped(t);
        case Splice(_, e) => UnloopedIsShaped(e);
      }
      ElemsUnloopedShaped(xs[1..]);
    }
  }

  // ---- Expansion ----

  /** A program and its version without named lets desugar alike. */
  lemma {:induction false} UnloopedDesugars(e: Expr, c: Core)
    requires Desugars(e, c)
    ensures Desugars(Unlooped(e), c)
    decreases Size(e), 2
  {
    hide *;
    match e
    case Lit(_) => LeafUnloopedDesugars(e, c);
    case Ref(_) => LeafUnloopedDesugars(e, c);
    case QuoteOf(_, _) => LeafUnloopedDesugars(e, c);
    case And(_) => TestsUnloopedDesugar(e, c);
    case Or(_) => TestsUnloopedDesugar(e, c);
    case Begin(_) => PlainUnloopedDesugars(e, c);
    case Lambda(_, _, _) => PlainUnloopedDesugars(e, c);
    case Assign(_, _) => PlainUnloopedDesugars(e, c);
    case App(_, _) => PlainUnloopedDesugars(e, c);
    case Cond(_, _) => TestsUnloopedDesugar(e, c);
    case Case(_, _, _) => TestsUnloopedDesugar(e, c);
    case Quasi(_, t) => TestsUnloopedDesugar(e, c);
    case If(_, _, _) => BranchUnloopedDesugars(e, c);
    case OneArmed(_, _) => BranchUnloopedDesugars(e, c);
    case When(_, _) => BranchUnloopedDesugars(e, c);
    case Unless(_, _) => BranchUnloopedDesugars(e, c);
    case Let(_, _, _) => BinderUnloopedDesugars(e, c);
    case LoopLet(_, _, _, _) => BinderUnloopedDesugars(e, c);
    case LetStar(_, _, _) => BinderUnloopedDesugars(e, c);
    case Letrec(_, _, _) => BinderUnloopedDesugars(e, c);
    case Do(_, _, _, _, _, _, _) => BinderUnloopedDesugars(e, c);
  }

  lemma LeafUnloopedDesugars(e: Expr, c: Core)
    requires (e.Lit? || e.Ref? || e.QuoteOf?) && Desugars(e, c)
    ensures Desugars(Unlooped(e), c)
  {
  }

  lemma {:induction false} PlainUnloopedDesugars(e: Expr, c: Core)
    requires (e.Begin? || e.Lambda? || e.Assign? || e.App?) && Desugars(e, c)
    ensures Desugars(Unlooped(e), c)
    decreases Size(e), 1
  {
    hide AllDesugar, BlockDesugars, UnloopedAll, UnloopedBlock, AllSize, BlockSize;
    match e
    case Begin(body) => AllUnloopedDesugar(body, c.body);
    case Lambda(_, _, body) => BlockUnloopedDesugars(body, c.body);
    case Assign(_, v) => UnloopedDesugars(v, c.value);
    case App(f, args) =>
      UnloopedDesugars(f, c.fn);
      AllUnloopedDesugar(args, c.args);
    case _ =>
  }

  lemma {:induction false} TestsUnloopedDesugar(e: Expr, c: Core)
    requires (e.And? || e.Or? || e.Cond? || e.Case? || e.Quasi?) && Desugars(e, c)
    ensures Desugars(Unlooped(e), c)
    decreases Size(e), 1
  {
    hide AndDesugars, OrDesugars, CondDesugars, CaseDesugars, TmplDesugars, UnloopedAll, UnloopedClauses, UnloopedChoices,
      UnloopedTmpl, AllSize, ClausesSize, ChoicesSize, OtherwiseSize, TmplSize;
    match e
    case And(tests) => AndUnloopedDesugars(tests, c);
    case Or(tests) => OrUnloopedDesugars(tests, c);
    case Cond(clauses, otherwise) => CondUnloopedDesugars(clauses, otherwise, c);
    case Case(key, choices, otherwise) =>
      UnloopedDesugars(key, c.args[0]);
      CaseUnloopedDesugars(c.fn.params[0], choices, otherwise, c.fn.body[0]);
    case Quasi(_, t) => TmplUnloopedDesugars(t, c);
    case _ =>
  }

  lemma {:induction false} BranchUnloopedDesugars(e: Expr, c: Core)
    requires (e.If? || e.OneArmed? || e.When? || e.Unless?) && Desugars(e, c)
    ensures Desugars(Unlooped(e), c)
    decreases Size(e), 1
  {
    hide AllDesugar, Desugars, UnloopedAll;
    BranchIs(e, c);
    BranchIs(Unlooped(e), c);
    UnloopedDesugars(e.test, c.test);
    match e
    case If(_, y, o) =>
      UnloopedDesugars(y, c.yes);
      UnloopedDesugars(o, c.no);
    case OneArmed(_, y) => UnloopedDesugars(y, c.yes);
    case When(_, body) => AllUnloopedDesugar(body, c.yes.body);
    case Unless(_, body) => AllUnloopedDesugar(body, c.no.body);
    case _ =>
  }

  lemma BranchIs(e: Expr, c: Core)
    requires e.If? || e.OneArmed? || e.When? || e.Unless?
    ensures Desugars(e, c) <==> BranchDesugars(e, c)
  {
  }

  lemma BinderIs(e: Expr, c: Core)
    requires e.Let? || e.LetStar? || e.Letrec? || e.LoopLet? || e.Do?
    ensures Desugars(e, c) <==> BinderDesugars(e, c)
  {
  }

  lemma {:induction false} BinderUnloopedDesugars(e: Expr, c: Core)
    requires (e.Let? || e.LoopLet? || e.LetStar? || e.Letrec? || e.Do?) && Desugars(e, c)
    ensures Desugars(Unlooped(e), c)
    decreases Size(e), 1
  {
    hide Desugars, AllDesugar, BlockDesugars, LetStarDesugars, LetrecDesugars, LoopDesugars, DoDesugars, IsLetrec;
    BinderIs(e, c);
    BinderIs(Unlooped(e), c);
    match e
    case Let(_, inits, body) =>
      AllUnloopedDesugar(inits, c.args);
      BlockUnloopedDesugars(body, c.fn.body);
    case LetStar(names, inits, body) => LetStarUnloopedDesugars(names, inits, body, c);
    case Letrec(names, inits, body) => LetrecUnloopedDesugars(names, inits, body, c);
    case LoopLet(loop, names, inits, body) => LoopUnloopedDesugars(e, c);
    case Do(names, inits, steps, _, test, exits, body) =>
      DoUnloopedDesugars(c.fn.params[0], names, inits, steps, test, exits, body,
        LetrecInits(c.fn.params, c)[0], LetrecBody(c.fn.params, c));
    case _ =>
  }

  lemma {:induction false} AllUnloopedDesugar(es: seq<Expr>, cs: seq<Core>)
    requires AllDesugar(es, cs)
    ensures AllDesugar(UnloopedAll(es), cs)
    decreases AllSize(es), 0
  {
    hide Desugars;
    if es != [] {
      UnloopedDesugars(es[0], cs[0]);
      AllUnloopedDesugar(es[1..], cs[1..]);
    }
  }

  lemma {:induction false} BlockUnloopedDesugars(b: Block, cs: seq<Core>)
    requires BlockDesugars(b, cs)
    ensures BlockDesugars(UnloopedBlock(b), cs)
    decreases BlockSize(b), 1
  {
    hide AllDesugar, LetrecDesugars;
    if b.names == [] {
      AllUnloopedDesugar(b.exprs, cs);
    } else {
      LetrecUnloopedDesugars(b.names, b.inits, b.exprs, cs[0]);
    }
  }

  lemma {:induction false} LetrecUnloopedDesugars(names: seq<string>, inits: seq<Expr>, body: seq<Expr>, c: Core)
    requires LetrecDesugars(names, inits, body, c)
    ensures LetrecDesugars(names, UnloopedAll(inits), UnloopedAll(body), c)
    decreases AllSize(inits) + AllSize(body), 1
  {
    hide AllDesugar, IsLetrec, LetrecInits, LetrecBody;
    AllUnloopedDesugar(inits, LetrecInits(Users(names), c));
    AllUnloopedDesugar(body, LetrecBody(Users(names), c));
  }

  lemma {:induction false} LetStarUnloopedDesugars(names: seq<string>, inits: seq<Expr>, body: Block, c: Core)
    requires LetStarDesugars(names, inits, body, c)
    ensures LetStarDesugars(names, UnloopedAll(inits), UnloopedBlock(body), c)
    decreases AllSize(inits) + BlockSize(body), 2
  {
    hide BlockDesugars, Desugars;
    if names == [] || inits == [] {
      BlockUnloopedDesugars(body, c.fn.body);
    } else {
      UnloopedDesugars(inits[0], c.args[0]);
      LetStarUnloopedDesugars(names[1..], inits[1..], body, c.fn.body[0]);
    }
  }

  lemma {:induction false} AndUnloopedDesugars(es: seq<Expr>, c: Core)
    requires AndDesugars(es, c)
    ensures AndDesugars(UnloopedAll(es), c)
    decreases AllSize(es), 0
  {
    hide Desugars;
    if |es| == 1 {
      UnloopedDesugars(es[0], c);
    } else if es != [] {
      UnloopedDesugars(es[0], c.test);
      AndUnloopedDesugars(es[1..], c.yes);
    }
  }

  lemma {:induction false} OrUnloopedDesugars(es: seq<Expr>, c: Core)
    requires OrDesugars(es, c)
    ensures OrDesugars(UnloopedAll(es), c)
    decreases AllSize(es), 0
  {
    hide Desugars, IsOrStep, OrInit, OrRest;
    if |es| == 1 {
      UnloopedDesugars(es[0], c);
    } else if es != [] {
      UnloopedDesugars(es[0], OrInit(c));
      OrUnloopedDesugars(es[1..], OrRest(c));
    }
  }

  lemma {:induction false} ElseUnloopedDesugars(o: Otherwise, c: Core)
    requires OtherwiseDesugars(o, c)
    ensures OtherwiseDesugars(UnloopedElse(o), c)
    decreases OtherwiseSize(o), 0
  {
    hide AllDesugar;
    if o.Else? { AllUnloopedDesugar(o.body, c.body); }
  }

  lemma {:induction false} CondUnloopedDesugars(cls: seq<Clause>, o: Otherwise, c: Core)
    requires CondDesugars(cls, o, c)
    ensures CondDesugars(UnloopedClauses(cls), UnloopedElse(o), c)
    decreases ClausesSize(cls) + OtherwiseSize(o), 1
  {
    hide Desugars, AllDesugar, OtherwiseDesugars;
    if cls == [] {
      ElseUnloopedDesugars(o, c);
    } else {
      assert ClauseSize(cls[0]) == 2 + Size(cls[0].test) + AllSize(cls[0].body) && ClauseDesugars(cls[0], c);
      UnloopedDesugars(cls[0].test, c.test);
      AllUnloopedDesugar(cls[0].body, c.yes.body);
      CondUnloopedDesugars(cls[1..], o, c.no);
      assert ClauseDesugars(UnloopedClauses(cls)[0], c);
    }
  }

  lemma {:induction false} CaseUnloopedDesugars(key: Var, chs: seq<Choice>, o: Otherwise, c: Core)
    requires CaseDesugars(key, chs, o, c)
    ensures CaseDesugars(key, UnloopedChoices(chs), UnloopedElse(o), c)
    decreases ChoicesSize(chs) + OtherwiseSize(o), 1
  {
    hide AllDesugar, OtherwiseDesugars, IsKeyTest;
    if chs == [] {
      ElseUnloopedDesugars(o, c);
    } else {
      assert ChoiceSize(chs[0]) == 2 + |chs[0].data| + AllSize(chs[0].body) && ChoiceDesugars(key, chs[0], c);
      AllUnloopedDesugar(chs[0].body, c.yes.body);
      CaseUnloopedDesugars(key, chs[1..], o, c.no);
      assert ChoiceDesugars(key, UnloopedChoices(chs)[0], c);
    }
  }

  lemma {:induction false} DoUnloopedDesugars(
    loop: Var, names: seq<string>, inits: seq<Expr>, steps: seq<Expr>, test: Expr, exits: seq<Expr>, body: seq<Expr>,
    lam: Core, start: seq<Core>)
    requires DoDesugars(loop, names, inits, steps, test, exits, body, lam, start)
    ensures DoDesugars(loop, names, UnloopedAll(inits), UnloopedAll(steps), Unlooped(test), UnloopedAll(exits),
      UnloopedAll(body), lam, start)
    decreases AllSize(inits) + AllSize(steps) + Size(test) + AllSize(exits) + AllSize(body) + 2
  {
    hide ProcedureDesugars, AllDesugar, UnloopedAll, Unlooped, AllSize, Size;
    AllUnloopedDesugar(inits, start[0].args);
    ProcedureUnloopedDesugars(loop, names, steps, test, exits, body, lam);
  }

  lemma {:induction false} ProcedureUnloopedDesugars(
    loop: Var, names: seq<string>, steps: seq<Expr>, test: Expr, exits: seq<Expr>, body: seq<Expr>, lam: Core)
    requires ProcedureDesugars(loop, names, steps, test, exits, body, lam)
    ensures ProcedureDesugars(loop, names, UnloopedAll(steps), Unlooped(test), UnloopedAll(exits), UnloopedAll(body), lam)
    decreases AllSize(steps) + Size(test) + AllSize(exits) + AllSize(body) + 1
  {
    hide AllDesugar, Desugars, UnloopedAll, Unlooped, AllSize, Size;
    var again := lam.body[0].no.body;
    UnloopedDesugars(test, lam.body[0].test);
    assert SequenceDesugars(exits, lam.body[0].yes) && DoIterates(loop, steps, body, again);
    AllUnloopedDesugar(exits, lam.body[0].yes.body);
    AllUnloopedDesugar(body, again[..|body|]);
    assert CallDesugars(loop, steps, again[|body|]);
    AllUnloopedDesugar(steps, again[|body|].args);
    assert DoIterates(loop, UnloopedAll(steps), UnloopedAll(body), again);
  }

  lemma {:induction false} TmplUnloopedDesugars(t: Tmpl, c: Core)
    requires TmplDesugars(t, c)
    ensures TmplDesugars(UnloopedTmpl(t), c)
    decreases TmplSize(t), 1
  {
    hide Desugars, ElemsDesugar;
    match t
    case Constant(_) =>
    case Unquoted(_, e) => UnloopedDesugars(e, c);
    case Listed(elems, None) => ElemsUnloopedDesugar(elems, CQuote(Proper([])), c);
    case Listed(elems, Some(tail)) =>
      var r :| TmplDesugars(tail, r) && ElemsDesugar(elems, r, c);
      TmplUnloopedDesugars(tail, r);
      ElemsUnloopedDesugar(elems, r, c);
    case Vectored(elems) => ElemsUnloopedDesugar(elems, CQuote(Proper([])), c.args[0]);
  }

  lemma {:induction false} ElemsUnloopedDesugar(xs: seq<Elem>, rest: Core, c: Core)
    requires ElemsDesugar(xs, rest, c)
    ensures ElemsDesugar(UnloopedElems(xs), rest, c)
    decreases ElemsSize(xs), 0
  {
    hide Desugars, TmplDesugars;
    if xs != [] {
      assert ElemSize(xs[0]) == 1 + (match xs[0] case One(t) => TmplSize(t) case Splice(_, e) => Size(e));
      match xs[0] {
        case One(t) => TmplUnloopedDesugars(t, c.args[0]);
        case Splice(_, e) => UnloopedDesugars(e, c.args[0]);
      }
      ElemsUnloopedDesugar(xs[1..], rest, c.args[1]);
    }
  }

  // ---- One named let ----

  /** A named let desugars to a core program exactly when its letrec does. */
  lemma NamedLetIsLetrec(loop: string, names: seq<string>, inits: seq<Expr>, block: Block, c: Core)
    ensures Desugars(LoopLet(loop, names, inits, block), c) <==>
      loop !in names && Desugars(LoopLetrec(loop, names, inits, block), c)
  {
    hide Desugars, BinderDesugars, AllDesugar, BlockDesugars, IsLetrec, LetrecInits, LetrecBody;
    var vars, lam, call := [User(loop)], Lambda(names, None, block), App(Ref(loop), inits);
    LoopAndLetrec(loop, names, inits, block, c);
    if IsLetrec(vars, c) {
      OneDesugars(lam, LetrecInits(vars, c));
      OneDesugars(call, LetrecBody(vars, c));
      LambdaOfLoop(names, block, LetrecInits(vars, c)[0]);
      if |LetrecBody(vars, c)| == 1 {
        CallOfLoop(loop, inits, LetrecBody(vars, c));
      }
    }
  }

  lemma LoopAndLetrec(loop: string, names: seq<string>, inits: seq<Expr>, block: Block, c: Core)
    ensures Desugars(LoopLet(loop, names, inits, block), c) <==> IsLoop(loop, names, inits, block, c)
    ensures Desugars(LoopLetrec(loop, names, inits, block), c) <==> IsLoopLetrec(loop, names, inits, block, c)
  {
    hide Desugars, AllDesugar, LoopDesugars, IsLetrec, LetrecInits, LetrecBody;
    var lam, call := Lambda(names, None, block), App(Ref(loop), inits);
    assert Users([loop]) == [User(loop)] && Distinct([loop]);
    BinderIs(LoopLet(loop, names, inits, block), c);
    BinderIs(LoopLetrec(loop, names, inits, block), c);
    assert BinderDesugars(Letrec([loop], [lam], [call]), c) <==> LetrecDesugars([loop], [lam], [call], c);
  }

  ghost predicate IsLoop(loop: string, names: seq<string>, inits: seq<Expr>, block: Block, c: Core) {
    var vars := [User(loop)];
    && loop !in names && IsLetrec(vars, c)
    && LoopDesugars(vars[0], names, inits, block, LetrecInits(vars, c)[0], LetrecBody(vars, c))
  }

  ghost predicate IsLoopLetrec(loop: string, names: seq<string>, inits: seq<Expr>, block: Block, c: Core) {
    var vars := [User(loop)];
    && IsLetrec(vars, c)
    && AllDesugar([Lambda(names, None, block)], LetrecInits(vars, c))
    && AllDesugar([App(Ref(loop), inits)], LetrecBody(vars, c))
  }

  lemma LambdaOfLoop(names: seq<string>, block: Block, lam: Core)
    ensures Desugars(Lambda(names, None, block), lam) <==>
      lam.CLambda? && lam.params == Users(names) && lam.rest == None && BlockDesugars(block, lam.body)
  {
    hide BlockDesugars;
    assert UserRest(None) == None;
  }

  lemma OneDesugars(e: Expr, cs: seq<Core>)
    ensures AllDesugar([e], cs) <==> |cs| == 1 && Desugars(e, cs[0])
  {
    hide Desugars;
    if |cs| == 1 {
      assert [e][1..] == [] && cs[1..] == [];
    }
  }

  lemma CallOfLoop(loop: string, inits: seq<Expr>, cs: seq<Core>)
    requires |cs| == 1
    ensures Desugars(App(Ref(loop), inits), cs[0]) <==>
      cs[0].CApp? && cs[0].fn == CRef(User(loop)) && AllDesugar(inits, cs[0].args)
  {
    hide AllDesugar;
  }

  lemma {:induction false} LoopUnloopedDesugars(e: Expr, c: Core)
    requires e.LoopLet? && Desugars(e, c)
    ensures Desugars(Unlooped(e), c)
    decreases Size(e), 0
  {
    hide Desugars, AllDesugar, BlockDesugars, IsLetrec, LetrecInits, LetrecBody;
    var inits, block := UnloopedAll(e.inits), UnloopedBlock(e.block);
    LoopAndLetrec(e.loop, e.names, e.inits, e.block, c);
    var vars := [User(e.loop)];
    BlockUnloopedDesugars(e.block, LetrecInits(vars, c)[0].body);
    AllUnloopedDesugar(e.inits, LetrecBody(vars, c)[0].args);
    LoopAndLetrec(e.loop, e.names, inits, block, c);
    NamedLetIsLetrec(e.loop, e.names, inits, block, c);
  }
}
