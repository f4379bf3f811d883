/**
 Expanding twice: what the handlers that expand the same subtree again rely on, and where it
 fails.
 */
module Idempotence {
  import opened Wrappers
  import opened SExprs
  import opened Expanders
  import opened ExpanderHeads
  import opened Programs
  import opened Reexpansion
  import opened Desugaring
  import opened ExpansionOfForms

  /** Core forms, as texts: five keywords, applications and atoms, and no reader abbreviation. */
  predicate IsCoreForm(x: SExpr) {
    match x
    case Reader(_, _) => false
    case Sym(n) => !IsSpecial(n)
    case List(elems, tail) =>
      if tail.Some? || elems == [] then false
      else if IsSymbolNamed(elems[0], "quote") then |elems| == 2
      else if IsSymbolNamed(elems[0], "if") then |elems| == 4 && AllCoreForms(elems[1..])
      else if IsSymbolNamed(elems[0], "begin") then AllCoreForms(elems[1..])
      else if IsSymbolNamed(elems[0], "lambda") then
        |elems| >= 3 && ParseFormals(elems[1]).Ok? && AllCoreForms(elems[2..])
      else if IsSymbolNamed(elems[0], "set!") then |elems| == 3 && elems[1].Sym? && IsCoreForm(elems[2])
      else AllCoreForms(elems)
    case _ => true
  }

  predicate AllCoreForms(xs: seq<SExpr>) {
    xs == [] || (IsCoreForm(xs[0]) && AllCoreForms(xs[1..]))
  }

  lemma {:induction false} CoreTextIsCoreForm(session: string, c: Core)
    requires CoreShaped(session, c)
    ensures IsCoreForm(CoreText(session, c))
    decreases c, 1
  {
    match c
    case CIf(t, y, o) => IfIsCoreForm(session, t, y, o);
    case CBegin(body) =>
      CoreTextsAreCoreForms(session, body);
      TailOfForm("begin", CoreTexts(session, body));
    case CLambda(params, rest, body) => LambdaIsCoreForm(session, params, rest, body);
    case CSet(v, x) => CoreTextIsCoreForm(session, x);
    case CApp(f, args) => AppIsCoreForm(session, f, args);
    case _ =>
  }

  lemma TailOfForm(head: string, xs: seq<SExpr>)
    ensures Form(head, xs).elems[1..] == xs
  {
  }

  lemma {:induction false} IfIsCoreForm(session: string, t: Core, y: Core, o: Core)
    requires CoreShaped(session, CIf(t, y, o))
    ensures IsCoreForm(CoreText(session, CIf(t, y, o)))
    decreases CIf(t, y, o), 0
  {
    hide CoreText, CoreShaped;
    IfParts(session, CIf(t, y, o));
    CoreTextIsCoreForm(session, t);
    CoreTextIsCoreForm(session, y);
    CoreTextIsCoreForm(session, o);
    var a, b, c := CoreText(session, t), CoreText(session, y), CoreText(session, o);
    TailOfForm("if", [a, b, c]);
    ThreeCoreForms(a, b, c);
  }

  lemma ThreeCoreForms(a: SExpr, b: SExpr, c: SExpr)
    requires IsCoreForm(a) && IsCoreForm(b) && IsCoreForm(c)
    ensures AllCoreForms([a, b, c])
  {
    hide IsCoreForm;
    assert [a, b, c][1..] == [b, c] && [b, c][1..] == [c] && [c][1..] == [];
    assert AllCoreForms([c]) && AllCoreForms([b, c]);
  }

  lemma {:induction false} LambdaIsCoreForm(session: string, params: seq<Var>, rest: Option<Var>, body: seq<Core>)
    requires CoreShaped(session, CLambda(params, rest, body))
    ensures IsCoreForm(CoreText(session, CLambda(params, rest, body)))
    decreases CLambda(params, rest, body), 0
  {
    hide ParseFormals, CoreFormals, AllCoreShaped, CoreTexts;
    CoreTextsAreCoreForms(session, body);
    var elems := CoreText(session, CLambda(params, rest, body)).elems;
    assert elems[2..] == CoreTexts(session, body) && elems[1] == CoreFormals(session, params, rest);
  }

  lemma {:induction false} AppIsCoreForm(session: string, f: Core, args: seq<Core>)
    requires CoreShaped(session, CApp(f, args))
    ensures IsCoreForm(CoreText(session, CApp(f, args)))
    decreases CApp(f, args), 0
  {
    hide CoreShaped, CoreTexts, AllCoreShaped;
    assert CoreShaped(session, f) && AllCoreShaped(session, args) by { AppShape(session, f, args); }
    CoreTextIsCoreForm(session, f);
    CoreTextsAreCoreForms(session, args);
    var elems := CoreText(session, CApp(f, args)).elems;
    assert elems[0] == CoreText(session, f) && elems[1..] == CoreTexts(session, args);
    assert !elems[0].Sym? || !IsSpecial(elems[0].name);
  }

  lemma AppShape(session: string, f: Core, args: seq<Core>)
    requires CoreShaped(session, CApp(f, args))
    ensures CoreShaped(session, f) && AllCoreShaped(session, args)
  {
  }

  lemma {:induction false} CoreTextsAreCoreForms(session: string, cs: seq<Core>)
    requires AllCoreShaped(session, cs)
    ensures AllCoreForms(CoreTexts(session, cs))
    decreases cs, 1
  {
    hide CoreShaped, CoreText, IsCoreForm;
    if cs != [] {
      CoreTextIsCoreForm(session, cs[0]);
      CoreTextsAreCoreForms(session, cs[1..]);
      assert CoreTexts(session, cs)[1..] == CoreTexts(session, cs[1..]);
    }
  }

  /** No derived form is left in the output. */
  lemma OutputIsCore(session: string, e: Expr, d: nat, n: nat)
    requires Shaped(e) && ExpandForm(session, Text(e), d, n).Ok?
    ensures IsCoreForm(ExpandForm(session, Text(e), d, n).value.value)
  {
    hide ExpandForm, Text, Shaped, Desugars, IsCoreForm;
    var c := ExpandsToCore(session, e, d, n);
    CoreTextIsCoreForm(session, c);
  }

  // ---- Height and parameters of a text ----

  /** The forms of a core text that are expanded with it. */
  function Subforms(elems: seq<SExpr>): seq<SExpr>
    requires elems != []
  {
    if IsSymbolNamed(elems[0], "quote") then []
    else if IsSymbolNamed(elems[0], "if") || IsSymbolNamed(elems[0], "begin") then elems[1..]
    else if (IsSymbolNamed(elems[0], "lambda") || IsSymbolNamed(elems[0], "set!")) && |elems| >= 2 then elems[2..]
    else elems
  }

  /** How deep the forms of a text are nested. */
  function TextHeight(x: SExpr): nat
    decreases x, 1
  {
    if x.List? && x.elems != [] then 1 + Highest(x, Subforms(x.elems)) else 1
  }

  function Highest(x: SExpr, xs: seq<SExpr>): nat
    requires forall i :: 0 <= i < |xs| ==> xs[i] < x
    decreases x, 0, |xs|
  {
    if xs == [] then 0 else Max(TextHeight(xs[0]), Highest(x, xs[1..]))
  }

  function FormalsCount(x: SExpr): nat {
    if x.List? then |x.elems| + (if x.tail.Some? then 1 else 0) else 1
  }

  /** How many parameters the lambdas of a text have. */
  function Parameters(x: SExpr): nat
    decreases x, 1
  {
    if x.List? && x.elems != [] then
      (if IsSymbolNamed(x.elems[0], "lambda") && |x.elems| >= 2 then FormalsCount(x.elems[1]) else 0)
      + AllParameters(x, Subforms(x.elems))
    else 0
  }

  function AllParameters(x: SExpr, xs: seq<SExpr>): nat
    requires forall i :: 0 <= i < |xs| ==> xs[i] < x
    decreases x, 0, |xs|
  {
    if xs == [] then 0 else Parameters(xs[0]) + AllParameters(x, xs[1..])
  }

  ghost predicate Measures(session: string, c: Core) {
    var x := CoreText(session, c);
    TextHeight(x) == Height(c) && Parameters(x) == Binders(c)
  }

  lemma {:induction false} TextMeasures(session: string, c: Core)
    requires CoreShaped(session, c)
    ensures Measures(session, c)
    decreases c, 1
  {
    hide *;
    match c
    case CLit(_) => LeafMeasures(session, c);
    case CRef(_) => LeafMeasures(session, c);
    case CQuote(_) => LeafMeasures(session, c);
    case CIf(t, y, o) => IfMeasures(session, t, y, o);
    case CBegin(body) => BeginMeasures(session, body);
    case CLambda(params, rest, body) => LambdaMeasures(session, params, rest, body);
    case CSet(v, x) => SetMeasures(session, v, x);
    case CApp(f, args) => AppMeasures(session, f, args);
  }

  lemma {:induction false} AllMeasures(session: string, cs: seq<Core>, x: SExpr)
    requires AllCoreShaped(session, cs) && forall i :: 0 <= i < |cs| ==> CoreTexts(session, cs)[i] < x
    ensures Highest(x, CoreTexts(session, cs)) == AllHeight(cs) && AllParameters(x, CoreTexts(session, cs)) == AllBinders(cs)
    decreases cs, 1
  {
    hide CoreShaped, CoreText, TextHeight, Parameters, Height, Binders;
    if cs != [] {
      var xs := CoreTexts(session, cs);
      assert xs[1..] == CoreTexts(session, cs[1..]);
      forall i | 0 <= i < |cs[1..]| ensures xs[1..][i] < x {
        assert xs[1..][i] == xs[i + 1];
      }
      TextMeasures(session, cs[0]);
      AllMeasures(session, cs[1..], x);
    }
  }

  lemma LeafMeasures(session: string, c: Core)
    requires (c.CLit? || c.CRef? || c.CQuote?) && CoreShaped(session, c)
    ensures Measures(session, c)
  {
    hide VarText, IsSpecial;
    if c.CQuote? {
      var x := CoreText(session, c);
      assert x.elems[0] == Sym("quote") && Subforms(x.elems) == [];
      assert Highest(x, []) == 0 && AllParameters(x, []) == 0;
    }
  }

  lemma {:induction false} IfMeasures(session: string, t: Core, y: Core, o: Core)
    requires CoreShaped(session, CIf(t, y, o))
    ensures Measures(session, CIf(t, y, o))
    decreases CIf(t, y, o), 0
  {
    hide CoreText, CoreShaped, AllCoreShaped, Height, Binders, CoreTexts, AllHeight, AllBinders;
    var c, cs := CIf(t, y, o), [t, y, o];
    IfParts(session, c);
    ThreeTexts(session, t, y, o);
    ThreeAreShaped(session, t, y, o);
    var x := CoreText(session, c);
    assert x.elems[1..] == CoreTexts(session, cs) && x.elems[0] == Sym("if");
    TextMeasures(session, t);
    TextMeasures(session, y);
    TextMeasures(session, o);
    var xs := CoreTexts(session, cs);
    assert x.elems[1] == xs[0] && x.elems[2] == xs[1] && x.elems[3] == xs[2];
    ThreeMeasures(x, CoreText(session, t), CoreText(session, y), CoreText(session, o));
  }

  lemma ThreeAreShaped(session: string, t: Core, y: Core, o: Core)
    requires CoreShaped(session, t) && CoreShaped(session, y) && CoreShaped(session, o)
    ensures AllCoreShaped(session, [t, y, o])
  {
    hide CoreShaped;
    assert [t, y, o][1..] == [y, o] && [y, o][1..] == [o] && [o][1..] == [];
    assert AllCoreShaped(session, [o]) && AllCoreShaped(session, [y, o]);
  }

  lemma ThreeMeasures(x: SExpr, a: SExpr, b: SExpr, c: SExpr)
    requires a < x && b < x && c < x
    ensures Highest(x, [a, b, c]) == Max(TextHeight(a), Max(TextHeight(b), TextHeight(c)))
    ensures AllParameters(x, [a, b, c]) == Parameters(a) + Parameters(b) + Parameters(c)
  {
    hide Highest, AllParameters;
    OneMoreMeasure(x, c, []);
    OneMoreMeasure(x, b, [c]);
    OneMoreMeasure(x, a, [b, c]);
    assert [c] + [] == [c] && [b] + [c] == [b, c] && [a] + [b, c] == [a, b, c];
    assert Highest(x, []) == 0 && AllParameters(x, []) == 0 by { NothingMeasures(x); }
  }

  lemma NothingMeasures(x: SExpr)
    ensures Highest(x, []) == 0 && AllParameters(x, []) == 0
  {
  }

  lemma OneMoreMeasure(x: SExpr, y: SExpr, ys: seq<SExpr>)
    requires y < x && forall i :: 0 <= i < |ys| ==> ys[i] < x
    ensures Highest(x, [y] + ys) == Max(TextHeight(y), Highest(x, ys))
    ensures AllParameters(x, [y] + ys) == Parameters(y) + AllParameters(x, ys)
  {
    hide TextHeight, Parameters;
    assert ([y] + ys)[1..] == ys;
  }

  lemma {:induction false} BeginMeasures(session: string, body: seq<Core>)
    requires CoreShaped(session, CBegin(body))
    ensures Measures(session, CBegin(body))
    decreases CBegin(body), 0
  {
    hide AllCoreShaped, CoreTexts, AllHeight, AllBinders, Highest, AllParameters;
    var x := CoreText(session, CBegin(body));
    TailOfForm("begin", CoreTexts(session, body));
    assert x.elems[0] == Sym("begin") && Subforms(x.elems) == CoreTexts(session, body);
    AllMeasures(session, body, x);
  }

  lemma {:induction false} LambdaMeasures(session: string, params: seq<Var>, rest: Option<Var>, body: seq<Core>)
    requires CoreShaped(session, CLambda(params, rest, body))
    ensures Measures(session, CLambda(params, rest, body))
    decreases CLambda(params, rest, body), 0
  {
    hide AllCoreShaped, CoreTexts, AllHeight, AllBinders, Highest, AllParameters, ParseFormals, CoreFormals;
    var x := CoreText(session, CLambda(params, rest, body));
    assert x.elems[0] == Sym("lambda") && x.elems[1] == CoreFormals(session, params, rest);
    assert x.elems[2..] == CoreTexts(session, body) && Subforms(x.elems) == CoreTexts(session, body);
    FormalsAreCounted(session, params, rest);
    AllMeasures(session, body, x);
  }

  lemma FormalsAreCounted(session: string, params: seq<Var>, rest: Option<Var>)
    ensures FormalsCount(CoreFormals(session, params, rest)) == |params| + (if rest.Some? then 1 else 0)
  {
  }

  lemma {:induction false} SetMeasures(session: string, v: Var, y: Core)
    requires CoreShaped(session, CSet(v, y))
    ensures Measures(session, CSet(v, y))
    decreases CSet(v, y), 0
  {
    hide VarText;
    var x := CoreText(session, CSet(v, y));
    assert x.elems[0] == Sym("set!") && x.elems[2..] == [CoreText(session, y)];
    TextMeasures(session, y);
    assert x.elems[2] == x.elems[2..][0];
    OneMeasure(x, CoreText(session, y));
  }

  lemma OneMeasure(x: SExpr, a: SExpr)
    requires a < x
    ensures Highest(x, [a]) == TextHeight(a) && AllParameters(x, [a]) == Parameters(a)
  {
    hide TextHeight, Parameters;
    assert [a][1..] == [];
  }

  lemma {:induction false} AppMeasures(session: string, f: Core, args: seq<Core>)
    requires CoreShaped(session, CApp(f, args))
    ensures Measures(session, CApp(f, args))
    decreases CApp(f, args), 0
  {
    hide CoreShaped, CoreText, CoreTexts, AllCoreShaped, IsSpecial, AllHeight, AllBinders;
    var x := CoreText(session, CApp(f, args));
    AppShape(session, f, args);
    AppCore(session, f, args);
    OperatorIsNoHead(session, f);
    var xs := CoreTexts(session, args);
    assert x.elems[0] == CoreText(session, f) && x.elems[1..] == xs;
    CallSubforms(x.elems);
    forall i | 0 <= i < |args| ensures CoreTexts(session, args)[i] < x {
      assert CoreTexts(session, args)[i] == x.elems[i + 1];
    }
    TextMeasures(session, f);
    AllMeasures(session, args, x);
    assert Highest(x, x.elems) == Max(TextHeight(x.elems[0]), Highest(x, x.elems[1..]));
    assert AllParameters(x, x.elems) == Parameters(x.elems[0]) + AllParameters(x, x.elems[1..]);
    CallHeight(session, f, args);
  }

  lemma CallHeight(session: string, f: Core, args: seq<Core>)
    ensures Height(CApp(f, args)) == 1 + Max(Height(f), AllHeight(args)) && Binders(CApp(f, args)) == Binders(f) + AllBinders(args)
  {
  }

  lemma CallSubforms(elems: seq<SExpr>)
    requires elems != [] && forall head :: IsSymbolNamed(elems[0], head) ==> !IsSpecial(head)
    ensures Subforms(elems) == elems && !IsSymbolNamed(elems[0], "lambda")
  {
    assert IsSpecial("quote") && IsSpecial("if") && IsSpecial("begin") && IsSpecial("lambda") && IsSpecial("set!");
  }

  lemma OperatorIsNoHead(session: string, f: Core)
    requires CoreShaped(session, f)
    ensures var x := CoreText(session, f); forall head :: IsSymbolNamed(x, head) ==> !IsSpecial(head)
  {
  }

  /**
   Expanding an expansion gives it back unchanged, at every depth limit that is at least its
   height and never below it; all that changes is the gensym counter, by one for each parameter.
   */
  lemma ExpandingTwice(session: string, e: Expr, d: nat, n: nat, d1: nat, n1: nat)
    requires Shaped(e) && ExpandForm(session, Text(e), d, n).Ok?
    ensures var y := ExpandForm(session, Text(e), d, n).value.value;
      ExpandForm(session, y, d1, n1)
        == if d1 >= TextHeight(y) then Ok(Expanded(y, n1 + Parameters(y))) else Err(ExpansionDepthExceeded)
  {
    hide ExpandForm, Text, Shaped, Desugars, CoreShaped, CoreText, TextHeight, Parameters;
    var c := ExpandsToCore(session, e, d, n);
    TextMeasures(session, c);
    ReexpansionIsIdentity(session, c, d1, n1);
  }

  // ---- Where a second expansion fails ----

  /** An operator may expand to a keyword: the output is then read as a form, not as a call. */
  lemma OperatorBecomesKeyword(session: string, n: nat)
    ensures var x := Proper([Form("and", [Sym("if")]), Num(Fixnum(1)), Num(Fixnum(2))]);
      var y := Proper([Sym("if"), Num(Fixnum(1)), Num(Fixnum(2))]);
      && ExpandForm(session, x, 3, n) == Ok(Expanded(y, n))
      && ExpandForm(session, y, 3, n) == Ok(Expanded(MakeIf(Num(Fixnum(1)), Num(Fixnum(2)), MakeBegin([])), n))
      && !IsCoreForm(y)
  {
    var one, two := Num(Fixnum(1)), Num(Fixnum(2));
    var x, y := Proper([Form("and", [Sym("if")]), one, two]), Proper([Sym("if"), one, two]);
    OneOperandAnd(session, n);
    FormIsApplication(session, x.elems, 3, n);
    TwoAtoms(session, one, two, n);
    assert x.elems == [Form("and", [Sym("if")])] + [one, two] && y.elems == [Sym("if")] + [one, two];
    FirstForm(session, Form("and", [Sym("if")]), Sym("if"), [one, two], n);
    OneArmedIf(session, one, two, n);
  }

  lemma OneOperandAnd(session: string, n: nat)
    ensures ExpandForm(session, Form("and", [Sym("if")]), 2, n) == Ok(Expanded(Sym("if"), n))
  {
    AndForm(session, [Sym("if")], 2, n);
  }

  lemma OneArmedIf(session: string, x: SExpr, y: SExpr, n: nat)
    requires x.Num? && y.Num?
    ensures ExpandForm(session, Form("if", [x, y]), 3, n) == Ok(Expanded(MakeIf(x, y, MakeBegin([])), n))
  {
    IfForm(session, [x, y], 3, n);
    TwoAtoms(session, x, y, n);
    assert ([Sym("if")] + [x, y])[1..] == [x, y];
    assert [Sym("if")] + [x, y] + [MakeBegin([])] == [Sym("if")] + [x, y, MakeBegin([])];
  }

  lemma FirstForm(session: string, x: SExpr, y: SExpr, xs: seq<SExpr>, n: nat)
    requires ExpandForm(session, x, 2, n) == Ok(Expanded(y, n)) && ExpandAll(session, xs, 2, n) == Ok(Expanded(xs, n))
    ensures ExpandAll(session, [x] + xs, 2, n) == Ok(Expanded([y] + xs, n))
  {
    hide ExpandForm, ExpandAll;
    OneMoreForm(session, x, xs, 2, n);
  }

  lemma TwoAtoms(session: string, x: SExpr, y: SExpr, n: nat)
    requires x.Num? && y.Num?
    ensures ExpandAll(session, [x, y], 2, n) == Ok(Expanded([x, y], n))
  {
    NoForms(session, 2, n);
    FirstForm(session, y, y, [], n);
    assert [y] + [] == [y] && [x] + [y] == [x, y];
    FirstForm(session, x, x, [y], n);
  }

  function SameClauses(k: nat): (xs: seq<SExpr>)
    ensures |xs| == k
  {
    seq(k, _ => Proper([Bool(true), Num(Fixnum(1))]))
  }

  /** Conditionals nested `k` deep. */
  function Ladder(k: nat): Core {
    if k == 0 then EMPTY_BEGIN else CIf(CLit(Bool(true)), CBegin([CLit(Num(Fixnum(1)))]), Ladder(k - 1))
  }

  lemma {:induction false} LadderFacts(session: string, k: nat)
    ensures CoreShaped(session, Ladder(k)) && Binders(Ladder(k)) == 0
    ensures Height(Ladder(k)) == if k == 0 then 1 else k + 2
  {
    if k > 0 {
      LadderFacts(session, k - 1);
      RungFacts(session, Ladder(k - 1));
    } else {
      EmptyBegin(session);
    }
  }

  lemma RungFacts(session: string, rest: Core)
    requires CoreShaped(session, rest)
    ensures var c := CIf(CLit(Bool(true)), CBegin([CLit(Num(Fixnum(1)))]), rest);
      CoreShaped(session, c) && Binders(c) == Binders(rest) && Height(c) == 1 + Max(2, Height(rest))
  {
    var one := CLit(Num(Fixnum(1)));
    assert CoreShaped(session, one) && Height(one) == 1 && Binders(one) == 0;
    var body := CBegin([one]);
    assert [one][1..] == [];
    assert AllCoreShaped(session, []) && AllHeight([]) == 0 && AllBinders([]) == 0;
    assert AllCoreShaped(session, [one]) && AllHeight([one]) == 1 && AllBinders([one]) == 0;
    assert CoreShaped(session, body) && Height(body) == 2 && Binders(body) == 0;
  }

  lemma {:induction false} ClausesMakeLadder(session: string, xs: seq<SExpr>, i: nat, n: nat)
    requires i <= |xs| && forall j :: i <= j < |xs| ==> xs[j] == Proper([Bool(true), Num(Fixnum(1))])
    ensures CondFrom(session, xs, i, 1, n) == Ok(Expanded(CoreText(session, Ladder(|xs| - i)), n))
    decreases |xs| - i
  {
    if i < |xs| {
      ClausesMakeLadder(session, xs, i + 1, n);
      var k := |xs| - i;
      ClauseMakesRung(session, CoreText(session, Ladder(k - 1)), i + 1 == |xs|, n);
      LadderText(session, k);
    } else {
      EmptyBegin(session);
    }
  }

  lemma LadderText(session: string, k: nat)
    requires k > 0
    ensures CoreText(session, Ladder(k))
      == MakeIf(Bool(true), MakeBegin([Num(Fixnum(1))]), CoreText(session, Ladder(k - 1)))
  {
    assert CoreTexts(session, [CLit(Num(Fixnum(1)))]) == [Num(Fixnum(1))];
  }

  lemma ClauseMakesRung(session: string, rest: SExpr, last: bool, n: nat)
    ensures CondClause(session, Proper([Bool(true), Num(Fixnum(1))]), last, rest, 1, n)
      == Ok(Expanded(MakeIf(Bool(true), MakeBegin([Num(Fixnum(1))]), rest), n))
  {
    var one := Num(Fixnum(1));
    assert [Bool(true), one][1..] == [one];
    OneMoreForm(session, one, [], 1, n);
    NoForms(session, 1, n);
    assert [one] + [] == [one];
  }

  /**
   The clauses of a `cond` are expanded in a loop, at one depth, into conditionals nested as deep
   as there are clauses. So no depth limit bounds what a second expansion needs.
   */
  lemma CondOutgrowsTheLimit(session: string, k: nat, d: nat, n: nat)
    requires k > 0
    ensures var y := ExpandForm(session, Form("cond", SameClauses(k)), 2, n);
      y.Ok? && (ExpandForm(session, y.value.value, d, n).Ok? <==> d >= k + 2)
  {
    hide ExpandForm, CoreText, CoreShaped, Height, Binders;
    CondForm(session, SameClauses(k), 2, n);
    ClausesMakeLadder(session, [Sym("cond")] + SameClauses(k), 1, n);
    LadderFacts(session, k);
    ReexpansionIsIdentity(session, Ladder(k), d, n);
  }
}
