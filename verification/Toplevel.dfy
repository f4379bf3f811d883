/**
 Module bodies: definitions in both spellings and expressions, expanded one after another. Each
 definition becomes the definition of a core program, and the expanded body runs as the body means.
 */
module Toplevels {
  import opened Wrappers
  import opened SExprs
  import opened Expanders
  import opened ExpanderHeads
  import opened Programs
  import opened Reexpansion
  import opened Desugaring
  import opened ExpansionOfForms
  import opened NameChecks
  import opened Acceptance
  import opened Idempotence
  import opened Values
  import opened SourceMeaning
  import opened CoreMeaning
  import opened Relation
  import opened CoreSteps
  import opened Simulation

  /** `(define x e)`, `(define (f . formals) body ...)`, or an expression. */
  datatype Top =
    | Define(name: string, init: Expr)
    | DefineProc(name: string, params: seq<string>, rest: Option<string>, block: Block)
    | Run(expr: Expr)

  /** The expression whose value a definition gives its name. */
  function InitOf(t: Top): Expr {
    match t
    case Define(_, init) => init
    case DefineProc(_, params, rest, block) => Lambda(params, rest, block)
    case Run(e) => e
  }

  function TopText(t: Top): SExpr {
    match t
    case Define(name, init) => Form("define", [Sym(name), Text(init)])
    case DefineProc(name, params, rest, block) =>
      Form("define", [List([Sym(name)] + Symbols(params), if rest.None? then None else Some(Sym(rest.value)))]
        + BlockTexts(block))
    case Run(e) => Text(e)
  }

  function TopTexts(ts: seq<Top>): (xs: seq<SExpr>)
    ensures |xs| == |ts|
  {
    if ts == [] then [] else [TopText(ts[0])] + TopTexts(ts[1..])
  }

  predicate AllTopsShaped(ts: seq<Top>) {
    ts == [] || (Shaped(InitOf(ts[0])) && AllTopsShaped(ts[1..]))
  }

  datatype CoreTop = CoreDefine(name: string, init: Core) | CoreRun(expr: Core)

  function CoreTopText(session: string, c: CoreTop): SExpr {
    match c
    case CoreDefine(name, init) => Form("define", [Sym(name), CoreText(session, init)])
    case CoreRun(e) => CoreText(session, e)
  }

  function CoreTopTexts(session: string, cs: seq<CoreTop>): seq<SExpr> {
    if cs == [] then [] else [CoreTopText(session, cs[0])] + CoreTopTexts(session, cs[1..])
  }

  function CoreInit(c: CoreTop): Core {
    if c.CoreDefine? then c.init else c.expr
  }

  ghost predicate TopDesugars(t: Top, c: CoreTop) {
    && (t.Run? <==> c.CoreRun?) && (c.CoreDefine? ==> c.name == t.name)
    && Desugars(InitOf(t), CoreInit(c))
  }

  ghost predicate AllTopsDesugar(ts: seq<Top>, cs: seq<CoreTop>) {
    |ts| == |cs| && (ts == [] || (TopDesugars(ts[0], cs[0]) && AllTopsDesugar(ts[1..], cs[1..])))
  }

  ghost predicate TopShaped(session: string, c: CoreTop) {
    CoreShaped(session, CoreInit(c)) && (c.CoreDefine? ==> !IsReserved(c.name))
  }

  // ---- Expansion ----

  lemma DefineForm(session: string, rest: seq<SExpr>, d: nat, n: nat)
    requires d > 0
    ensures var xs := [Sym("define")] + rest;
      ExpandForm(session, Form("define", rest), d, n) == HandleDefine(session, xs, d - 1, n)
  {
    hide ExpandForm, HandleDefine;
    FormIsSpecial(session, "define", rest, d, n);
  }

  /** A definition expands as its init does, below one more form. */
  ghost predicate DefinedBy(
    name: string, whole: Result<Expanded<SExpr>, ExpandError>, init: Result<Expanded<SExpr>, ExpandError>)
  {
    match init
    case Err(e) => whole.Err? && (!IsReserved(name) ==> whole == Err(e))
    case Ok(y) =>
      whole == if IsReserved(name) then Err(ReservedKeyword)
               else Ok(Expanded(Form("define", [Sym(name), y.value]), y.counter))
  }

  lemma ValueDefined(session: string, name: string, x: SExpr, d: nat, n: nat)
    requires d > 0
    ensures DefinedBy(name, ExpandForm(session, Form("define", [Sym(name), x]), d, n), ExpandForm(session, x, d - 1, n))
  {
    hide ExpandForm, IsReserved;
    DefineForm(session, [Sym(name), x], d, n);
  }

  lemma ProcedureDefined(session: string, t: Top, d: nat, n: nat)
    requires t.DefineProc? && d > 0
    ensures DefinedBy(t.name, ExpandForm(session, TopText(t), d, n), ExpandForm(session, Text(InitOf(t)), d, n))
  {
    hide ExpandForm, HandleLambda, IsReserved, BlockTexts;
    var body := BlockTexts(t.block);
    var sig := List([Sym(t.name)] + Symbols(t.params), if t.rest.None? then None else Some(Sym(t.rest.value)));
    DefineForm(session, [sig] + body, d, n);
    LambdaForm(session, [FormalsText(t.params, t.rest)] + body, d, n);
    assert ([Sym("define")] + ([sig] + body))[2..] == body;
    SignatureIsFormals(t);
    assert [Sym("lambda")] + ([FormalsText(t.params, t.rest)] + body) == MakeLambda(FormalsText(t.params, t.rest), body).elems;
    NoBody(session, t, d, n);
  }

  lemma SignatureIsFormals(t: Top)
    requires t.DefineProc?
    ensures SignatureFormals(List([Sym(t.name)] + Symbols(t.params), if t.rest.None? then None else Some(Sym(t.rest.value))))
      == FormalsText(t.params, t.rest)
  {
    assert ([Sym(t.name)] + Symbols(t.params))[1..] == Symbols(t.params);
    assert t.params == [] ==> Symbols(t.params) == [];
  }

  lemma NoBody(session: string, t: Top, d: nat, n: nat)
    requires t.DefineProc? && d > 0
    ensures HandleLambda(session, MakeLambda(FormalsText(t.params, t.rest), []).elems, d - 1, n) == Err(InvalidSyntax)
  {
  }

  /** Whatever a form of a module body expands to is the text of its core form. */
  lemma TopExpands(session: string, t: Top, d: nat, n: nat) returns (c: CoreTop)
    requires Shaped(InitOf(t)) && ExpandForm(session, TopText(t), d, n).Ok?
    ensures ExpandForm(session, TopText(t), d, n).value.value == CoreTopText(session, c)
    ensures TopDesugars(t, c) && TopShaped(session, c)
  {
    hide ExpandForm, Shaped, Text, Desugars, CoreShaped, CoreText, IsReserved;
    if d == 0 {
      FormTooDeep(session, TopText(t), n);
    }
    match t
    case Define(name, init) =>
      ValueDefined(session, name, Text(init), d, n);
      var init' := ExpandsToCore(session, init, d - 1, n);
      c := CoreDefine(name, init');
    case DefineProc(name, _, _, _) =>
      ProcedureDefined(session, t, d, n);
      var init' := ExpandsToCore(session, InitOf(t), d, n);
      c := CoreDefine(name, init');
    case Run(e) =>
      var e' := ExpandsToCore(session, e, d, n);
      c := CoreRun(e');
  }

  /** A whole body, expanded form by form with one gensym counter. */
  lemma {:induction false} TopsExpand(session: string, ts: seq<Top>, d: nat, n: nat) returns (cs: seq<CoreTop>)
    requires AllTopsShaped(ts) && ExpandAll(session, TopTexts(ts), d, n).Ok?
    ensures ExpandAll(session, TopTexts(ts), d, n).value.value == CoreTopTexts(session, cs)
    ensures AllTopsDesugar(ts, cs) && forall i :: 0 <= i < |cs| ==> TopShaped(session, cs[i])
    decreases |ts|
  {
    hide ExpandForm, ExpandAll, TopText, CoreTopText, TopDesugars, TopShaped;
    if ts == [] {
      NoForms(session, d, n);
      cs := [];
    } else {
      OneMoreForm(session, TopText(ts[0]), TopTexts(ts[1..]), d, n);
      var c := TopExpands(session, ts[0], d, n);
      var more := TopsExpand(session, ts[1..], d, ExpandForm(session, TopText(ts[0]), d, n).value.counter);
      cs := [c] + more;
      assert cs[1..] == more;
      forall i | 0 <= i < |cs| ensures TopShaped(session, cs[i]) {
        if i > 0 { assert cs[i] == more[i - 1]; }
      }
    }
  }

  /** What an expanded module body may hold: definitions of core forms, and core forms. */
  predicate IsCoreTop(x: SExpr) {
    if x.List? && x.elems != [] && IsSymbolNamed(x.elems[0], "define")
    then x.tail.None? && |x.elems| == 3 && x.elems[1].Sym? && IsCoreForm(x.elems[2])
    else IsCoreForm(x)
  }

  /** No derived form is left in a definition or an expression. */
  lemma TopOutputIsCore(session: string, t: Top, d: nat, n: nat)
    requires Shaped(InitOf(t)) && ExpandForm(session, TopText(t), d, n).Ok?
    ensures IsCoreTop(ExpandForm(session, TopText(t), d, n).value.value)
  {
    hide ExpandForm, Shaped, TopDesugars, CoreShaped, IsCoreForm, CoreText, TopText;
    var c := TopExpands(session, t, d, n);
    CoreTextIsCoreForm(session, CoreInit(c));
    if c.CoreRun? {
      CoreIsNoDefinition(session, c.expr);
    }
  }

  lemma CoreIsNoDefinition(session: string, c: Core)
    requires CoreShaped(session, c)
    ensures var x := CoreText(session, c); x.List? && x.elems != [] ==> !IsSymbolNamed(x.elems[0], "define")
  {
    hide VarText;
  }

  /** How deep a form of an expanded body goes, and how many parameters its lambdas have. */
  function TopHeight(y: SExpr): nat {
    if y.List? && |y.elems| == 3 && IsSymbolNamed(y.elems[0], "define") then 1 + TextHeight(y.elems[2]) else TextHeight(y)
  }

  function TopParameters(y: SExpr): nat {
    if y.List? && |y.elems| == 3 && IsSymbolNamed(y.elems[0], "define") then Parameters(y.elems[2]) else Parameters(y)
  }

  /** Expanding an expanded form gives it back exactly when the depth limit allows its height. */
  lemma TopExpandingTwice(session: string, t: Top, d: nat, n: nat, d1: nat, n1: nat)
    requires Shaped(InitOf(t)) && ExpandForm(session, TopText(t), d, n).Ok?
    ensures var y := ExpandForm(session, TopText(t), d, n).value.value;
      ExpandForm(session, y, d1, n1)
        == if d1 >= TopHeight(y) then Ok(Expanded(y, n1 + TopParameters(y))) else Err(ExpansionDepthExceeded)
  {
    hide ExpandForm, Shaped, TopDesugars, CoreShaped, CoreText, TextHeight, Parameters, TopText, IsReserved, Height, Binders;
    var c := TopExpands(session, t, d, n);
    var x := CoreText(session, CoreInit(c));
    TextMeasures(session, CoreInit(c));
    if c.CoreRun? {
      CoreIsNoDefinition(session, c.expr);
      ReexpansionIsIdentity(session, c.expr, d1, n1);
    } else if d1 == 0 {
      FormTooDeep(session, CoreTopText(session, c), n1);
    } else {
      ValueDefined(session, c.name, x, d1, n1);
      ReexpansionIsIdentity(session, c.init, d1 - 1, n1);
    }
  }

  /** A definition is accepted exactly when its name is unreserved and its init is well-named. */
  lemma TopAcceptedIff(session: string, t: Top, d: nat, n: nat)
    requires Shaped(InitOf(t)) && d > 4 * Size(InitOf(t))
    ensures ExpandForm(session, TopText(t), d, n).Ok? <==> WellNamed(InitOf(t)) && (!t.Run? ==> !IsReserved(t.name))
  {
    hide ExpandForm, Shaped, Text, WellNamed, IsReserved, Size, TopText;
    match t
    case Define(name, init) =>
      DefinedText(t);
      ValueDefined(session, name, Text(init), d, n);
      AcceptedIffWellNamed(session, init, d - 1, n);
    case DefineProc(_, _, _, _) =>
      ProcedureDefined(session, t, d, n);
      AcceptedIffWellNamed(session, InitOf(t), d, n);
    case Run(e) =>
      DefinedText(t);
      AcceptedIffWellNamed(session, e, d, n);
  }

  lemma DefinedText(t: Top)
    ensures t.Define? ==> TopText(t) == Form("define", [Sym(t.name), Text(t.init)])
    ensures t.Run? ==> TopText(t) == Text(t.expr)
  {
  }

  // ---- Meaning ----

  /** A definition gives its name's location the value of its init. */
  function DefineCell(n: string, v: Val_, env: Env, s: Store): Result_ {
    if n !in env || env[n] >= |s| then Failed else Val(VVoid, s[env[n] := Has(v)])
  }

  function RunTop(nm: Numerics, t: Top, env: Env, s: Store, fuel: nat): Result_ {
    match Eval(nm, InitOf(t), env, s, fuel)
    case Val(v, s1) => if t.Run? then Val(v, s1) else DefineCell(t.name, v, env, s1)
    case r => r
  }

  function RunTops(nm: Numerics, ts: seq<Top>, env: Env, s: Store, fuel: nat): Result_
    decreases |ts|
  {
    if ts == [] then Val(VVoid, s)
    else
      match RunTop(nm, ts[0], env, s, fuel)
      case Val(v, s1) => if |ts| == 1 then Val(v, s1) else RunTops(nm, ts[1..], env, s1, fuel)
      case r => r
  }

  function RunCoreTop(nm: Numerics, c: CoreTop, env: CoreEnv, t: CoreStore, fuel: nat): CoreResult {
    match EvalCore(nm, CoreInit(c), env, t, fuel)
    case Val(v, t1) => if c.CoreRun? then Val(v, t1) else SetVar(User(c.name), v, env, t1)
    case r => r
  }

  function RunCoreTops(nm: Numerics, cs: seq<CoreTop>, env: CoreEnv, t: CoreStore, fuel: nat): CoreResult
    decreases |cs|
  {
    if cs == [] then Val(VVoid, t)
    else
      match RunCoreTop(nm, cs[0], env, t, fuel)
      case Val(v, t1) => if |cs| == 1 then Val(v, t1) else RunCoreTops(nm, cs[1..], env, t1, fuel)
      case r => r
  }

  /** The same kind of outcome, related values, and related contents of every location of the user's. */
  ghost predicate SameRun(r: Result_, q: CoreResult) {
    match r
    case Outside => true
    case Failed => q.Failed?
    case OutOfFuel => q.OutOfFuel?
    case Val(v, s1) => q.Val? && RelV(v, q.value) && StoreRel(s1, q.state)
  }

  /** The names a form looks up or defines. */
  function TopNames(t: Top): set<string> {
    Free(InitOf(t)) + (if t.Run? then {} else {t.name})
  }

  function AllTopNames(ts: seq<Top>): set<string> {
    if ts == [] then {} else TopNames(ts[0]) + AllTopNames(ts[1..])
  }

  predicate AllTopsUncaptured(ts: seq<Top>) {
    ts == [] || (Uncaptured(InitOf(ts[0])) && AllTopsUncaptured(ts[1..]))
  }

  lemma TopSimulated(nm: Numerics, t: Top, c: CoreTop, env: Env, cenv: CoreEnv, s: Store, u: CoreStore, fuel: nat)
    requires Shaped(InitOf(t)) && Uncaptured(InitOf(t)) && TopDesugars(t, c)
    requires EnvRel(env, cenv, TopNames(t)) && StoreRel(s, u)
    ensures SameRun(RunTop(nm, t, env, s, fuel), RunCoreTop(nm, c, cenv, u, fuel))
  {
    hide Shaped, Uncaptured, Desugars, Eval, EvalCore, StoreRel, RelV, EnvRel, Free, Later, InitOf, CoreInit;
    var e := InitOf(t);
    FewerNames(env, cenv, TopNames(t), Free(e));
    Simulates(nm, e, CoreInit(c), env, cenv, s, u, fuel);
    var r, q := Eval(nm, e, env, s, fuel), EvalCore(nm, CoreInit(c), cenv, u, fuel);
    SameKind(r, q, s, u);
    if r.Val? && !t.Run? {
      FewerNames(env, cenv, TopNames(t), {t.name});
      CellDefined(t.name, r.value, q.value, env, cenv, r.state, q.state);
    }
  }

  lemma CellDefined(n: string, v: Val_, w: CoreVal, env: Env, cenv: CoreEnv, s: Store, u: CoreStore)
    requires EnvRel(env, cenv, {n}) && StoreRel(s, u) && RelV(v, w)
    ensures SameRun(DefineCell(n, v, env, s), SetVar(User(n), w, cenv, u))
  {
    hide RelV;
    assert n in {n};
    VoidRel();
  }

  /** Related bodies run alike from related environments and stores. */
  lemma {:induction false} TopsSimulated(
    nm: Numerics, ts: seq<Top>, cs: seq<CoreTop>, env: Env, cenv: CoreEnv, s: Store, u: CoreStore, fuel: nat)
    requires AllTopsShaped(ts) && AllTopsUncaptured(ts) && AllTopsDesugar(ts, cs)
    requires EnvRel(env, cenv, AllTopNames(ts)) && StoreRel(s, u)
    ensures SameRun(RunTops(nm, ts, env, s, fuel), RunCoreTops(nm, cs, cenv, u, fuel))
    decreases |ts|
  {
    hide Shaped, Uncaptured, TopDesugars, StoreRel, RelV, EnvRel, TopNames, RunTop, RunCoreTop;
    if ts == [] {
      VoidRel();
    } else {
      FewerNames(env, cenv, AllTopNames(ts), TopNames(ts[0]));
      FewerNames(env, cenv, AllTopNames(ts), AllTopNames(ts[1..]));
      TopSimulated(nm, ts[0], cs[0], env, cenv, s, u, fuel);
      var r, q := RunTop(nm, ts[0], env, s, fuel), RunCoreTop(nm, cs[0], cenv, u, fuel);
      if r.Val? && |ts| > 1 {
        TopsSimulated(nm, ts[1..], cs[1..], env, cenv, r.state, q.state, fuel);
      }
    }
  }

  /** The locations of a module's own names before it runs: nothing is defined yet. */
  ghost predicate Fresh(names: seq<string>, env: Env, cenv: CoreEnv, s: Store, u: CoreStore) {
    && env == BindNames(names, 0, map[]) && s == Holes(|names|)
    && |u.user| == |names| && u.temp == []
    && cenv == BindVars(Users(names), u.user, map[], CoreStore([], [])).env
  }

  /**
   What the expander is for, on whole module bodies: the output is the text of a body of core forms
   whose run comes to what the source body means. Afterwards the location of every name, defined
   names included, holds a value related to the one the source gives it.
   */
  lemma BodyPreservesMeaning(
    session: string, nm: Numerics, ts: seq<Top>, d: nat, n: nat, names: seq<string>,
    env: Env, cenv: CoreEnv, s: Store, u: CoreStore, fuel: nat) returns (cs: seq<CoreTop>)
    requires AllTopsShaped(ts) && AllTopsUncaptured(ts) && ExpandAll(session, TopTexts(ts), d, n).Ok?
    requires Fresh(names, env, cenv, s, u)
    ensures ExpandAll(session, TopTexts(ts), d, n).value.value == CoreTopTexts(session, cs)
    ensures var r, q := RunTops(nm, ts, env, s, fuel), RunCoreTops(nm, cs, cenv, u, fuel);
      && SameRun(r, q)
      && (r.Val? ==> forall x :: x in env && env[x] < |r.state| && r.state[env[x]].Has? ==>
            env[x] < |q.state.user| && RelV(r.state[env[x]].value, q.state.user[env[x]]))
  {
    hide AllTopsShaped, AllTopsUncaptured, AllTopsDesugar, AllTopNames, EnvRel, RelV, BindNames, BindVars, RunTops, RunCoreTops;
    cs := TopsExpand(session, ts, d, n);
    FreshIsRelated(names, env, cenv, s, u, AllTopNames(ts));
    TopsSimulated(nm, ts, cs, env, cenv, s, u, fuel);
  }

  lemma FreshIsRelated(names: seq<string>, env: Env, cenv: CoreEnv, s: Store, u: CoreStore, free: set<string>)
    requires Fresh(names, env, cenv, s, u)
    ensures EnvRel(env, cenv, free) && StoreRel(s, u)
  {
    hide RelV, BindNames, BindVars;
    BindingEnvs(names, u.user, map[], map[], 0, CoreStore([], []), free);
  }
}
