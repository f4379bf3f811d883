/**
 What the expander is for: a program's expansion, read as a core program, does what the program
 means.
 */
module ExpansionMeaning {
  import opened Wrappers
  import opened SExprs
  import opened Expanders
  import opened Programs
  import opened Desugaring
  import opened ExpansionOfForms
  import opened NamedLets
  import opened NameChecks
  import opened Acceptance
  import opened CoreNames
  import opened Spelling
  import opened Values
  import opened SourceMeaning
  import opened CoreMeaning
  import opened Relation
  import opened CoreSteps
  import opened Simulation

  /** `x` is the text of the core program `c`, whose user variables are among `ns`. */
  ghost predicate Spells(session: string, x: SExpr, c: Core, ns: set<string>) {
    CoreShaped(session, c) && UsersIn(c, ns) && CoreText(session, c) == x
  }

  const NO_STORE: CoreStore := CoreStore([], [])

  /** An expansion can be read as a core program in exactly one way. */
  lemma ExpansionHasOneReading(session: string, e: Expr, d: nat, n: nat, ns: set<string>) returns (c: Core)
    requires Shaped(e) && ExpandForm(session, Text(e), d, n).Ok?
    requires Named(e, ns) && HasListOps(ns) && AllApart(session, ns)
    ensures Desugars(e, c)
    ensures var x := ExpandForm(session, Text(e), d, n).value.value;
      Spells(session, x, c, ns) && forall c' :: Spells(session, x, c', ns) ==> c' == c
  {
    hide ExpandForm, Text, Shaped, Named, Desugars, CoreShaped, CoreText, UsersIn, AllApart, HasListOps;
    c := ExpandsToCore(session, e, d, n);
    NamesKept(e, c, ns);
    var x := ExpandForm(session, Text(e), d, n).value.value;
    forall c' | Spells(session, x, c', ns) ensures c' == c {
      TextDeterminesCore(session, c', c, ns);
    }
  }

  /**
   Whatever core program the output is read as, a whole run of it comes to what the source program
   means: the same kind of outcome, related values, and the same effects on the user's locations.
   */
  lemma ExpansionPreservesMeaning(session: string, nm: Numerics, e: Expr, d: nat, n: nat, ns: set<string>, c: Core, fuel: nat)
    requires Shaped(e) && Uncaptured(e) && ExpandForm(session, Text(e), d, n).Ok?
    requires Named(e, ns) && HasListOps(ns) && AllApart(session, ns)
    requires Spells(session, ExpandForm(session, Text(e), d, n).value.value, c, ns)
    ensures OutRel(Eval(nm, e, map[], [], fuel), EvalCore(nm, c, map[], NO_STORE, fuel), [], NO_STORE)
  {
    hide ExpandForm, Text, Shaped, Uncaptured, Named, Desugars, Spells, AllApart, HasListOps, Eval, EvalCore, OutRel;
    var only := ExpansionHasOneReading(session, e, d, n, ns);
    assert c == only;
    NothingBoundAgrees(Free(e));
    Simulates(nm, e, c, map[], map[], [], NO_STORE, fuel);
  }

  lemma NothingBoundAgrees(names: set<string>)
    ensures EnvRel(map[], map[], names) && StoreRel([], NO_STORE)
  {
  }

  // ---- What an observer sees ----

  /** A value with its procedures left out. */
  function Observed<F>(v: Value<F>): Value<()> {
    match v
    case VNil => VNil
    case VBool(b) => VBool(b)
    case VNum(x) => VNum(x)
    case VChar(c) => VChar(c)
    case VStr(s) => VStr(s)
    case VSym(n) => VSym(n)
    case VBytes(bs) => VBytes(bs)
    case VPair(a, d) => VPair(Observed(a), Observed(d))
    case VVector(items) => VVector(AllObserved(items))
    case VVoid => VVoid
    case VPrim(p) => VPrim(p)
    case VProc(_) => VProc(())
  }

  function AllObserved<F>(vs: seq<Value<F>>): seq<Value<()>> {
    if vs == [] then [] else [Observed(vs[0])] + AllObserved(vs[1..])
  }

  lemma {:induction false} RelatedLookAlike(v: Val_, w: CoreVal)
    requires RelV(v, w)
    ensures Observed(v) == Observed(w)
  {
    hide RelProc;
    match v
    case VPair(a, d) =>
      RelatedLookAlike(a, w.car);
      RelatedLookAlike(d, w.cdr);
    case VVector(items) => AllLookAlike(items, w.items);
    case _ =>
  }

  lemma {:induction false} AllLookAlike(vs: seq<Val_>, ws: seq<CoreVal>)
    requires RelVs(vs, ws)
    ensures AllObserved(vs) == AllObserved(ws)
  {
    hide RelV, Observed;
    if vs != [] {
      RelatedLookAlike(vs[0], ws[0]);
      AllLookAlike(vs[1..], ws[1..]);
    }
  }

  /** A program that comes to data expands to one that comes to the same data. */
  lemma SameObservation(session: string, nm: Numerics, e: Expr, d: nat, n: nat, ns: set<string>, c: Core, fuel: nat)
    requires Shaped(e) && Uncaptured(e) && ExpandForm(session, Text(e), d, n).Ok?
    requires Named(e, ns) && HasListOps(ns) && AllApart(session, ns)
    requires Spells(session, ExpandForm(session, Text(e), d, n).value.value, c, ns)
    ensures var r, q := Eval(nm, e, map[], [], fuel), EvalCore(nm, c, map[], NO_STORE, fuel);
      && (r.Failed? ==> q.Failed?) && (r.OutOfFuel? ==> q.OutOfFuel?)
      && (r.Val? ==> q.Val? && Observed(r.value) == Observed(q.value) && |r.state| == |q.state.user|)
      && (r.Val? ==> forall i :: 0 <= i < |r.state| && r.state[i].Has? ==>
        Observed(r.state[i].value) == Observed(q.state.user[i]))
  {
    hide ExpandForm, Text, Shaped, Uncaptured, Named, Spells, AllApart, HasListOps, Eval, EvalCore, RelV, Observed;
    ExpansionPreservesMeaning(session, nm, e, d, n, ns, c, fuel);
    var r, q := Eval(nm, e, map[], [], fuel), EvalCore(nm, c, map[], NO_STORE, fuel);
    SameKind(r, q, [], NO_STORE);
    if r.Val? {
      RelatedLookAlike(r.value, q.value);
      forall i | 0 <= i < |r.state| && r.state[i].Has?
        ensures Observed(r.state[i].value) == Observed(q.state.user[i])
      {
        RelatedLookAlike(r.state[i].value, q.state.user[i]);
      }
    }
  }

  // ---- Named lets ----

  /**
   Every program, whatever its named lets capture: the output runs as the program does with each
   named let written as the letrec of its procedure around the first call.
   */
  lemma ExpansionMeansUnlooped(session: string, nm: Numerics, e: Expr, d: nat, n: nat, ns: set<string>, c: Core, fuel: nat)
    requires Shaped(e) && ExpandForm(session, Text(e), d, n).Ok?
    requires Named(e, ns) && HasListOps(ns) && AllApart(session, ns)
    requires Spells(session, ExpandForm(session, Text(e), d, n).value.value, c, ns)
    ensures OutRel(Eval(nm, Unlooped(e), map[], [], fuel), EvalCore(nm, c, map[], NO_STORE, fuel), [], NO_STORE)
  {
    hide ExpandForm, Text, Shaped, Uncaptured, Named, Desugars, Spells, AllApart, HasListOps, Eval, EvalCore, OutRel, Unlooped;
    var only := ExpansionHasOneReading(session, e, d, n, ns);
    assert c == only;
    UnloopedIsShaped(e);
    UnloopedDesugars(e, c);
    NothingBoundAgrees(Free(Unlooped(e)));
    Simulates(nm, Unlooped(e), c, map[], map[], [], NO_STORE, fuel);
  }

  const CAPTURED := LoopLet("car", ["x"], [Ref("car")], Plain([Ref("x")]))
  const CAPTURING := CoreLetrec([User("car")], [CLambda([User("x")], None, [CRef(User("x"))])],
    [CApp(CRef(User("car")), [CRef(User("car"))])])

  /**
   `(let car ((x car)) x)` means the primitive `car`; the expander accepts it, and what it makes of
   it comes to the loop itself.
   */
  lemma NamedLetCapturesItsInits(session: string, nm: Numerics, d: nat, n: nat)
    requires d >= 4 * Size(CAPTURED)
    ensures Shaped(CAPTURED) && !Uncaptured(CAPTURED)
    ensures ExpandForm(session, Text(CAPTURED), d, n).Ok?
    ensures ExpandForm(session, Text(CAPTURED), d, n).value.value == CoreText(session, CAPTURING)
    ensures Eval(nm, CAPTURED, map[], [], 1).Val? && Eval(nm, CAPTURED, map[], [], 1).value == VPrim("car")
    ensures EvalCore(nm, CAPTURING, map[], NO_STORE, 1).Val? && EvalCore(nm, CAPTURING, map[], NO_STORE, 1).value.VProc?
  {
    hide ExpandForm, Text, Size, Shaped, Uncaptured, WellNamed, Desugars, CoreText, CoreShaped, Eval, EvalCore;
    CapturedShape();
    Accepted(session, CAPTURED, d, n);
    var c := ExpandsToCore(session, CAPTURED, d, n);
    CapturedExpansion(c);
    CapturedMeans(nm);
    CapturingRuns(nm);
  }

  lemma CapturedShape()
    ensures Shaped(CAPTURED) && WellNamed(CAPTURED) && !Uncaptured(CAPTURED)
  {
    assert AllShaped([Ref("x")]) && AllShaped([Ref("car")]) && AllWellNamed([Ref("x")]) && AllWellNamed([Ref("car")]);
    assert !IsReserved("car") && GoodNames(["x"]) && GoodNames([]) && AllWellNamed([]) && AllShaped([]);
    assert AllFree([Ref("car")]) == Free(Ref("car")) + AllFree([]);
  }

  lemma CapturedExpansion(c: Core)
    requires Desugars(CAPTURED, c)
    ensures c == CAPTURING
  {
    var v := User("car");
    BinderOf(CAPTURED, c);
    LetrecIsCoreLetrec([v], c);
    var lam, start := LetrecInits([v], c)[0], LetrecBody([v], c);
    assert Users(["x"]) == [User("x")];
    OnlyRef("x", lam.body);
    OnlyRef("car", start[0].args);
    assert LetrecInits([v], c) == [lam] && start == [start[0]];
  }

  lemma OnlyRef(n: string, cs: seq<Core>)
    requires AllDesugar([Ref(n)], cs)
    ensures cs == [CRef(User(n))]
  {
    assert Desugars(Ref(n), cs[0]);
  }

  lemma CapturedInit(nm: Numerics, s: Store)
    ensures EvalAll(nm, [Ref("car")], map[], s, 1) == Val([VPrim("car")], s)
  {
    assert Eval(nm, Ref("car"), map[], s, 1) == Val(VPrim("car"), s);
    assert [Ref("car")][1..] == [] && EvalAll(nm, [], map[], s, 1) == Val([], s);
    var v: Val_ := VPrim("car");
    assert [v] + [] == [v];
  }

  lemma CapturedBody(nm: Numerics, v: Val_, env: Env, s: Store)
    ensures var fr := BindArgs(["x"], None, [v], env, s);
      fr.Some? && EvalBlock(nm, Plain([Ref("x")]), fr.value.env, fr.value.store, 0).Val?
      && EvalBlock(nm, Plain([Ref("x")]), fr.value.env, fr.value.store, 0).value == v
  {
    assert [v][..1] == [v] && Cells([v]) == [Has(v)];
    assert ["x"][1..] == [] && BindNames(["x"], |s|, env) == env["x" := |s|];
    assert Eval(nm, Ref("x"), env["x" := |s|], s + [Has(v)], 0).value == v;
    NoDefinitions(nm, Plain([Ref("x")]), env["x" := |s|], s + [Has(v)], 0);
  }

  lemma CapturedMeans(nm: Numerics)
    ensures Eval(nm, CAPTURED, map[], [], 1).Val? && Eval(nm, CAPTURED, map[], [], 1).value == VPrim("car")
  {
    hide EvalAll, EvalBlock, BindArgs;
    var env := map["car" := 0];
    var p: Val_ := VProc(Proc(["x"], None, Plain([Ref("x")]), env));
    var s: Store := [Has(p)];
    assert [] + s == s;
    CapturedInit(nm, s);
    CapturedBody(nm, VPrim("car"), env, s);
    assert Eval(nm, CAPTURED, map[], [], 1) == Apply(nm, p, [VPrim("car")], s, 1);
  }

  lemma CapturingRuns(nm: Numerics)
    ensures EvalCore(nm, CAPTURING, map[], NO_STORE, 1).Val? && EvalCore(nm, CAPTURING, map[], NO_STORE, 1).value.VProc?
  {
    hide CoreLetrec, IsLetrec, LetrecInits, LetrecBody;
    var v := User("car");
    var lam, start := CLambda([User("x")], None, [CRef(User("x"))]), [CApp(CRef(v), [CRef(v)])];
    CoreLetrecIsLetrec([v], [lam], start);
    LoopStarts(nm, v, CAPTURING, lam, start, map[], NO_STORE, 1);
    var cenv := LoopEnv(v, map[], NO_STORE);
    var g: CoreVal := VProc(CoreProc(lam.params, lam.rest, lam.body, cenv));
    var t := NO_STORE.(user := [] + [g]);
    RefRuns(nm, v, g, cenv, t, 1);
    OneOperand(nm, CRef(v), cenv, t, 1);
    BindingOne(User("x"), g, cenv, t);
    var gr := BindOne(User("x"), g, cenv, t);
    OneCore(nm, CRef(User("x")), gr.env, gr.store, 0);
    RefRuns(nm, User("x"), g, gr.env, gr.store, 0);
  }
}
