/**
 Expansion preserves meaning: running a core program that desugars an expression gives the same
 outcome, value and effects on the user's locations as the expression's direct meaning.
 */
module Simulation {
  import opened Wrappers
  import opened SExprs
  import opened Programs
  import opened Desugaring
  import opened Values
  import opened SourceMeaning
  import opened CoreMeaning
  import opened Relation
  import opened CoreSteps
  import opened KeyTests
  import opened Bindings

  /** Expressions. */
  lemma {:induction false} Simulates(nm: Numerics, e: Expr, c: Core, env: Env, cenv: CoreEnv, s: Store, t: CoreStore, fuel: nat)
    requires Shaped(e) && Uncaptured(e) && Desugars(e, c) && EnvRel(env, cenv, Free(e)) && StoreRel(s, t)
    ensures OutRel(Eval(nm, e, env, s, fuel), EvalCore(nm, c, cenv, t, fuel), s, t)
    decreases fuel, Size(e), 1
  {
    hide *;
    match e
    case Lit(_) => LiteralSimulated(nm, e, c, env, cenv, s, t, fuel);
    case QuoteOf(_, _) => LiteralSimulated(nm, e, c, env, cenv, s, t, fuel);
    case Ref(_) => RefSimulated(nm, e, c, env, cenv, s, t, fuel);
    case If(_, _, _) => IfSimulated(nm, e, c, env, cenv, s, t, fuel);
    case OneArmed(_, _) => IfSimulated(nm, e, c, env, cenv, s, t, fuel);
    case When(_, _) => IfSimulated(nm, e, c, env, cenv, s, t, fuel);
    case Unless(_, _) => IfSimulated(nm, e, c, env, cenv, s, t, fuel);
    case Begin(_) => BeginSimulated(nm, e, c, env, cenv, s, t, fuel);
    case Lambda(_, _, _) => LambdaSimulated(nm, e, c, env, cenv, s, t, fuel);
    case Assign(_, _) => AssignSimulated(nm, e, c, env, cenv, s, t, fuel);
    case App(_, _) => AppSimulated(nm, e, c, env, cenv, s, t, fuel);
    case Let(_, _, _) => LetSimulated(nm, e, c, env, cenv, s, t, fuel);
    case LetStar(_, _, _) => LetStarSimulated(nm, e, c, env, cenv, s, t, fuel);
    case Letrec(_, _, _) => LetrecSimulated(nm, e, c, env, cenv, s, t, fuel);
    case LoopLet(_, _, _, _) => LoopLetSimulated(nm, e, c, env, cenv, s, t, fuel);
    case And(_) => AndSimulated(nm, e, c, env, cenv, s, t, fuel);
    case Or(_) => OrSimulated(nm, e, c, env, cenv, s, t, fuel);
    case Cond(_, _) => CondSimulated(nm, e, c, env, cenv, s, t, fuel);
    case Case(_, _, _) => CaseSimulated(nm, e, c, env, cenv, s, t, fuel);
    case Do(_, _, _, _, _, _, _) => DoSimulated(nm, e, c, env, cenv, s, t, fuel);
    case Quasi(_, _) => QuasiSimulated(nm, e, c, env, cenv, s, t, fuel);
  }

  lemma {:induction false} AllSimulated(nm: Numerics, es: seq<Expr>, cs: seq<Core>, env: Env, cenv: CoreEnv, s: Store, t: CoreStore, fuel: nat)
    requires AllShaped(es) && AllUncaptured(es) && AllDesugar(es, cs) && EnvRel(env, cenv, AllFree(es)) && StoreRel(s, t)
    ensures OutsRel(EvalAll(nm, es, env, s, fuel), EvalOperands(nm, cs, cenv, t, fuel), s, t)
    decreases fuel, AllSize(es), 0
  {
    hide Shaped, Uncaptured, Desugars, EnvRel, StoreRel, Eval, EvalCore, RelV, Later, Free;
    if es == [] {
      LaterSame(s, t);
    } else {
      FewerNames(env, cenv, AllFree(es), Free(es[0]));
      FewerNames(env, cenv, AllFree(es), AllFree(es[1..]));
      Simulates(nm, es[0], cs[0], env, cenv, s, t, fuel);
      var r, q := Eval(nm, es[0], env, s, fuel), EvalCore(nm, cs[0], cenv, t, fuel);
      if r.Val? {
        AllSimulated(nm, es[1..], cs[1..], env, cenv, r.state, q.state, fuel);
        var rs, qs := EvalAll(nm, es[1..], env, r.state, fuel), EvalOperands(nm, cs[1..], cenv, q.state, fuel);
        if rs.Val? {
          LaterTwice(s, t, r.state, q.state, rs.state, qs.state);
          ConsRel(r.value, q.value, rs.value, qs.value);
        }
      }
    }
  }

  lemma {:induction false} BodySimulated(nm: Numerics, es: seq<Expr>, cs: seq<Core>, env: Env, cenv: CoreEnv, s: Store, t: CoreStore, fuel: nat)
    requires AllShaped(es) && AllUncaptured(es) && AllDesugar(es, cs) && EnvRel(env, cenv, AllFree(es)) && StoreRel(s, t)
    ensures OutRel(EvalBody(nm, es, env, s, fuel), EvalCores(nm, cs, cenv, t, fuel), s, t)
    decreases fuel, AllSize(es), 0
  {
    hide Shaped, Uncaptured, Desugars, EnvRel, StoreRel, Eval, EvalCore, Later, Free, OutRel;
    if es == [] {
      VoidOut(s, t);
    } else {
      FewerNames(env, cenv, AllFree(es), Free(es[0]));
      FewerNames(env, cenv, AllFree(es), AllFree(es[1..]));
      Simulates(nm, es[0], cs[0], env, cenv, s, t, fuel);
      if |es| > 1 {
        var r, q := Eval(nm, es[0], env, s, fuel), EvalCore(nm, cs[0], cenv, t, fuel);
        SameKind(r, q, s, t);
        if r.Val? {
          BodySimulated(nm, es[1..], cs[1..], env, cenv, r.state, q.state, fuel);
          OutLater(EvalBody(nm, es[1..], env, r.state, fuel), EvalCores(nm, cs[1..], cenv, q.state, fuel), s, t, r.state, q.state);
        }
        Stops(EvalBody(nm, es, env, s, fuel), EvalCores(nm, cs, cenv, t, fuel), s, t);
      }
    }
  }

  /** A body that became a `begin`. */
  lemma {:induction false} SequenceSimulated(
    nm: Numerics, es: seq<Expr>, c: Core, env: Env, cenv: CoreEnv, s: Store, t: CoreStore, fuel: nat)
    requires AllShaped(es) && AllUncaptured(es) && SequenceDesugars(es, c) && EnvRel(env, cenv, AllFree(es)) && StoreRel(s, t)
    ensures OutRel(EvalBody(nm, es, env, s, fuel), EvalCore(nm, c, cenv, t, fuel), s, t)
    decreases fuel, AllSize(es), 1
  {
    hide EnvRel, StoreRel, OutRel, EvalBody, EvalCores, AllDesugar, AllShaped, AllUncaptured, AllFree;
    BodySimulated(nm, es, c.body, env, cenv, s, t, fuel);
  }

  // ---- Atoms ----

  lemma LiteralSimulated(nm: Numerics, e: Expr, c: Core, env: Env, cenv: CoreEnv, s: Store, t: CoreStore, fuel: nat)
    requires (e.Lit? || e.QuoteOf?) && Desugars(e, c) && StoreRel(s, t)
    ensures OutRel(Eval(nm, e, env, s, fuel), EvalCore(nm, c, cenv, t, fuel), s, t)
  {
    hide RelV, StoreRel, Later, FromDatum, OutRel;
    DatumRel(e.datum);
    ValueOut(FromDatum(e.datum), FromDatum(e.datum), s, t);
  }

  lemma RefSimulated(nm: Numerics, e: Expr, c: Core, env: Env, cenv: CoreEnv, s: Store, t: CoreStore, fuel: nat)
    requires e.Ref? && Desugars(e, c) && EnvRel(env, cenv, Free(e)) && StoreRel(s, t)
    ensures OutRel(Eval(nm, e, env, s, fuel), EvalCore(nm, c, cenv, t, fuel), s, t)
  {
    hide RelV;
    assert e.name in Free(e);
    LaterSame(s, t);
    PrimIsItself(e.name);
  }

  lemma PrimIsItself(name: string)
    ensures RelV(VPrim(name), VPrim(name))
  {
  }

  lemma {:induction false} BeginSimulated(nm: Numerics, e: Expr, c: Core, env: Env, cenv: CoreEnv, s: Store, t: CoreStore, fuel: nat)
    requires e.Begin? && Shaped(e) && Uncaptured(e) && Desugars(e, c) && EnvRel(env, cenv, Free(e)) && StoreRel(s, t)
    ensures OutRel(Eval(nm, e, env, s, fuel), EvalCore(nm, c, cenv, t, fuel), s, t)
    decreases fuel, Size(e), 0
  {
    hide EnvRel, StoreRel, OutRel, EvalBody, EvalCores, AllDesugar, AllShaped, AllUncaptured;
    BodySimulated(nm, e.body, c.body, env, cenv, s, t, fuel);
  }

  lemma LambdaSimulated(nm: Numerics, e: Expr, c: Core, env: Env, cenv: CoreEnv, s: Store, t: CoreStore, fuel: nat)
    requires e.Lambda? && Shaped(e) && Uncaptured(e) && Desugars(e, c) && EnvRel(env, cenv, Free(e)) && StoreRel(s, t)
    ensures OutRel(Eval(nm, e, env, s, fuel), EvalCore(nm, c, cenv, t, fuel), s, t)
  {
    hide StoreRel, OutRel, EnvRel, RelV, BlockShaped, BlockUncaptured, BlockDesugars, BlockFree;
    ClosureRel(e, c, env, cenv);
    ValueOut(VProc(Proc(e.params, e.rest, e.block, env)), VProc(CoreProc(c.params, c.rest, c.body, cenv)), s, t);
  }

  lemma ClosureRel(e: Expr, c: Core, env: Env, cenv: CoreEnv)
    requires e.Lambda? && c.CLambda? && c.params == Users(e.params) && c.rest == UserRest(e.rest)
    requires BlockShaped(e.block) && BlockUncaptured(e.block) && BlockDesugars(e.block, c.body)
    requires EnvRel(env, cenv, BlockFree(e.block) - NameSet(e.params) - RestSet(e.rest))
    ensures RelV(VProc(Proc(e.params, e.rest, e.block, env)), VProc(CoreProc(c.params, c.rest, c.body, cenv)))
  {
    hide BlockShaped, BlockUncaptured, BlockDesugars, EnvRel, BlockFree;
  }

  lemma {:induction false} AssignSimulated(nm: Numerics, e: Expr, c: Core, env: Env, cenv: CoreEnv, s: Store, t: CoreStore, fuel: nat)
    requires e.Assign? && Shaped(e) && Uncaptured(e) && Desugars(e, c) && EnvRel(env, cenv, Free(e)) && StoreRel(s, t)
    ensures OutRel(Eval(nm, e, env, s, fuel), EvalCore(nm, c, cenv, t, fuel), s, t)
    decreases fuel, Size(e), 0
  {
    hide StoreRel, OutRel, RelV, Later, EnvRel;
    FewerNames(env, cenv, Free(e), Free(e.value));
    FewerNames(env, cenv, Free(e), {e.name});
    Simulates(nm, e.value, c.value, env, cenv, s, t, fuel);
    var r, q := Eval(nm, e.value, env, s, fuel), EvalCore(nm, c.value, cenv, t, fuel);
    SameKind(r, q, s, t);
    if r.Val? {
      SetSimulated(e.name, r.value, q.value, env, cenv, r.state, q.state);
      OutLater(SetCell(e.name, r.value, env, r.state), SetVar(c.variable, q.value, cenv, q.state), s, t, r.state, q.state);
    }
    Stops(Eval(nm, e, env, s, fuel), EvalCore(nm, c, cenv, t, fuel), s, t);
  }

  lemma SetSimulated(n: string, v: Val_, w: CoreVal, env: Env, cenv: CoreEnv, s: Store, t: CoreStore)
    requires EnvRel(env, cenv, {n}) && StoreRel(s, t) && RelV(v, w)
    ensures OutRel(SetCell(n, v, env, s), SetVar(User(n), w, cenv, t), s, t)
  {
    hide RelV;
    assert n in {n};
    assert RelV(VVoid, VVoid) by { VoidRel(); }
  }

  lemma VoidRel()
    ensures RelV(VVoid, VVoid)
  {
  }

  // ---- Conditionals ----

  lemma {:induction false} IfSimulated(nm: Numerics, e: Expr, c: Core, env: Env, cenv: CoreEnv, s: Store, t: CoreStore, fuel: nat)
    requires (e.If? || e.OneArmed? || e.When? || e.Unless?) && Shaped(e) && Uncaptured(e) && Desugars(e, c)
    requires EnvRel(env, cenv, Free(e)) && StoreRel(s, t)
    ensures OutRel(Eval(nm, e, env, s, fuel), EvalCore(nm, c, cenv, t, fuel), s, t)
    decreases fuel, Size(e), 0
  {
    hide StoreRel, OutRel, RelV, Later, EnvRel, AllDesugar, AllShaped, AllUncaptured, AllFree, AllSize, EvalBody, EvalCores;
    BranchOf(e, c);
    FewerNames(env, cenv, Free(e), Free(e.test));
    Simulates(nm, e.test, c.test, env, cenv, s, t, fuel);
    var r, q := Eval(nm, e.test, env, s, fuel), EvalCore(nm, c.test, cenv, t, fuel);
    SameKind(r, q, s, t);
    if r.Val? {
      var s1, t1 := r.state, q.state;
      VoidOut(s1, t1);
      EmptyBody(nm, cenv, t1, fuel);
      if e.If? || e.OneArmed? {
        var taken := if IsTrue(r.value) then Some(e.yes) else if e.If? then Some(e.no) else None;
        var branch := if IsTrue(r.value) then c.yes else c.no;
        if taken.Some? {
          FewerNames(env, cenv, Free(e), Free(taken.value));
          Simulates(nm, taken.value, branch, env, cenv, s1, t1, fuel);
        }
        OutLater(Eval(nm, e, env, s, fuel), EvalCore(nm, branch, cenv, t1, fuel), s, t, s1, t1);
      } else {
        var branch := if IsTrue(r.value) then c.yes else c.no;
        if IsTrue(r.value) == e.When? {
          FewerNames(env, cenv, Free(e), AllFree(e.body));
          SequenceSimulated(nm, e.body, branch, env, cenv, s1, t1, fuel);
        }
        OutLater(Eval(nm, e, env, s, fuel), EvalCore(nm, branch, cenv, t1, fuel), s, t, s1, t1);
      }
    }
    Stops(Eval(nm, e, env, s, fuel), EvalCore(nm, c, cenv, t, fuel), s, t);
  }

  lemma {:induction false} AndSimulated(nm: Numerics, e: Expr, c: Core, env: Env, cenv: CoreEnv, s: Store, t: CoreStore, fuel: nat)
    requires e.And? && Shaped(e) && Uncaptured(e) && Desugars(e, c) && EnvRel(env, cenv, Free(e)) && StoreRel(s, t)
    ensures OutRel(Eval(nm, e, env, s, fuel), EvalCore(nm, c, cenv, t, fuel), s, t)
    decreases fuel, Size(e), 0
  {
    hide EnvRel, StoreRel, OutRel, EvalAnd, EvalCore, AndDesugars, AllShaped, AllUncaptured;
    TestsOfAnd(nm, e.tests, c, env, cenv, s, t, fuel);
  }

  lemma {:induction false} TestsOfAnd(
    nm: Numerics, es: seq<Expr>, c: Core, env: Env, cenv: CoreEnv, s: Store, t: CoreStore, fuel: nat)
    requires AllShaped(es) && AllUncaptured(es) && AndDesugars(es, c) && EnvRel(env, cenv, AllFree(es)) && StoreRel(s, t)
    ensures OutRel(EvalAnd(nm, es, env, s, fuel), EvalCore(nm, c, cenv, t, fuel), s, t)
    decreases fuel, AllSize(es), 0
  {
    hide Shaped, Uncaptured, Desugars, EnvRel, StoreRel, Eval, RelV, Later, Free, OutRel, IsTrue;
    if es == [] {
      BoolOut(true, s, t);
    } else {
      FewerNames(env, cenv, AllFree(es), Free(es[0]));
      if |es| == 1 {
        Simulates(nm, es[0], c, env, cenv, s, t, fuel);
      } else {
        FewerNames(env, cenv, AllFree(es), AllFree(es[1..]));
        Simulates(nm, es[0], c.test, env, cenv, s, t, fuel);
        var r, q := Eval(nm, es[0], env, s, fuel), EvalCore(nm, c.test, cenv, t, fuel);
        SameKind(r, q, s, t);
        if r.Val? {
          if IsTrue(r.value) {
            TestsOfAnd(nm, es[1..], c.yes, env, cenv, r.state, q.state, fuel);
          } else {
            BoolOut(false, r.state, q.state);
            OnlyFalse(r.value);
            LitRuns(nm, Bool(false), cenv, q.state, fuel);
          }
          OutLater(EvalAnd(nm, es, env, s, fuel), EvalCore(nm, c, cenv, t, fuel), s, t, r.state, q.state);
        }
        Stops(EvalAnd(nm, es, env, s, fuel), EvalCore(nm, c, cenv, t, fuel), s, t);
      }
    }
  }

  lemma BoolOut(b: bool, s: Store, t: CoreStore)
    requires StoreRel(s, t)
    ensures OutRel(Val(VBool(b), s), Val(FromDatum(Bool(b)), t), s, t)
  {
    ValueOut(VBool(b), VBool(b), s, t);
  }

  lemma OnlyFalse(v: Val_)
    ensures !IsTrue(v) ==> v == VBool(false)
  {
  }

  lemma {:induction false} OrSimulated(nm: Numerics, e: Expr, c: Core, env: Env, cenv: CoreEnv, s: Store, t: CoreStore, fuel: nat)
    requires e.Or? && Shaped(e) && Uncaptured(e) && Desugars(e, c) && EnvRel(env, cenv, Free(e)) && StoreRel(s, t)
    ensures OutRel(Eval(nm, e, env, s, fuel), EvalCore(nm, c, cenv, t, fuel), s, t)
    decreases fuel, Size(e), 0
  {
    hide EnvRel, StoreRel, OutRel, EvalOr, EvalCore, OrDesugars, AllShaped, AllUncaptured;
    TestsOfOr(nm, e.tests, c, env, cenv, s, t, fuel);
  }

  lemma {:induction false} TestsOfOr(
    nm: Numerics, es: seq<Expr>, c: Core, env: Env, cenv: CoreEnv, s: Store, t: CoreStore, fuel: nat)
    requires AllShaped(es) && AllUncaptured(es) && OrDesugars(es, c) && EnvRel(env, cenv, AllFree(es)) && StoreRel(s, t)
    ensures OutRel(EvalOr(nm, es, env, s, fuel), EvalCore(nm, c, cenv, t, fuel), s, t)
    decreases fuel, AllSize(es), 0
  {
    hide Shaped, Uncaptured, Desugars, EnvRel, StoreRel, Eval, EvalCore, RelV, Later, Free, OutRel, IsTrue, BindOne, TempsAre;
    if es == [] {
      assert EvalCore(nm, CLit(Bool(false)), cenv, t, fuel) == Val(FromDatum(Bool(false)), t) by { LitRuns(nm, Bool(false), cenv, t, fuel); }
      BoolOut(false, s, t);
    } else {
      FewerNames(env, cenv, AllFree(es), Free(es[0]));
      if |es| == 1 {
        Simulates(nm, es[0], c, env, cenv, s, t, fuel);
      } else {
        FewerNames(env, cenv, AllFree(es), AllFree(es[1..]));
        Simulates(nm, es[0], OrInit(c), env, cenv, s, t, fuel);
        var r, q := Eval(nm, es[0], env, s, fuel), EvalCore(nm, OrInit(c), cenv, t, fuel);
        SameKind(r, q, s, t);
        OrStepRuns(nm, c, cenv, t, fuel);
        if r.Val? {
          var fr := BindOne(c.fn.params[0], q.value, cenv, q.state);
          TempRel(AllFree(es[1..]), c.fn.params[0], q.value, env, cenv, r.state, q.state);
          LaterTwice(s, t, r.state, q.state, r.state, fr.store);
          if IsTrue(r.value) {
            ValueOut(r.value, q.value, r.state, fr.store);
          } else {
            TestsOfOr(nm, es[1..], OrRest(c), env, fr.env, r.state, fr.store, fuel);
          }
          OutLater(EvalOr(nm, es, env, s, fuel), EvalCore(nm, c, cenv, t, fuel), s, t, r.state, fr.store);
        }
        Stops(EvalOr(nm, es, env, s, fuel), EvalCore(nm, c, cenv, t, fuel), s, t);
      }
    }
  }

  lemma LitRuns(nm: Numerics, d: SExpr, cenv: CoreEnv, t: CoreStore, fuel: nat)
    ensures EvalCore(nm, CLit(d), cenv, t, fuel) == Val(FromDatum(d), t)
  {
  }

  // ---- cond ----

  lemma {:induction false} CondSimulated(nm: Numerics, e: Expr, c: Core, env: Env, cenv: CoreEnv, s: Store, t: CoreStore, fuel: nat)
    requires e.Cond? && Shaped(e) && Uncaptured(e) && Desugars(e, c) && EnvRel(env, cenv, Free(e)) && StoreRel(s, t)
    ensures OutRel(Eval(nm, e, env, s, fuel), EvalCore(nm, c, cenv, t, fuel), s, t)
    decreases fuel, Size(e), 0
  {
    hide EnvRel, StoreRel, OutRel, EvalCond, EvalCore, CondDesugars, AllClausesShaped, AllClausesUncaptured, OtherwiseShaped, OtherwiseUncaptured;
    ClausesSimulated(nm, e.clauses, e.otherwise, c, env, cenv, s, t, fuel);
  }

  lemma {:induction false} OtherwiseSimulated(
    nm: Numerics, o: Otherwise, c: Core, env: Env, cenv: CoreEnv, s: Store, t: CoreStore, fuel: nat)
    requires OtherwiseShaped(o) && OtherwiseUncaptured(o) && OtherwiseDesugars(o, c) && EnvRel(env, cenv, OtherwiseFree(o)) && StoreRel(s, t)
    ensures OutRel(EvalOtherwise(nm, o, env, s, fuel), EvalCore(nm, c, cenv, t, fuel), s, t)
    decreases fuel, OtherwiseSize(o), 0
  {
    hide EnvRel, StoreRel, OutRel, EvalBody, EvalCores, AllDesugar, AllShaped, AllUncaptured;
    if o.NoElse? {
      EmptyBody(nm, cenv, t, fuel);
      VoidOut(s, t);
    } else {
      SequenceSimulated(nm, o.body, c, env, cenv, s, t, fuel);
    }
  }

  lemma {:induction false} ClausesSimulated(
    nm: Numerics, cls: seq<Clause>, o: Otherwise, c: Core, env: Env, cenv: CoreEnv, s: Store, t: CoreStore, fuel: nat)
    requires AllClausesShaped(cls) && AllClausesUncaptured(cls) && OtherwiseShaped(o) && OtherwiseUncaptured(o) && CondDesugars(cls, o, c)
    requires EnvRel(env, cenv, ClausesFree(cls) + OtherwiseFree(o)) && StoreRel(s, t)
    ensures OutRel(EvalCond(nm, cls, o, env, s, fuel), EvalCore(nm, c, cenv, t, fuel), s, t)
    decreases fuel, ClausesSize(cls) + OtherwiseSize(o), 1
  {
    hide Shaped, Uncaptured, Desugars, EnvRel, StoreRel, Eval, RelV, Later, Free, OutRel, IsTrue, EvalBody, EvalCores, AllShaped, AllUncaptured, AllFree, AllDesugar, EvalOtherwise, OtherwiseDesugars, OtherwiseFree, OtherwiseShaped, OtherwiseUncaptured;
    var names := ClausesFree(cls) + OtherwiseFree(o);
    if cls == [] {
      FewerNames(env, cenv, names, OtherwiseFree(o));
      OtherwiseSimulated(nm, o, c, env, cenv, s, t, fuel);
    } else {
      var cl := cls[0];
      assert ClauseShaped(cl) && ClauseUncaptured(cl) && ClauseDesugars(cl, c) && SequenceDesugars(cl.body, c.yes);
      assert ClauseSize(cl) == 2 + Size(cl.test) + AllSize(cl.body) && ClauseFree(cl) == Free(cl.test) + AllFree(cl.body);
      FewerNames(env, cenv, names, Free(cl.test));
      FewerNames(env, cenv, names, AllFree(cl.body));
      FewerNames(env, cenv, names, ClausesFree(cls[1..]) + OtherwiseFree(o));
      Simulates(nm, cl.test, c.test, env, cenv, s, t, fuel);
      var r, q := Eval(nm, cl.test, env, s, fuel), EvalCore(nm, c.test, cenv, t, fuel);
      SameKind(r, q, s, t);
      if r.Val? {
        if IsTrue(r.value) {
          SequenceSimulated(nm, cl.body, c.yes, env, cenv, r.state, q.state, fuel);
        } else {
          ClausesSimulated(nm, cls[1..], o, c.no, env, cenv, r.state, q.state, fuel);
        }
        OutLater(EvalCond(nm, cls, o, env, s, fuel), EvalCore(nm, c, cenv, t, fuel), s, t, r.state, q.state);
      }
      Stops(EvalCond(nm, cls, o, env, s, fuel), EvalCore(nm, c, cenv, t, fuel), s, t);
    }
  }

  // ---- case ----

  lemma {:induction false} CaseSimulated(nm: Numerics, e: Expr, c: Core, env: Env, cenv: CoreEnv, s: Store, t: CoreStore, fuel: nat)
    requires e.Case? && Shaped(e) && Uncaptured(e) && Desugars(e, c) && EnvRel(env, cenv, Free(e)) && StoreRel(s, t)
    ensures OutRel(Eval(nm, e, env, s, fuel), EvalCore(nm, c, cenv, t, fuel), s, t)
    decreases fuel, Size(e), 0
  {
    hide RelV, EnvRel, StoreRel, Later, OutRel, EvalCase, EvalCore, CaseDesugars, AllChoicesShaped, AllChoicesUncaptured, OtherwiseShaped, OtherwiseUncaptured,
      BindOne, TempsAre, IsTrue, ChoicesFree, ChoicesSize, OtherwiseFree, OtherwiseSize;
    var names := {"eqv?"} + ChoicesFree(e.choices) + OtherwiseFree(e.otherwise);
    FewerNames(env, cenv, Free(e), Free(e.key));
    FewerNames(env, cenv, Free(e), names);
    Simulates(nm, e.key, c.args[0], env, cenv, s, t, fuel);
    var r, q := Eval(nm, e.key, env, s, fuel), EvalCore(nm, c.args[0], cenv, t, fuel);
    SameKind(r, q, s, t);
    OneParam(CaseTemp, c);
    OneBindingRuns(nm, c.fn.params[0], c, cenv, t, fuel);
    if r.Val? {
      var key := c.fn.params[0];
      var fr := BindOne(key, q.value, cenv, q.state);
      TempRel(names, key, q.value, env, cenv, r.state, q.state);
      TempIsInTemp(key, q.value, cenv, q.state);
      LaterTwice(s, t, r.state, q.state, r.state, fr.store);
      ChoicesSimulated(nm, key, r.value, q.value, e.choices, e.otherwise, c.fn.body[0], env, fr.env, r.state, fr.store, fuel);
      OutLater(Eval(nm, e, env, s, fuel), EvalCore(nm, c, cenv, t, fuel), s, t, r.state, fr.store);
    }
    Stops(Eval(nm, e, env, s, fuel), EvalCore(nm, c, cenv, t, fuel), s, t);
  }

  lemma TempIsInTemp(v: Var, x: CoreVal, cenv: CoreEnv, t: CoreStore)
    requires v.Temp?
    ensures v in BindOne(v, x, cenv, t).env && BindOne(v, x, cenv, t).env[v].InTemp?
  {
  }

  lemma {:induction false} ChoicesSimulated(
    nm: Numerics, key: Var, v: Val_, k: CoreVal, chs: seq<Choice>, o: Otherwise, c: Core,
    env: Env, cenv: CoreEnv, s: Store, t: CoreStore, fuel: nat)
    requires AllChoicesShaped(chs) && AllChoicesUncaptured(chs) && OtherwiseShaped(o) && OtherwiseUncaptured(o) && CaseDesugars(key, chs, o, c)
    requires EnvRel(env, cenv, {"eqv?"} + ChoicesFree(chs) + OtherwiseFree(o)) && StoreRel(s, t) && RelV(v, k)
    requires key.Temp? && key.hint == CaseTemp && key in cenv && cenv[key].InTemp? && Read(cenv[key], t) == Some(k)
    ensures OutRel(EvalCase(nm, v, chs, o, env, s, fuel), EvalCore(nm, c, cenv, t, fuel), s, t)
    decreases fuel, ChoicesSize(chs) + OtherwiseSize(o), 1
  {
    hide Shaped, Uncaptured, EnvRel, StoreRel, RelV, Later, OutRel, EvalBody, AllShaped, AllUncaptured, AllFree, SequenceDesugars,
      EvalOtherwise, OtherwiseDesugars, OtherwiseFree, OtherwiseShaped, OtherwiseUncaptured, KeyMatches, IsKeyTest, Read;
    var names := {"eqv?"} + ChoicesFree(chs) + OtherwiseFree(o);
    if chs == [] {
      FewerNames(env, cenv, names, OtherwiseFree(o));
      OtherwiseSimulated(nm, o, c, env, cenv, s, t, fuel);
    } else if "eqv?" in env {
      Stops(EvalCase(nm, v, chs, o, env, s, fuel), EvalCore(nm, c, cenv, t, fuel), s, t);
    } else {
      var ch := chs[0];
      assert ChoiceShaped(ch) && ChoiceUncaptured(ch) && ChoiceDesugars(key, ch, c);
      assert ChoiceSize(ch) == 2 + |ch.data| + AllSize(ch.body) && ChoiceFree(ch) == AllFree(ch.body);
      FewerNames(env, cenv, names, AllFree(ch.body));
      FewerNames(env, cenv, names, {"eqv?"} + ChoicesFree(chs[1..]) + OtherwiseFree(o));
      NotBound("eqv?", env, cenv, names);
      KeyTestRuns(nm, key, ch.data, c.test, v, k, cenv, t, fuel);
      var m, q := KeyMatches(v, ch.data), EvalCore(nm, c.test, cenv, t, fuel);
      if !m.Unknown? {
        MoreTemps(s, t, q.state);
        TempStays(cenv[key], t, q.state, k);
        if m.Yes? {
          SequenceSimulated(nm, ch.body, c.yes, env, cenv, s, q.state, fuel);
        } else {
          ChoicesSimulated(nm, key, v, k, chs[1..], o, c.no, env, cenv, s, q.state, fuel);
        }
        OutLater(EvalCase(nm, v, chs, o, env, s, fuel), EvalCore(nm, c, cenv, t, fuel), s, t, s, q.state);
      }
      Stops(EvalCase(nm, v, chs, o, env, s, fuel), EvalCore(nm, c, cenv, t, fuel), s, t);
    }
  }

  lemma NotBound(n: string, env: Env, cenv: CoreEnv, names: set<string>)
    requires EnvRel(env, cenv, names) && n in names && n !in env
    ensures User(n) !in cenv
  {
  }

  // ---- Calls ----

  lemma {:induction false} StripFacts(f: Expr, c: Core)
    requires Desugars(f, c) && Shaped(f) && Uncaptured(f)
    ensures Desugars(Strip(f), c) && Shaped(Strip(f)) && Uncaptured(Strip(f)) && Free(Strip(f)) <= Free(f)
    ensures c.CLambda? <==> Strip(f).Lambda?
    decreases Size(f)
  {
    hide Desugars, Shaped, Uncaptured, Free, Size;
    if f.And? && |f.tests| == 1 {
      OneTest(f, c);
      StripFacts(f.tests[0], c);
    } else if f.Or? && |f.tests| == 1 {
      OneTest(f, c);
      StripFacts(f.tests[0], c);
    } else if f.Quasi? && f.template.Unquoted? {
      UnquotedOperator(f, c);
      StripFacts(f.template.of, c);
    } else {
      Unstripped(f, c);
    }
  }

  lemma OneTest(f: Expr, c: Core)
    requires Desugars(f, c) && Shaped(f) && Uncaptured(f) && (f.And? || f.Or?) && |f.tests| == 1
    ensures Desugars(f.tests[0], c) && Shaped(f.tests[0]) && Uncaptured(f.tests[0]) && Free(f) == Free(f.tests[0]) && Size(f.tests[0]) < Size(f)
    ensures Strip(f) == Strip(f.tests[0])
  {
    assert f.tests[1..] == [] && AllFree([]) == {};
    assert AllFree(f.tests) == Free(f.tests[0]) + AllFree(f.tests[1..]);
  }

  lemma UnquotedOperator(f: Expr, c: Core)
    requires Desugars(f, c) && Shaped(f) && Uncaptured(f) && f.Quasi? && f.template.Unquoted?
    ensures Desugars(f.template.of, c) && Shaped(f.template.of) && Uncaptured(f.template.of) && Free(f.template.of) <= Free(f)
    ensures Size(f.template.of) < Size(f) && Strip(f) == Strip(f.template.of)
  {
  }

  lemma Unstripped(f: Expr, c: Core)
    requires Desugars(f, c) && Shaped(f) && Uncaptured(f) && Strip(f) == f
    requires !((f.And? || f.Or?) && |f.tests| == 1) && !(f.Quasi? && f.template.Unquoted?)
    ensures c.CLambda? <==> f.Lambda?
  {
    hide AllDesugar, CondDesugars, CaseDesugars, TmplDesugars, AllShaped, AllUncaptured, TmplShaped, TmplUncaptured, AllClausesShaped, AllClausesUncaptured, AllChoicesShaped, AllChoicesUncaptured;
    if f.Let? || f.LetStar? || f.Letrec? || f.LoopLet? || f.Do? {
      BinderIsNoLambda(f, c);
    } else if f.If? || f.OneArmed? || f.When? || f.Unless? {
      BranchOf(f, c);
    } else if f.Cond? {
      CondIsNoLambda(f.clauses, f.otherwise, c);
    } else if f.Quasi? {
      TmplIsNoLambda(f.template, c);
    }
  }

  lemma BinderIsNoLambda(f: Expr, c: Core)
    requires Desugars(f, c) && (f.Let? || f.LetStar? || f.Letrec? || f.LoopLet? || f.Do?)
    ensures !c.CLambda?
  {
    hide AllDesugar, LetStarDesugars, LoopDesugars, DoDesugars, Desugars;
    BinderOf(f, c);
    if f.LetStar? {
      StarIsNoLambda(f.names, f.inits, f.block, c);
    }
  }

  lemma StarIsNoLambda(names: seq<string>, inits: seq<Expr>, body: Block, c: Core)
    requires LetStarDesugars(names, inits, body, c)
    ensures !c.CLambda?
  {
  }

  lemma CondIsNoLambda(cls: seq<Clause>, o: Otherwise, c: Core)
    requires CondDesugars(cls, o, c)
    ensures !c.CLambda?
  {
    if cls != [] {
      assert ClauseDesugars(cls[0], c);
    } else if o.Else? {
      assert SequenceDesugars(o.body, c);
    } else {
      assert c == EMPTY_BEGIN;
    }
  }

  lemma TmplIsNoLambda(t: Tmpl, c: Core)
    requires TmplDesugars(t, c) && TmplShaped(t) && TmplUncaptured(t) && !t.Unquoted?
    ensures !c.CLambda?
  {
    if t.Listed? && t.tail.Some? {
      var r :| TmplDesugars(t.tail.value, r) && ElemsDesugar(t.elems, r, c);
      ElemsAreNoLambda(t.elems, r, c);
    } else if t.Listed? {
      ElemsAreNoLambda(t.elems, CQuote(Proper([])), c);
    }
  }

  lemma ElemsAreNoLambda(xs: seq<Elem>, rest: Core, c: Core)
    requires ElemsDesugar(xs, rest, c) && (xs != [] || !rest.CLambda?)
    ensures !c.CLambda?
  {
    if xs != [] {
      assert ElemDesugars(xs[0], c);
    }
  }

  lemma {:induction false} AppSimulated(nm: Numerics, e: Expr, c: Core, env: Env, cenv: CoreEnv, s: Store, t: CoreStore, fuel: nat)
    requires e.App? && Shaped(e) && Uncaptured(e) && Desugars(e, c) && EnvRel(env, cenv, Free(e)) && StoreRel(s, t)
    ensures OutRel(Eval(nm, e, env, s, fuel), EvalCore(nm, c, cenv, t, fuel), s, t)
    decreases fuel, Size(e), 0
  {
    hide EnvRel, StoreRel, OutRel, EvalApp, EvalCore, AllShaped, AllUncaptured, AllDesugar, Strip;
    StripFacts(e.fn, c.fn);
    FewerNames(env, cenv, Free(e), AllFree(e.args));
    FewerNames(env, cenv, Free(e), Free(e.fn));
    FewerNames(env, cenv, Free(e), Free(Strip(e.fn)));
    if c.fn.CLambda? {
      DirectCall(nm, e.fn, e.args, c, env, cenv, s, t, fuel);
    } else {
      ComputedCall(nm, e.fn, e.args, c, env, cenv, s, t, fuel);
    }
  }

  /** A lambda in operator position. */
  lemma {:induction false} DirectCall(
    nm: Numerics, f: Expr, args: seq<Expr>, c: Core, env: Env, cenv: CoreEnv, s: Store, t: CoreStore, fuel: nat)
    requires var g := Strip(f); g.Lambda? && Shaped(g) && Uncaptured(g) && EnvRel(env, cenv, Free(g))
    requires c.CApp? && c.fn.CLambda? && Desugars(Strip(f), c.fn)
    requires AllShaped(args) && AllUncaptured(args) && AllDesugar(args, c.args) && EnvRel(env, cenv, AllFree(args)) && StoreRel(s, t)
    ensures OutRel(EvalApp(nm, f, args, env, s, fuel), EvalCore(nm, c, cenv, t, fuel), s, t)
    decreases fuel, Size(f) + AllSize(args) + 1, 0
  {
    hide Shaped, Uncaptured, Desugars, EnvRel, StoreRel, RelVs, Later, OutRel, OutsRel, AllShaped, AllUncaptured, AllDesugar, AllFree, Free, Strip,
      EvalAll, EvalOperands, EvalBlock, EvalCores, BindArgs, BindCoreArgs, BlockShaped, BlockUncaptured, BlockDesugars, BlockFree, BlockSize, Eval, EvalCore;
    var g := Strip(f);
    LambdaParts(g, c.fn);
    AllSimulated(nm, args, c.args, env, cenv, s, t, fuel);
    var r, q := EvalAll(nm, args, env, s, fuel), EvalOperands(nm, c.args, cenv, t, fuel);
    SameKinds(r, q, s, t);
    DirectCallRuns(nm, c, cenv, t, fuel);
    if r.Val? {
      ArgsRel(g.params, g.rest, r.value, q.value, env, cenv, r.state, q.state, BlockFree(g.block));
      var fr, gr := BindArgs(g.params, g.rest, r.value, env, r.state), BindCoreArgs(c.fn.params, c.fn.rest, q.value, cenv, q.state);
      if fr.Some? {
        BlockSimulated(nm, g.block, c.fn.body, fr.value.env, gr.value.env, fr.value.store, gr.value.store, fuel);
        LaterTwice(s, t, r.state, q.state, fr.value.store, gr.value.store);
        OutLater(EvalApp(nm, f, args, env, s, fuel), EvalCore(nm, c, cenv, t, fuel), s, t, fr.value.store, gr.value.store);
      }
    }
    Stops(EvalApp(nm, f, args, env, s, fuel), EvalCore(nm, c, cenv, t, fuel), s, t);
  }

  lemma LambdaParts(e: Expr, c: Core)
    requires e.Lambda? && Shaped(e) && Uncaptured(e) && Desugars(e, c)
    ensures c.CLambda? && c.params == Users(e.params) && c.rest == UserRest(e.rest)
    ensures BlockShaped(e.block) && BlockUncaptured(e.block) && BlockDesugars(e.block, c.body)
    ensures Free(e) == BlockFree(e.block) - NameSet(e.params) - RestSet(e.rest) && Size(e) == 3 + BlockSize(e.block)
  {
    hide BlockShaped, BlockUncaptured, BlockDesugars, BlockFree, BlockSize;
  }

  lemma DirectCallRuns(nm: Numerics, c: Core, cenv: CoreEnv, t: CoreStore, fuel: nat)
    requires c.CApp? && c.fn.CLambda?
    ensures var qs, q := EvalOperands(nm, c.args, cenv, t, fuel), EvalCore(nm, c, cenv, t, fuel);
      && (qs.Failed? ==> q.Failed?) && (qs.OutOfFuel? ==> q.OutOfFuel?)
      && (qs.Val? ==> var gr := BindCoreArgs(c.fn.params, c.fn.rest, qs.value, cenv, qs.state);
        q == if gr.None? then Failed else EvalCores(nm, c.fn.body, gr.value.env, gr.value.store, fuel))
  {
    hide EvalOperands, BindCoreArgs, EvalCores;
  }

  lemma ComputedCallRuns(nm: Numerics, c: Core, cenv: CoreEnv, t: CoreStore, fuel: nat)
    requires c.CApp? && !c.fn.CLambda?
    ensures var q, q1 := EvalCore(nm, c.fn, cenv, t, fuel), EvalCore(nm, c, cenv, t, fuel);
      && (!q.Val? ==> q1 == q)
      && (q.Val? ==> var qs := EvalOperands(nm, c.args, cenv, q.state, fuel);
        && (qs.Failed? ==> q1.Failed?) && (qs.OutOfFuel? ==> q1.OutOfFuel?)
        && (qs.Val? ==> q1 == ApplyCore(nm, q.value, qs.value, qs.state, fuel)))
  {
    hide EvalOperands, ApplyCore;
  }

  lemma {:induction false} ComputedCall(
    nm: Numerics, f: Expr, args: seq<Expr>, c: Core, env: Env, cenv: CoreEnv, s: Store, t: CoreStore, fuel: nat)
    requires Shaped(f) && Uncaptured(f) && !Strip(f).Lambda?
    requires c.CApp? && !c.fn.CLambda? && Desugars(f, c.fn) && EnvRel(env, cenv, Free(f))
    requires AllShaped(args) && AllUncaptured(args) && AllDesugar(args, c.args) && EnvRel(env, cenv, AllFree(args)) && StoreRel(s, t)
    ensures OutRel(EvalApp(nm, f, args, env, s, fuel), EvalCore(nm, c, cenv, t, fuel), s, t)
    decreases fuel, Size(f) + AllSize(args) + 1, 0
  {
    hide Shaped, Uncaptured, Desugars, EnvRel, StoreRel, RelV, RelVs, Later, OutRel, OutsRel, AllShaped, AllUncaptured, AllDesugar, AllFree, Free, Strip,
      EvalAll, EvalOperands, Eval, EvalCore, Apply, ApplyCore, IsTrue;
    Simulates(nm, f, c.fn, env, cenv, s, t, fuel);
    var r, q := Eval(nm, f, env, s, fuel), EvalCore(nm, c.fn, cenv, t, fuel);
    SameKind(r, q, s, t);
    ComputedCallRuns(nm, c, cenv, t, fuel);
    if r.Val? {
      AllSimulated(nm, args, c.args, env, cenv, r.state, q.state, fuel);
      var rs, qs := EvalAll(nm, args, env, r.state, fuel), EvalOperands(nm, c.args, cenv, q.state, fuel);
      SameKinds(rs, qs, r.state, q.state);
      if rs.Val? {
        ApplySimulated(nm, r.value, q.value, rs.value, qs.value, rs.state, qs.state, fuel);
        LaterTwice(s, t, r.state, q.state, rs.state, qs.state);
        OutLater(EvalApp(nm, f, args, env, s, fuel), EvalCore(nm, c, cenv, t, fuel), s, t, rs.state, qs.state);
      }
    }
    Stops(EvalApp(nm, f, args, env, s, fuel), EvalCore(nm, c, cenv, t, fuel), s, t);
  }

  /** Related procedures do related things to related arguments. */
  lemma {:induction false} ApplySimulated(
    nm: Numerics, f: Val_, g: CoreVal, vs: seq<Val_>, ws: seq<CoreVal>, s: Store, t: CoreStore, fuel: nat)
    requires RelV(f, g) && RelVs(vs, ws) && StoreRel(s, t)
    ensures OutRel(Apply(nm, f, vs, s, fuel), ApplyCore(nm, g, ws, t, fuel), s, t)
    decreases fuel, 0, 0
  {
    hide RelV, RelVs, StoreRel, Later, OutRel, BindArgs, BindCoreArgs, EvalBlock, EvalCores, ApplyPrimitive, BlockShaped, BlockUncaptured, BlockDesugars,
      BlockFree, EnvRel, IsTrue, NameSet, RestSet;
    KindRel(f, g);
    if f.VPrim? {
      PrimCallRel(nm, f.prim, vs, ws, s, t);
    } else if f.VProc? && fuel > 0 {
      var p, q := f.proc, g.proc;
      ArgsRel(p.params, p.rest, vs, ws, p.env, q.env, s, t, BlockFree(p.block));
      var fr, gr := BindArgs(p.params, p.rest, vs, p.env, s), BindCoreArgs(q.params, q.rest, ws, q.env, t);
      if fr.Some? {
        BlockSimulated(nm, p.block, q.body, fr.value.env, gr.value.env, fr.value.store, gr.value.store, fuel - 1);
        OutLater(Apply(nm, f, vs, s, fuel), ApplyCore(nm, g, ws, t, fuel), s, t, fr.value.store, gr.value.store);
      }
    }
    ApplyKinds(f, g);
    Stops(Apply(nm, f, vs, s, fuel), ApplyCore(nm, g, ws, t, fuel), s, t);
  }

  lemma ApplyKinds(f: Val_, g: CoreVal)
    requires RelV(f, g)
    ensures (f.VPrim? <==> g.VPrim?) && (f.VProc? <==> g.VProc?)
  {
  }

  lemma PrimCallRel(nm: Numerics, name: string, vs: seq<Val_>, ws: seq<CoreVal>, s: Store, t: CoreStore)
    requires RelVs(vs, ws) && StoreRel(s, t)
    ensures OutRel(ApplyPrim(nm, name, vs, s), ApplyCorePrim(nm, name, ws, t), s, t)
  {
    hide RelV, RelVs, StoreRel, Later, OutRel, ApplyPrimitive;
    PrimitivesRel(nm, name, vs, ws);
    var r, q := ApplyPrimitive(nm, name, vs), ApplyPrimitive(nm, name, ws);
    if r.Returns? {
      ValueOut(r.value, q.value, s, t);
    }
    Stops(ApplyPrim(nm, name, vs, s), ApplyCorePrim(nm, name, ws, t), s, t);
  }

  /** Bodies of procedures and lets. */
  lemma {:induction false} BlockSimulated(
    nm: Numerics, b: Block, cs: seq<Core>, env: Env, cenv: CoreEnv, s: Store, t: CoreStore, fuel: nat)
    requires BlockShaped(b) && BlockUncaptured(b) && BlockDesugars(b, cs) && EnvRel(env, cenv, BlockFree(b)) && StoreRel(s, t)
    ensures OutRel(EvalBlock(nm, b, env, s, fuel), EvalCores(nm, cs, cenv, t, fuel), s, t)
    decreases fuel, BlockSize(b), 1
  {
    hide AllShaped, AllUncaptured, AllDesugar, LetrecDesugars, EnvRel, StoreRel, OutRel, EvalBody, EvalCores, AllFree, Holes;
    if b.names == [] {
      NoDefinitions(nm, b, env, s, fuel);
      FewerNames(env, cenv, BlockFree(b), AllFree(b.exprs));
      BodySimulated(nm, b.exprs, cs, env, cenv, s, t, fuel);
    } else {
      DefinitionsSimulated(nm, b, cs[0], env, cenv, s, t, fuel);
      OneCoreIs(nm, cs, cenv, t, fuel);
    }
  }

  lemma NoDefinitions(nm: Numerics, b: Block, env: Env, s: Store, fuel: nat)
    requires b.names == [] && b.inits == []
    ensures EvalBlock(nm, b, env, s, fuel) == EvalBody(nm, b.exprs, env, s, fuel)
  {
    hide EvalBody;
    assert s + Holes(0) == s;
  }

  // ---- let ----

  lemma {:induction false} LetSimulated(nm: Numerics, e: Expr, c: Core, env: Env, cenv: CoreEnv, s: Store, t: CoreStore, fuel: nat)
    requires e.Let? && Shaped(e) && Uncaptured(e) && Desugars(e, c) && EnvRel(env, cenv, Free(e)) && StoreRel(s, t)
    ensures OutRel(Eval(nm, e, env, s, fuel), EvalCore(nm, c, cenv, t, fuel), s, t)
    decreases fuel, Size(e), 0
  {
    hide EnvRel, StoreRel, OutRel, EvalLet, EvalCore, AllShaped, AllUncaptured, BlockShaped, BlockUncaptured, LetDesugars, AllFree, BlockFree;
    BinderOf(e, c);
    FewerNames(env, cenv, Free(e), AllFree(e.inits));
    FewerNames(env, cenv, Free(e), BlockFree(e.block) - NameSet(e.names));
    BoundSimulated(nm, e.names, e.inits, e.block, c, env, cenv, s, t, fuel);
  }

  lemma {:induction false} BoundSimulated(
    nm: Numerics, names: seq<string>, inits: seq<Expr>, body: Block, c: Core,
    env: Env, cenv: CoreEnv, s: Store, t: CoreStore, fuel: nat)
    requires |names| == |inits| && AllShaped(inits) && AllUncaptured(inits) && BlockShaped(body) && BlockUncaptured(body) && LetDesugars(names, inits, body, c) && StoreRel(s, t)
    requires EnvRel(env, cenv, AllFree(inits)) && EnvRel(env, cenv, BlockFree(body) - NameSet(names))
    ensures OutRel(EvalLet(nm, names, inits, body, env, s, fuel), EvalCore(nm, c, cenv, t, fuel), s, t)
    decreases fuel, AllSize(inits) + BlockSize(body) + 1, 0
  {
    hide EnvRel, StoreRel, RelVs, Later, OutRel, OutsRel, AllShaped, AllUncaptured, AllDesugar, AllFree, EvalAll, EvalOperands, EvalBlock, BlockShaped, BlockUncaptured, BlockDesugars, BlockFree,
      EvalCores, BindArgs, BindNames, BindCoreArgs, Eval, EvalCore, Cells, NameSet;
    AllSimulated(nm, inits, c.args, env, cenv, s, t, fuel);
    var r, q := EvalAll(nm, inits, env, s, fuel), EvalOperands(nm, c.args, cenv, t, fuel);
    SameKinds(r, q, s, t);
    DirectCallRuns(nm, c, cenv, t, fuel);
    if r.Val? {
      var names1 := BlockFree(body) - NameSet(names) - RestSet(None);
      assert names1 == BlockFree(body) - NameSet(names);
      ArgsRel(names, None, r.value, q.value, env, cenv, r.state, q.state, BlockFree(body));
      LetBinds(names, r.value, env, r.state);
      var fr, gr := BindArgs(names, None, r.value, env, r.state), BindCoreArgs(c.fn.params, c.fn.rest, q.value, cenv, q.state);
      BlockSimulated(nm, body, c.fn.body, fr.value.env, gr.value.env, fr.value.store, gr.value.store, fuel);
      LaterTwice(s, t, r.state, q.state, fr.value.store, gr.value.store);
      OutLater(EvalLet(nm, names, inits, body, env, s, fuel), EvalCore(nm, c, cenv, t, fuel), s, t, fr.value.store, gr.value.store);
    }
    Stops(EvalLet(nm, names, inits, body, env, s, fuel), EvalCore(nm, c, cenv, t, fuel), s, t);
  }

  // ---- let* ----

  lemma {:induction false} LetStarSimulated(nm: Numerics, e: Expr, c: Core, env: Env, cenv: CoreEnv, s: Store, t: CoreStore, fuel: nat)
    requires e.LetStar? && Shaped(e) && Uncaptured(e) && Desugars(e, c) && EnvRel(env, cenv, Free(e)) && StoreRel(s, t)
    ensures OutRel(Eval(nm, e, env, s, fuel), EvalCore(nm, c, cenv, t, fuel), s, t)
    decreases fuel, Size(e), 0
  {
    hide EnvRel, StoreRel, OutRel, EvalLetStar, EvalCore, AllShaped, AllUncaptured, BlockShaped, BlockUncaptured, LetStarDesugars, AllFree, BlockFree, LetStarFree;
    BinderOf(e, c);
    StarSimulated(nm, e.names, e.inits, e.block, c, env, cenv, s, t, fuel);
  }

  lemma {:induction false} StarSimulated(
    nm: Numerics, names: seq<string>, inits: seq<Expr>, body: Block, c: Core,
    env: Env, cenv: CoreEnv, s: Store, t: CoreStore, fuel: nat)
    requires |names| == |inits| && AllShaped(inits) && AllUncaptured(inits) && BlockShaped(body) && BlockUncaptured(body) && LetStarDesugars(names, inits, body, c)
    requires EnvRel(env, cenv, LetStarFree(names, inits, BlockFree(body))) && StoreRel(s, t)
    ensures OutRel(EvalLetStar(nm, names, inits, body, env, s, fuel), EvalCore(nm, c, cenv, t, fuel), s, t)
    decreases fuel, AllSize(inits) + BlockSize(body) + 1, 1
  {
    hide EnvRel, StoreRel, RelV, Later, OutRel, EvalBlock, BlockShaped, BlockUncaptured, BlockFree, EvalCores, BindOne, Eval, EvalCore, Shaped, Uncaptured, Desugars, Free, AllFree, AllDesugar;
    if names == [] {
      NothingBound(nm, body, env, s, fuel);
      assert BlockFree(body) - NameSet([]) == BlockFree(body);
      NothingFree();
      FewerNames(env, cenv, BlockFree(body), AllFree([]));
      BoundSimulated(nm, [], [], body, c, env, cenv, s, t, fuel);
    } else {
      var free := LetStarFree(names[1..], inits[1..], BlockFree(body));
      FewerNames(env, cenv, LetStarFree(names, inits, BlockFree(body)), Free(inits[0]));
      FewerNames(env, cenv, LetStarFree(names, inits, BlockFree(body)), free - {names[0]});
      Simulates(nm, inits[0], c.args[0], env, cenv, s, t, fuel);
      var r, q := Eval(nm, inits[0], env, s, fuel), EvalCore(nm, c.args[0], cenv, t, fuel);
      SameKind(r, q, s, t);
      OneBindingRuns(nm, User(names[0]), c, cenv, t, fuel);
      if r.Val? {
        RestRel(names[0], r.value, q.value, env, cenv, r.state, q.state, free);
        var gr := BindOne(User(names[0]), q.value, cenv, q.state);
        var env1, s1 := env[names[0] := |r.state|], r.state + [Has(r.value)];
        StarSimulated(nm, names[1..], inits[1..], body, c.fn.body[0], env1, gr.env, s1, gr.store, fuel);
        LaterTwice(s, t, r.state, q.state, s1, gr.store);
        OutLater(EvalLetStar(nm, names, inits, body, env, s, fuel), EvalCore(nm, c, cenv, t, fuel), s, t, s1, gr.store);
      }
      Stops(EvalLetStar(nm, names, inits, body, env, s, fuel), EvalCore(nm, c, cenv, t, fuel), s, t);
    }
  }

  lemma NothingFree()
    ensures AllFree([]) == {}
  {
  }

  lemma NothingBound(nm: Numerics, body: Block, env: Env, s: Store, fuel: nat)
    ensures EvalLet(nm, [], [], body, env, s, fuel) == EvalBlock(nm, body, env, s, fuel)
  {
    hide EvalBlock;
    assert EvalAll(nm, [], env, s, fuel) == Val([], s);
    assert s + Cells([]) == s;
  }

  // ---- letrec and internal definitions ----

  lemma {:induction false} LetrecSimulated(nm: Numerics, e: Expr, c: Core, env: Env, cenv: CoreEnv, s: Store, t: CoreStore, fuel: nat)
    requires e.Letrec? && Shaped(e) && Uncaptured(e) && Desugars(e, c) && EnvRel(env, cenv, Free(e)) && StoreRel(s, t)
    ensures OutRel(Eval(nm, e, env, s, fuel), EvalCore(nm, c, cenv, t, fuel), s, t)
    decreases fuel, Size(e), 0
  {
    hide EnvRel, StoreRel, RelVs, Later, LaterOutside, OutRel, EvalAll, EvalBody, EvalCores, EvalCore, AllShaped, AllUncaptured, AllDesugar, AllFree,
      IsLetrec, LetrecInits, LetrecBody, Users, BindVars, BindNames, NilValues, Holes, Initialise, CoreSets, LocatedFrom,
      HolesAt, AssignedAt, Distinct, NameSet;
    BinderOf(e, c);
    var names, inits, body := e.names, e.inits, e.body;
    var free := AllFree(inits) + AllFree(body);
    var cinits, cbody := LetrecInits(Users(names), c), LetrecBody(Users(names), c);
    LetrecRuns(nm, Users(names), c, cenv, t, fuel);
    HolesRel(names, env, cenv, s, t, free);
    FreshHoles(s, |names|);
    NamesAreLocated(names, NilValues(|names|), cenv, t);
    var env1, s1 := BindNames(names, |s|, env), s + Holes(|names|);
    var gr := BindVars(Users(names), NilValues(|names|), cenv, t);
    FewerNames(env1, gr.env, free, AllFree(inits));
    FewerNames(env1, gr.env, free, AllFree(body));
    assert |s| == |t.user| by { SameSizes(s, t); }
    var t1 := InitsSimulated(nm, names, inits, cinits, cbody, |s|, env1, gr.env, s1, gr.store, fuel);
    var r := EvalAll(nm, inits, env1, s1, fuel);
    if r.Val? {
      AllInitialised(s, t, s1, gr.store, r.state, t1, r.value);
      var s2 := Initialise(r.state, |s|, r.value);
      BodySimulated(nm, body, cbody, env1, gr.env, s2, t1, fuel);
      OutLater(EvalBody(nm, body, env1, s2, fuel), EvalCores(nm, cbody, gr.env, t1, fuel), s, t, s2, t1);
    }
    Stops(Eval(nm, e, env, s, fuel), EvalCore(nm, c, cenv, t, fuel), s, t);
  }

  lemma SameSizes(s: Store, t: CoreStore)
    requires StoreRel(s, t)
    ensures |s| == |t.user|
  {
  }

  /** The inits of a `letrec`: the core program assigns each as soon as it is known. */
  lemma {:induction false} InitsSimulated(
    nm: Numerics, names: seq<string>, inits: seq<Expr>, cinits: seq<Core>, rest: seq<Core>, at: nat,
    env: Env, cenv: CoreEnv, s: Store, t: CoreStore, fuel: nat) returns (t1: CoreStore)
    requires |names| == |inits| == |cinits| && AllShaped(inits) && AllUncaptured(inits) && AllDesugar(inits, cinits)
    requires EnvRel(env, cenv, AllFree(inits)) && StoreRel(s, t)
    requires HolesAt(s, at, |names|) && LocatedFrom(names, at, cenv)
    ensures var r, q := EvalAll(nm, inits, env, s, fuel), EvalCores(nm, CoreSets(Users(names), cinits) + rest, cenv, t, fuel);
      && (r.Failed? ==> q.Failed?) && (r.OutOfFuel? ==> q.OutOfFuel?)
      && (r.Val? ==> q == EvalCores(nm, rest, cenv, t1, fuel) && StoreRel(r.state, t1))
      && (r.Val? ==> LaterOutside(s, t, r.state, t1, at, at + |names|) && AssignedAt(t1, at, r.value))
    decreases fuel, AllSize(inits), 0
  {
    hide EnvRel, StoreRel, RelV, Later, LaterOutside, OutRel, Eval, EvalCores, EvalCore, Shaped, Uncaptured, Desugars, Free,
      Users, CoreSets, LocatedFrom, HolesAt, AssignedAt, IsTrue;
    if names == [] {
      NoSets(names, cinits, rest);
      HolesFit(s, at, 0);
      OutsideNothing(s, t, at);
      t1 := t;
    } else {
      FirstSet(names, cinits, rest);
      FewerNames(env, cenv, AllFree(inits), Free(inits[0]));
      FewerNames(env, cenv, AllFree(inits), AllFree(inits[1..]));
      RestLocated(names, at, cenv);
      Simulates(nm, inits[0], cinits[0], env, cenv, s, t, fuel);
      var r, q := Eval(nm, inits[0], env, s, fuel), EvalCore(nm, cinits[0], cenv, t, fuel);
      SameKind(r, q, s, t);
      var more := CoreSets(Users(names[1..]), cinits[1..]) + rest;
      SetStepRuns(nm, User(names[0]), cinits[0], more, cenv, t, fuel);
      t1 := t;
      if r.Val? {
        OneAssigned(s, t, r.state, q.state, at, |names|, r.value, q.value);
        var t2 := q.state.(user := q.state.user[at := q.value]);
        t1 := InitsSimulated(nm, names[1..], inits[1..], cinits[1..], rest, at + 1, env, cenv, r.state, t2, fuel);
        var rs := EvalAll(nm, inits[1..], env, r.state, fuel);
        if rs.Val? {
          OneMoreAssigned(s, t, r.state, t2, rs.state, t1, at, |names|, r.value, rs.value);
        }
      }
    }
  }

  lemma HolesFit(s: Store, at: nat, n: nat)
    requires HolesAt(s, at, n)
    ensures at + n <= |s|
  {
  }

  lemma OneCoreIs(nm: Numerics, cs: seq<Core>, cenv: CoreEnv, t: CoreStore, fuel: nat)
    requires |cs| == 1
    ensures EvalCores(nm, cs, cenv, t, fuel) == EvalCore(nm, cs[0], cenv, t, fuel)
  {
    hide EvalCore;
  }

  lemma {:induction false} DefinitionsSimulated(
    nm: Numerics, b: Block, c: Core, env: Env, cenv: CoreEnv, s: Store, t: CoreStore, fuel: nat)
    requires BlockShaped(b) && BlockUncaptured(b) && LetrecDesugars(b.names, b.inits, b.exprs, c)
    requires EnvRel(env, cenv, BlockFree(b)) && StoreRel(s, t)
    ensures OutRel(EvalBlock(nm, b, env, s, fuel), EvalCore(nm, c, cenv, t, fuel), s, t)
    decreases fuel, BlockSize(b), 0
  {
    hide EnvRel, StoreRel, Later, OutRel, EvalDefs, EvalCores, EvalCore, AllShaped, AllUncaptured, AllDesugar, AllFree,
      IsLetrec, LetrecInits, LetrecBody, Users, BindVars, BindNames, NilValues, Holes, CoreSets, LocatedFrom,
      HolesAt, Distinct, NameSet;
    var names, free := b.names, AllFree(b.inits) + AllFree(b.exprs);
    var cinits, cbody := LetrecInits(Users(names), c), LetrecBody(Users(names), c);
    LetrecRuns(nm, Users(names), c, cenv, t, fuel);
    HolesRel(names, env, cenv, s, t, free);
    FreshHoles(s, |names|);
    NamesAreLocated(names, NilValues(|names|), cenv, t);
    SameSizes(s, t);
    var env1, s1 := BindNames(names, |s|, env), s + Holes(|names|);
    var gr := BindVars(Users(names), NilValues(|names|), cenv, t);
    DefsSimulated(nm, names, b.inits, b.exprs, cinits, cbody, |s|, s, t, env1, gr.env, s1, gr.store, fuel);
  }

  /** Definitions in order; `s0`, `t0` are the states before the definitions' locations were made. */
  lemma {:induction false} DefsSimulated(
    nm: Numerics, names: seq<string>, inits: seq<Expr>, body: seq<Expr>, cinits: seq<Core>, cbody: seq<Core>, at: nat,
    s0: Store, t0: CoreStore, env: Env, cenv: CoreEnv, s: Store, t: CoreStore, fuel: nat)
    requires |names| == |inits| == |cinits| && AllShaped(inits) && AllUncaptured(inits) && AllDesugar(inits, cinits)
    requires AllShaped(body) && AllUncaptured(body) && AllDesugar(body, cbody)
    requires EnvRel(env, cenv, AllFree(inits) + AllFree(body)) && StoreRel(s, t) && Later(s0, t0, s, t)
    requires |s0| <= at && HolesAt(s, at, |names|) && LocatedFrom(names, at, cenv)
    ensures OutRel(EvalDefs(nm, inits, body, at, env, s, fuel),
      EvalCores(nm, CoreSets(Users(names), cinits) + cbody, cenv, t, fuel), s0, t0)
    decreases fuel, AllSize(inits) + AllSize(body), 1
  {
    hide EnvRel, StoreRel, RelV, Later, OutRel, Eval, EvalBody, EvalCores, EvalCore, Shaped, Uncaptured, Desugars, Free,
      Users, CoreSets, LocatedFrom, HolesAt, IsTrue;
    var free := AllFree(inits) + AllFree(body);
    if names == [] {
      NoSets(names, cinits, cbody);
      FewerNames(env, cenv, free, AllFree(body));
      BodySimulated(nm, body, cbody, env, cenv, s, t, fuel);
      OutLater(EvalBody(nm, body, env, s, fuel), EvalCores(nm, cbody, cenv, t, fuel), s0, t0, s, t);
    } else {
      FirstSet(names, cinits, cbody);
      FewerNames(env, cenv, free, Free(inits[0]));
      FewerNames(env, cenv, free, AllFree(inits[1..]) + AllFree(body));
      RestLocated(names, at, cenv);
      Simulates(nm, inits[0], cinits[0], env, cenv, s, t, fuel);
      var r, q := Eval(nm, inits[0], env, s, fuel), EvalCore(nm, cinits[0], cenv, t, fuel);
      SameKind(r, q, s, t);
      var more := CoreSets(Users(names[1..]), cinits[1..]) + cbody;
      SetStepRuns(nm, User(names[0]), cinits[0], more, cenv, t, fuel);
      if r.Val? {
        LaterTwice(s0, t0, s, t, r.state, q.state);
        HolesStay(s, t, r.state, q.state, at, |names|);
        OneDefined(s0, t0, r.state, q.state, at, |names|, r.value, q.value);
        var s2, t2 := r.state[at := Has(r.value)], q.state.(user := q.state.user[at := q.value]);
        DefsSimulated(nm, names[1..], inits[1..], body, cinits[1..], cbody, at + 1, s0, t0, env, cenv, s2, t2, fuel);
      }
      Stops(EvalDefs(nm, inits, body, at, env, s, fuel),
        EvalCores(nm, CoreSets(Users(names), cinits) + cbody, cenv, t, fuel), s0, t0);
    }
  }

  // ---- Named let ----

  lemma {:induction false} LoopLetSimulated(nm: Numerics, e: Expr, c: Core, env: Env, cenv: CoreEnv, s: Store, t: CoreStore, fuel: nat)
    requires e.LoopLet? && Shaped(e) && Uncaptured(e) && Desugars(e, c) && EnvRel(env, cenv, Free(e)) && StoreRel(s, t)
    ensures OutRel(Eval(nm, e, env, s, fuel), EvalCore(nm, c, cenv, t, fuel), s, t)
    decreases fuel, Size(e), 0
  {
    hide EnvRel, StoreRel, RelV, RelVs, Later, OutRel, OutsRel, EvalAll, EvalOperands, EvalCores, EvalCore, Apply, ApplyCore, AllShaped, AllUncaptured, BlockShaped, BlockUncaptured, BlockDesugars, BlockFree,
      AllDesugar, AllFree, IsLetrec, LetrecInits, LetrecBody, BindVars, NilValues, CoreSets, Users, NameSet;
    BinderOf(e, c);
    var v := User(e.loop);
    var lam, start := LetrecInits([v], c)[0], LetrecBody([v], c);
    FewerNames(env, cenv, Free(e), AllFree(e.inits));
    FewerNames(env, cenv, Free(e), BlockFree(e.block) - NameSet(e.names) - {e.loop});
    LoopStarts(nm, v, c, lam, start, cenv, t, fuel);
    var cenv1 := LoopEnv(v, cenv, t);
    var g: CoreVal := VProc(CoreProc(lam.params, lam.rest, lam.body, cenv1));
    var t1 := t.(user := t.user + [g]);
    var p: Val_ := VProc(Proc(e.names, None, e.block, env[e.loop := |s|]));
    var s1 := s + [Has(p)];
    LoopRel(e.loop, e.names, e.block, lam, env, cenv, AllFree(e.inits), s, t);
    AllSimulated(nm, e.inits, start[0].args, env, cenv1, s1, t1, fuel);
    var r, q := EvalAll(nm, e.inits, env, s1, fuel), EvalOperands(nm, start[0].args, cenv1, t1, fuel);
    SameKinds(r, q, s1, t1);
    if r.Val? {
      ApplySimulated(nm, p, g, r.value, q.value, r.state, q.state, fuel);
      LaterTwice(s, t, s1, t1, r.state, q.state);
      assert EvalCore(nm, c, cenv, t, fuel) == ApplyCore(nm, g, q.value, q.state, fuel);
      assert Eval(nm, e, env, s, fuel) == EvalLoop(nm, e.loop, e.names, e.inits, e.block, env, s, fuel);
      assert Eval(nm, e, env, s, fuel) == Apply(nm, p, r.value, r.state, fuel);
      OutLater(Eval(nm, e, env, s, fuel), EvalCore(nm, c, cenv, t, fuel), s, t, r.state, q.state);
    }
    Stops(Eval(nm, e, env, s, fuel), EvalCore(nm, c, cenv, t, fuel), s, t);
  }

  function LoopEnv(v: Var, cenv: CoreEnv, t: CoreStore): CoreEnv {
    BindOne(v, VNil, cenv, t).env
  }

  /** The variable of a loop gets the procedure, then its initial call is made. */
  lemma LoopStarts(nm: Numerics, v: Var, c: Core, lam: Core, start: seq<Core>, cenv: CoreEnv, t: CoreStore, fuel: nat)
    requires IsLetrec([v], c) && lam == LetrecInits([v], c)[0] && start == LetrecBody([v], c) && lam.CLambda?
    requires |start| == 1 && start[0].CApp? && start[0].fn == CRef(v)
    ensures var cenv1 := LoopEnv(v, cenv, t);
      var g := VProc(CoreProc(lam.params, lam.rest, lam.body, cenv1));
      var t1 := if v.User? then t.(user := t.user + [g]) else t.(temp := t.temp + [g]);
      var qs, q := EvalOperands(nm, start[0].args, cenv1, t1, fuel), EvalCore(nm, c, cenv, t, fuel);
      && (qs.Failed? ==> q.Failed?) && (qs.OutOfFuel? ==> q.OutOfFuel?)
      && (qs.Val? ==> q == ApplyCore(nm, g, qs.value, qs.state, fuel))
  {
    hide EvalOperands, EvalCores, ApplyCore, IsLetrec, LetrecInits, LetrecBody, CoreSets, NilValues, BindVars;
    LetrecRuns(nm, [v], c, cenv, t, fuel);
    OneNilBound(v, cenv, t);
    var cenv1, t0 := LoopEnv(v, cenv, t), BindOne(v, VNil, cenv, t).store;
    var inits := LetrecInits([v], c);
    assert CoreSets([v], inits) + start == [CSet(v, lam)] + start by { OneSet(v, inits); }
    SetStepRuns(nm, v, lam, start, cenv1, t0, fuel);
    var g: CoreVal := VProc(CoreProc(lam.params, lam.rest, lam.body, cenv1));
    var t1 := if v.User? then t.(user := t.user + [g]) else t.(temp := t.temp + [g]);
    assert EvalCore(nm, lam, cenv1, t0, fuel) == Val(g, t0);
    assert Write(cenv1[v], g, t0) == Some(t1) by { LastWritten(t.user, VNil, g); LastWritten(t.temp, VNil, g); }
    OneCoreIs(nm, start, cenv1, t1, fuel);
    assert EvalCore(nm, CRef(v), cenv1, t1, fuel) == Val(g, t1);
    ComputedCallRuns(nm, start[0], cenv1, t1, fuel);
  }

  lemma LastWritten(xs: seq<CoreVal>, x: CoreVal, y: CoreVal)
    ensures (xs + [x])[|xs| := y] == xs + [y]
  {
  }

  lemma OneSet(v: Var, xs: seq<Core>)
    requires |xs| == 1
    ensures CoreSets([v], xs) == [CSet(v, xs[0])]
  {
  }

  lemma OneNilBound(v: Var, cenv: CoreEnv, t: CoreStore)
    ensures BindVars([v], NilValues(1), cenv, t) == BindOne(v, VNil, cenv, t)
  {
    assert NilValues(1) == [VNil] && [v][1..] == [] && NilValues(1)[1..] == [];
    var fr := BindOne(v, VNil, cenv, t);
    assert BindVars([], [], fr.env, fr.store) == fr;
  }

  /** The loop's procedure and its expansion are related, and so are the states that hold them. */
  lemma LoopRel(
    loop: string, names: seq<string>, body: Block, lam: Core, env: Env, cenv: CoreEnv, free: set<string>, s: Store, t: CoreStore)
    requires lam.CLambda? && lam.params == Users(names) && lam.rest == None && BlockShaped(body) && BlockUncaptured(body) && BlockDesugars(body, lam.body)
    requires EnvRel(env, cenv, BlockFree(body) - NameSet(names) - {loop}) && EnvRel(env, cenv, free) && loop !in free && StoreRel(s, t)
    ensures var cenv1 := LoopEnv(User(loop), cenv, t);
      var g := VProc(CoreProc(lam.params, lam.rest, lam.body, cenv1));
      var p := VProc(Proc(names, None, body, env[loop := |s|]));
      var s1, t1 := s + [Has(p)], t.(user := t.user + [g]);
      RelV(p, g) && EnvRel(env, cenv1, free) && StoreRel(s1, t1) && Later(s, t, s1, t1)
  {
    hide BlockShaped, BlockUncaptured, BlockDesugars, BlockFree, NameSet, Users, StoreRel, Later;
    SameSizes(s, t);
    var cenv1 := LoopEnv(User(loop), cenv, t);
    var g: CoreVal := VProc(CoreProc(lam.params, lam.rest, lam.body, cenv1));
    var p: Val_ := VProc(Proc(names, None, body, env[loop := |s|]));
    assert BlockFree(body) - NameSet(names) - {} == BlockFree(body) - NameSet(names);
    assert RelProc(p.proc, g.proc);
    OneMoreUser(s, t, p, g);
  }

  lemma OneMoreUser(s: Store, t: CoreStore, v: Val_, w: CoreVal)
    requires StoreRel(s, t) && RelV(v, w)
    ensures StoreRel(s + [Has(v)], t.(user := t.user + [w])) && Later(s, t, s + [Has(v)], t.(user := t.user + [w]))
  {
    hide RelV;
  }

  // ---- do ----

  function PassFree(e: Expr): set<string>
    requires e.Do?
  {
    AllFree(e.steps) + Free(e.test) + AllFree(e.exits) + AllFree(e.body)
  }

  lemma {:induction false} DoSimulated(nm: Numerics, e: Expr, c: Core, env: Env, cenv: CoreEnv, s: Store, t: CoreStore, fuel: nat)
    requires e.Do? && Shaped(e) && Uncaptured(e) && Desugars(e, c) && EnvRel(env, cenv, Free(e)) && StoreRel(s, t)
    ensures OutRel(Eval(nm, e, env, s, fuel), EvalCore(nm, c, cenv, t, fuel), s, t)
    decreases fuel, Size(e), 0
  {
    hide EnvRel, StoreRel, RelV, RelVs, Later, OutRel, OutsRel, EvalAll, EvalDo, EvalOperands, EvalCores, EvalCore, ApplyCore, AllShaped, AllUncaptured,
      AllDesugar, AllFree, IsLetrec, LetrecInits, LetrecBody, BindVars, CoreSets, NameSet, ProcedureDesugars, Read, PassFree, TempsAre,
      HiddenStepsStay, BindOne;
    BinderOf(e, c);
    OneParam(DoTemp, c);
    var v := c.fn.params[0];
    var lam, start := LetrecInits([v], c)[0], LetrecBody([v], c);
    DoNames(e, env, cenv);
    DoParts(v, e, lam, start);
    IsProcedure(v, e, lam);
    LoopStarts(nm, v, c, lam, start, cenv, t, fuel);
    var cenv1 := LoopEnv(v, cenv, t);
    var g: CoreVal := VProc(CoreProc(lam.params, lam.rest, lam.body, cenv1));
    var t1 := t.(temp := t.temp + [g]);
    LoopTempRel(v, g, AllFree(e.inits), PassFree(e) - NameSet(e.names), env, cenv, s, t);
    AllSimulated(nm, e.inits, start[0].args, env, cenv1, s, t1, fuel);
    var r, q := EvalAll(nm, e.inits, env, s, fuel), EvalOperands(nm, start[0].args, cenv1, t1, fuel);
    SameKinds(r, q, s, t1);
    if r.Val? {
      TempsGrow(s, t1, r.state, q.state);
      TempStays(cenv1[v], t1, q.state, g);
      IterationsSimulated(nm, e, lam, v, g, r.value, q.value, env, cenv1, r.state, q.state, fuel);
      LaterTwice(s, t, s, t1, r.state, q.state);
      OutLater(Eval(nm, e, env, s, fuel), EvalCore(nm, c, cenv, t, fuel), s, t, r.state, q.state);
    }
    Stops(Eval(nm, e, env, s, fuel), EvalCore(nm, c, cenv, t, fuel), s, t);
  }

  lemma DoNames(e: Expr, env: Env, cenv: CoreEnv)
    requires e.Do? && EnvRel(env, cenv, Free(e))
    ensures EnvRel(env, cenv, AllFree(e.inits)) && EnvRel(env, cenv, PassFree(e) - NameSet(e.names))
  {
    hide EnvRel;
    FewerNames(env, cenv, Free(e), AllFree(e.inits));
    FewerNames(env, cenv, Free(e), PassFree(e) - NameSet(e.names));
  }

  lemma DoParts(v: Var, e: Expr, lam: Core, start: seq<Core>)
    requires e.Do? && DoDesugars(v, e.names, e.inits, e.steps, e.test, e.exits, e.body, lam, start)
    ensures ProcedureDesugars(v, e.names, e.steps, e.test, e.exits, e.body, lam)
    ensures |start| == 1 && start[0].CApp? && start[0].fn == CRef(v) && AllDesugar(e.inits, start[0].args)
  {
    hide AllDesugar, ProcedureDesugars;
    assert CallDesugars(v, e.inits, start[0]);
  }

  /** The commands of a pass, and the call that starts the next one. */
  lemma PassParts(v: Var, e: Expr, lam: Core)
    requires e.Do? && ProcedureDesugars(v, e.names, e.steps, e.test, e.exits, e.body, lam)
    requires lam.CLambda? && |lam.body| == 1 && lam.body[0].CIf?
    ensures lam.body[0].no.CBegin?
    ensures var cs := lam.body[0].no.body; |cs| == |e.body| + 1 && AllDesugar(e.body, cs[..|e.body|])
    ensures var call := lam.body[0].no.body[|e.body|];
      call.CApp? && call.fn == CRef(v) && AllDesugar(e.steps, call.args)
  {
    hide AllDesugar;
    var cs := lam.body[0].no.body;
    assert DoIterates(v, e.steps, e.body, cs);
    assert CallDesugars(v, e.steps, cs[|e.body|]);
  }

  lemma IsProcedure(v: Var, e: Expr, lam: Core)
    requires e.Do? && ProcedureDesugars(v, e.names, e.steps, e.test, e.exits, e.body, lam)
    ensures lam.CLambda? && lam.params == Users(e.names) && lam.rest == None && |lam.body| == 1 && lam.body[0].CIf?
  {
  }

  lemma TempsGrow(s: Store, t: CoreStore, s1: Store, t1: CoreStore)
    requires Later(s, t, s1, t1)
    ensures t.temp <= t1.temp
  {
  }

  /** The temporary that holds a loop's procedure. */
  lemma LoopTempRel(
    v: Var, g: CoreVal, some: set<string>, more: set<string>, env: Env, cenv: CoreEnv, s: Store, t: CoreStore)
    requires v.Temp? && EnvRel(env, cenv, some) && EnvRel(env, cenv, more) && StoreRel(s, t)
    ensures var cenv1, t1 := LoopEnv(v, cenv, t), t.(temp := t.temp + [g]);
      && EnvRel(env, cenv1, some) && EnvRel(env, cenv1, more) && StoreRel(s, t1) && Later(s, t, s, t1)
      && v in cenv1 && cenv1[v].InTemp? && Read(cenv1[v], t1) == Some(g)
  {
    hide RelV;
  }

  /** The loop's procedure, applied to the variables' values. */
  lemma {:induction false} IterationsSimulated(
    nm: Numerics, e: Expr, lam: Core, v: Var, g: CoreVal, vs: seq<Val_>, ws: seq<CoreVal>,
    env: Env, cenv: CoreEnv, s: Store, t: CoreStore, fuel: nat)
    requires e.Do? && Shaped(e) && Uncaptured(e) && ProcedureDesugars(v, e.names, e.steps, e.test, e.exits, e.body, lam)
    requires RelVs(vs, ws) && StoreRel(s, t) && EnvRel(env, cenv, PassFree(e) - NameSet(e.names))
    requires lam.CLambda? && g == VProc(CoreProc(lam.params, lam.rest, lam.body, cenv))
    requires v.Temp? && v in cenv && cenv[v].InTemp? && Read(cenv[v], t) == Some(g)
    ensures OutRel(EvalDo(nm, e, vs, env, s, fuel), ApplyCore(nm, g, ws, t, fuel), s, t)
    decreases fuel, 0, 0
  {
    hide EnvRel, StoreRel, RelV, RelVs, Later, OutRel, EvalPass, EvalCores, EvalCore, PassFree, NameSet, ProcedureDesugars,
      BindVars, BindNames, TempsKept, Shaped, Uncaptured, Read, Cells;
    IsProcedure(v, e, lam);
    RelAt(vs, ws);
    if fuel > 0 && |vs| == |e.names| {
      BindingRel(e.names, vs, ws, env, cenv, s, t, PassFree(e));
      AllBound(lam.params, ws, cenv, t);
      var env1, s1 := BindNames(e.names, |s|, env), s + Cells(vs);
      var gr := BindVars(Users(e.names), ws, cenv, t);
      KeptTemp(v, g, cenv, gr.env, t, gr.store);
      OneCoreIs(nm, lam.body, gr.env, gr.store, fuel - 1);
      PassSimulated(nm, e, lam, v, g, env, cenv, env1, gr.env, s1, gr.store, fuel - 1);
      OutLater(EvalDo(nm, e, vs, env, s, fuel), ApplyCore(nm, g, ws, t, fuel), s, t, s1, gr.store);
    }
    Stops(EvalDo(nm, e, vs, env, s, fuel), ApplyCore(nm, g, ws, t, fuel), s, t);
  }

  lemma KeptTemp(v: Var, g: CoreVal, cenv: CoreEnv, cenv1: CoreEnv, t: CoreStore, t1: CoreStore)
    requires v.Temp? && v in cenv && cenv[v].InTemp? && Read(cenv[v], t) == Some(g) && TempsKept(cenv, cenv1) && t1.temp == t.temp
    ensures v in cenv1 && cenv1[v] == cenv[v] && Read(cenv1[v], t1) == Some(g)
  {
  }

  /** One pass: `env`, `cenv` are outside the loop's variables, `env1`, `cenv1` inside. */
  lemma {:induction false} PassSimulated(
    nm: Numerics, e: Expr, lam: Core, v: Var, g: CoreVal, env: Env, cenv: CoreEnv, env1: Env, cenv1: CoreEnv,
    s: Store, t: CoreStore, fuel: nat)
    requires e.Do? && Shaped(e) && Uncaptured(e) && ProcedureDesugars(v, e.names, e.steps, e.test, e.exits, e.body, lam)
    requires StoreRel(s, t) && EnvRel(env, cenv, PassFree(e) - NameSet(e.names)) && EnvRel(env1, cenv1, PassFree(e))
    requires lam.CLambda? && g == VProc(CoreProc(lam.params, lam.rest, lam.body, cenv))
    requires |lam.body| == 1 && lam.body[0].CIf?
    requires v.Temp? && v in cenv && v in cenv1 && cenv1[v] == cenv[v] && cenv[v].InTemp? && Read(cenv[v], t) == Some(g)
    ensures OutRel(EvalPass(nm, e, env, env1, s, fuel), EvalCore(nm, lam.body[0], cenv1, t, fuel), s, t)
    decreases fuel, Size(e), 0
  {
    hide EnvRel, StoreRel, RelV, RelVs, Later, OutRel, Eval, EvalBody, EvalCommands, EvalAll, EvalDo, EvalCores, Desugars,
      SequenceDesugars, DoIterates, AllShaped, AllUncaptured, AllFree, Free, IsTrue, NameSet, Read, PassFree, HiddenStepsStay, Users;
    var cif := lam.body[0];
    PassNames(e, env1, cenv1);
    Simulates(nm, e.test, cif.test, env1, cenv1, s, t, fuel);
    var r, q := Eval(nm, e.test, env1, s, fuel), EvalCore(nm, cif.test, cenv1, t, fuel);
    SameKind(r, q, s, t);
    if r.Val? {
      TempsGrow(s, t, r.state, q.state);
      TempStays(cenv[v], t, q.state, g);
      if IsTrue(r.value) {
        SequenceSimulated(nm, e.exits, cif.yes, env1, cenv1, r.state, q.state, fuel);
      } else {
        AgainSimulated(nm, e, lam, v, g, env, cenv, env1, cenv1, r.state, q.state, fuel);
        BeginRuns(nm, cif.no.body, cenv1, q.state, fuel);
      }
      OutLater(EvalPass(nm, e, env, env1, s, fuel), EvalCore(nm, cif, cenv1, t, fuel), s, t, r.state, q.state);
    }
    Stops(EvalPass(nm, e, env, env1, s, fuel), EvalCore(nm, cif, cenv1, t, fuel), s, t);
  }

  lemma PassNames(e: Expr, env: Env, cenv: CoreEnv)
    requires e.Do? && EnvRel(env, cenv, PassFree(e))
    ensures EnvRel(env, cenv, AllFree(e.steps)) && EnvRel(env, cenv, Free(e.test))
    ensures EnvRel(env, cenv, AllFree(e.exits)) && EnvRel(env, cenv, AllFree(e.body))
  {
  }

  /** The rest of a pass whose test is false. */
  function EvalAgain(nm: Numerics, e: Expr, env: Env, env1: Env, s: Store, fuel: nat): Result_
    requires e.Do?
  {
    match EvalCommands(nm, e.body, env1, s, fuel)
    case Val(_, s2) =>
      (match EvalAll(nm, e.steps, env1, s2, fuel)
       case Val(vs1, s3) => EvalDo(nm, e, vs1, env, s3, fuel)
       case Failed => Failed
       case OutOfFuel => OutOfFuel
       case Outside => Outside)
    case r => r
  }

  lemma {:induction false} AgainSimulated(
    nm: Numerics, e: Expr, lam: Core, v: Var, g: CoreVal, env: Env, cenv: CoreEnv, env1: Env, cenv1: CoreEnv,
    s: Store, t: CoreStore, fuel: nat)
    requires e.Do? && Shaped(e) && Uncaptured(e) && ProcedureDesugars(v, e.names, e.steps, e.test, e.exits, e.body, lam)
    requires StoreRel(s, t) && EnvRel(env, cenv, PassFree(e) - NameSet(e.names)) && EnvRel(env1, cenv1, PassFree(e))
    requires lam.CLambda? && g == VProc(CoreProc(lam.params, lam.rest, lam.body, cenv))
    requires |lam.body| == 1 && lam.body[0].CIf? && lam.body[0].no.CBegin?
    requires v.Temp? && v in cenv && v in cenv1 && cenv1[v] == cenv[v] && cenv[v].InTemp? && Read(cenv[v], t) == Some(g)
    ensures OutRel(EvalAgain(nm, e, env, env1, s, fuel), EvalCores(nm, lam.body[0].no.body, cenv1, t, fuel), s, t)
    decreases fuel, AllSize(e.body) + AllSize(e.steps) + 5, 0
  {
    hide EnvRel, StoreRel, RelV, RelVs, Later, OutRel, OutsRel, Eval, EvalCommands, EvalAll, EvalDo, EvalCores, EvalCore, EvalOperands,
      ApplyCore, Desugars, AllDesugar, SequenceDesugars, AllShaped, AllUncaptured, AllFree, Free, NameSet, Read, PassFree, HiddenStepsStay, Users;
    PassNames(e, env1, cenv1);
    PassParts(v, e, lam);
    var cs := lam.body[0].no.body;
    var n := |e.body|;
    var call := cs[n];
    assert cs == cs[..n] + [call];
    var t1 := CommandsSimulated(nm, e.body, cs[..n], call, env1, cenv1, s, t, fuel);
    var r := EvalCommands(nm, e.body, env1, s, fuel);
    if r.Val? {
      TempsGrow(s, t, r.state, t1);
      TempStays(cenv[v], t, t1, g);
      RefRuns(nm, v, g, cenv1, t1, fuel);
      ComputedCallRuns(nm, call, cenv1, t1, fuel);
      AllSimulated(nm, e.steps, call.args, env1, cenv1, r.state, t1, fuel);
      var rs, qs := EvalAll(nm, e.steps, env1, r.state, fuel), EvalOperands(nm, call.args, cenv1, t1, fuel);
      SameKinds(rs, qs, r.state, t1);
      if rs.Val? {
        TempsGrow(r.state, t1, rs.state, qs.state);
        TempStays(cenv[v], t1, qs.state, g);
        IterationsSimulated(nm, e, lam, v, g, rs.value, qs.value, env, cenv, rs.state, qs.state, fuel);
        LaterTwice(s, t, r.state, t1, rs.state, qs.state);
        OutLater(EvalAgain(nm, e, env, env1, s, fuel), EvalCores(nm, cs, cenv1, t, fuel), s, t, rs.state, qs.state);
      }
    }
    Stops(EvalAgain(nm, e, env, env1, s, fuel), EvalCores(nm, cs, cenv1, t, fuel), s, t);
  }

  lemma RefRuns(nm: Numerics, v: Var, g: CoreVal, cenv: CoreEnv, t: CoreStore, fuel: nat)
    requires v in cenv && Read(cenv[v], t) == Some(g)
    ensures EvalCore(nm, CRef(v), cenv, t, fuel) == Val(g, t)
  {
  }

  /** Commands before the last expression of a sequence. */
  lemma {:induction false} CommandsSimulated(
    nm: Numerics, es: seq<Expr>, cs: seq<Core>, last: Core, env: Env, cenv: CoreEnv, s: Store, t: CoreStore, fuel: nat)
    returns (t1: CoreStore)
    requires AllShaped(es) && AllUncaptured(es) && AllDesugar(es, cs) && EnvRel(env, cenv, AllFree(es)) && StoreRel(s, t)
    ensures var r, q := EvalCommands(nm, es, env, s, fuel), EvalCores(nm, cs + [last], cenv, t, fuel);
      && (r.Failed? ==> q.Failed?) && (r.OutOfFuel? ==> q.OutOfFuel?)
      && (r.Val? ==> q == EvalCore(nm, last, cenv, t1, fuel) && StoreRel(r.state, t1) && Later(s, t, r.state, t1))
    decreases fuel, AllSize(es), 0
  {
    hide Shaped, Uncaptured, Desugars, EnvRel, StoreRel, RelV, Eval, EvalCore, Later, Free, OutRel, IsTrue;
    t1 := t;
    if es == [] {
      assert cs + [last] == [last];
      LaterSame(s, t);
    } else {
      FewerNames(env, cenv, AllFree(es), Free(es[0]));
      FewerNames(env, cenv, AllFree(es), AllFree(es[1..]));
      Simulates(nm, es[0], cs[0], env, cenv, s, t, fuel);
      var r, q := Eval(nm, es[0], env, s, fuel), EvalCore(nm, cs[0], cenv, t, fuel);
      SameKind(r, q, s, t);
      assert (cs + [last])[1..] == cs[1..] + [last];
      if r.Val? {
        t1 := CommandsSimulated(nm, es[1..], cs[1..], last, env, cenv, r.state, q.state, fuel);
        var rs := EvalCommands(nm, es[1..], env, r.state, fuel);
        if rs.Val? {
          LaterTwice(s, t, r.state, q.state, rs.state, t1);
        }
      }
    }
  }

  // ---- quasiquote ----

  predicate ListOpsFree(cenv: CoreEnv) {
    User("cons") !in cenv && User("append") !in cenv && User("list->vector") !in cenv
  }

  lemma {:induction false} QuasiSimulated(nm: Numerics, e: Expr, c: Core, env: Env, cenv: CoreEnv, s: Store, t: CoreStore, fuel: nat)
    requires e.Quasi? && Shaped(e) && Uncaptured(e) && Desugars(e, c) && EnvRel(env, cenv, Free(e)) && StoreRel(s, t)
    ensures OutRel(Eval(nm, e, env, s, fuel), EvalCore(nm, c, cenv, t, fuel), s, t)
    decreases fuel, Size(e), 0
  {
    hide EnvRel, StoreRel, OutRel, EvalTmpl, EvalCore, TmplShaped, TmplUncaptured, TmplDesugars, TmplFree;
    FewerNames(env, cenv, Free(e), TmplFree(e.template));
    if !("cons" in env || "append" in env || "list->vector" in env) {
      NotBound("cons", env, cenv, Free(e));
      NotBound("append", env, cenv, Free(e));
      NotBound("list->vector", env, cenv, Free(e));
      TmplSimulated(nm, e.template, c, env, cenv, s, t, fuel);
    }
    Stops(Eval(nm, e, env, s, fuel), EvalCore(nm, c, cenv, t, fuel), s, t);
  }

  lemma {:induction false} TmplSimulated(nm: Numerics, x: Tmpl, c: Core, env: Env, cenv: CoreEnv, s: Store, t: CoreStore, fuel: nat)
    requires TmplShaped(x) && TmplUncaptured(x) && TmplDesugars(x, c) && EnvRel(env, cenv, TmplFree(x)) && StoreRel(s, t) && ListOpsFree(cenv)
    ensures OutRel(EvalTmpl(nm, x, env, s, fuel), EvalCore(nm, c, cenv, t, fuel), s, t)
    decreases fuel, TmplSize(x), 0
  {
    hide EnvRel, StoreRel, OutRel, Eval, EvalElems, EvalCore, Shaped, Uncaptured, Desugars, Free, AllElemsShaped, AllElemsUncaptured, ElemsDesugar, ElemsFree, ListOpsFree, ReadsAsQuote;
    match x
    case Constant(d) =>
      QuoteRuns(nm, d, cenv, t, fuel);
      DatumOut(d, s, t);
    case Unquoted(_, e) => Simulates(nm, e, c, env, cenv, s, t, fuel);
    case Listed(elems, None) =>
      FewerNames(env, cenv, ElemsFree(elems), ElemsFree(elems) + TailFree(None));
      ElemsSimulated(nm, elems, None, CQuote(Proper([])), c, env, cenv, s, t, fuel);
    case Listed(elems, Some(tail)) =>
      var r :| TmplDesugars(tail, r) && ElemsDesugar(elems, r, c);
      ElemsSimulated(nm, elems, Some(tail), r, c, env, cenv, s, t, fuel);
    case Vectored(elems) => VectoredSimulated(nm, elems, c, env, cenv, s, t, fuel);
  }

  lemma QuoteRuns(nm: Numerics, d: SExpr, cenv: CoreEnv, t: CoreStore, fuel: nat)
    ensures EvalCore(nm, CQuote(d), cenv, t, fuel) == Val(FromDatum(d), t)
  {
  }

  lemma DatumOut(d: SExpr, s: Store, t: CoreStore)
    requires StoreRel(s, t)
    ensures OutRel(Val(FromDatum(d), s), Val(FromDatum(d), t), s, t)
  {
    hide RelV, StoreRel, FromDatum;
    DatumRel(d);
    ValueOut(FromDatum(d), FromDatum(d), s, t);
  }

  function TailFree(tail: Option<Tmpl>): set<string> {
    if tail.None? then {} else TmplFree(tail.value)
  }

  ghost predicate TailDesugars(tail: Option<Tmpl>, rest: Core) {
    if tail.None? then rest == CQuote(Proper([])) else TmplShaped(tail.value) && TmplUncaptured(tail.value) && TmplDesugars(tail.value, rest)
  }

  lemma {:induction false} VectoredSimulated(
    nm: Numerics, xs: seq<Elem>, c: Core, env: Env, cenv: CoreEnv, s: Store, t: CoreStore, fuel: nat)
    requires AllElemsShaped(xs) && AllElemsUncaptured(xs) && IsCall("list->vector", 1, c) && ElemsDesugar(xs, CQuote(Proper([])), c.args[0])
    requires EnvRel(env, cenv, ElemsFree(xs)) && StoreRel(s, t) && ListOpsFree(cenv)
    ensures OutRel(EvalTmpl(nm, Vectored(xs), env, s, fuel), EvalCore(nm, c, cenv, t, fuel), s, t)
    decreases fuel, ElemsSize(xs) + 2, 0
  {
    hide EnvRel, StoreRel, RelV, Later, OutRel, EvalElems, EvalCore, AllElemsShaped, AllElemsUncaptured, ElemsDesugar, ElemsFree, ListItems, IsTrue;
    FewerNames(env, cenv, ElemsFree(xs), ElemsFree(xs) + TailFree(None));
    ElemsSimulated(nm, xs, None, CQuote(Proper([])), c.args[0], env, cenv, s, t, fuel);
    var r, q := EvalElems(nm, xs, None, env, s, fuel), EvalCore(nm, c.args[0], cenv, t, fuel);
    SameKind(r, q, s, t);
    UnaryRuns(nm, "list->vector", c, cenv, t, fuel);
    if r.Val? {
      RelOne(r.value, q.value);
      PrimCallRel(nm, "list->vector", [r.value], [q.value], r.state, q.state);
      OutLater(EvalTmpl(nm, Vectored(xs), env, s, fuel), EvalCore(nm, c, cenv, t, fuel), s, t, r.state, q.state);
    }
    Stops(EvalTmpl(nm, Vectored(xs), env, s, fuel), EvalCore(nm, c, cenv, t, fuel), s, t);
  }

  lemma RelOne(v: Val_, w: CoreVal)
    requires RelV(v, w)
    ensures RelVs([v], [w])
  {
    hide RelV;
  }

  lemma RelTwo(v: Val_, w: CoreVal, v1: Val_, w1: CoreVal)
    requires RelV(v, w) && RelV(v1, w1)
    ensures RelVs([v, v1], [w, w1])
  {
    hide RelV;
    RelOne(v1, w1);
    assert [v, v1][1..] == [v1] && [w, w1][1..] == [w1];
  }

  lemma UnaryRuns(nm: Numerics, name: string, c: Core, cenv: CoreEnv, t: CoreStore, fuel: nat)
    requires IsCall(name, 1, c) && IsPrimitive(nm, name) && User(name) !in cenv
    ensures var q, q1 := EvalCore(nm, c.args[0], cenv, t, fuel), EvalCore(nm, c, cenv, t, fuel);
      && (q.Failed? ==> q1.Failed?) && (q.OutOfFuel? ==> q1.OutOfFuel?)
      && (q.Val? ==> q1 == ApplyCorePrim(nm, name, [q.value], q.state))
  {
    hide EvalOperands, ApplyCorePrim, IsPrimitive;
    assert c.args == [c.args[0]];
    PrimRefRuns(nm, name, cenv, t, fuel);
    ComputedCallRuns(nm, c, cenv, t, fuel);
    OneOperand(nm, c.args[0], cenv, t, fuel);
  }

  lemma BinaryRuns(nm: Numerics, name: string, c: Core, cenv: CoreEnv, t: CoreStore, fuel: nat)
    requires IsCall(name, 2, c) && IsPrimitive(nm, name) && User(name) !in cenv
    ensures var q, q2 := EvalCore(nm, c.args[0], cenv, t, fuel), EvalCore(nm, c, cenv, t, fuel);
      && (q.Failed? ==> q2.Failed?) && (q.OutOfFuel? ==> q2.OutOfFuel?)
      && (q.Val? ==> var q1 := EvalCore(nm, c.args[1], cenv, q.state, fuel);
        && (q1.Failed? ==> q2.Failed?) && (q1.OutOfFuel? ==> q2.OutOfFuel?)
        && (q1.Val? ==> q2 == ApplyCorePrim(nm, name, [q.value, q1.value], q1.state)))
  {
    hide EvalOperands, ApplyCorePrim, IsPrimitive;
    assert c.args == [c.args[0], c.args[1]];
    PrimRefRuns(nm, name, cenv, t, fuel);
    ComputedCallRuns(nm, c, cenv, t, fuel);
    TwoOperands(nm, c.args[0], c.args[1], cenv, t, fuel);
  }

  lemma PrimRefRuns(nm: Numerics, name: string, cenv: CoreEnv, t: CoreStore, fuel: nat)
    requires IsPrimitive(nm, name) && User(name) !in cenv
    ensures EvalCore(nm, CRef(User(name)), cenv, t, fuel) == Val(VPrim(name), t)
  {
  }

  /** The elements of a template, consed and appended onto its tail. */
  lemma {:induction false} ElemsSimulated(
    nm: Numerics, xs: seq<Elem>, tail: Option<Tmpl>, rest: Core, c: Core,
    env: Env, cenv: CoreEnv, s: Store, t: CoreStore, fuel: nat)
    requires AllElemsShaped(xs) && AllElemsUncaptured(xs) && ElemsDesugar(xs, rest, c) && TailDesugars(tail, rest)
    requires EnvRel(env, cenv, ElemsFree(xs) + TailFree(tail)) && StoreRel(s, t) && ListOpsFree(cenv)
    ensures OutRel(EvalElems(nm, xs, tail, env, s, fuel), EvalCore(nm, c, cenv, t, fuel), s, t)
    decreases fuel, ElemsSize(xs) + TailSize(tail) + 1, 0
  {
    hide EnvRel, StoreRel, RelV, Later, OutRel, EvalElem, EvalTmpl, EvalCore, ElemShaped, ElemUncaptured, TmplShaped, TmplUncaptured, TmplDesugars, ElemFree, TmplFree,
      ListOpsFree, ElemSize, IsTrue, ElemDesugars, Append;
    var free := ElemsFree(xs) + TailFree(tail);
    if xs == [] {
      FewerNames(env, cenv, free, TailFree(tail));
      if tail.None? {
        QuoteRuns(nm, Proper([]), cenv, t, fuel);
        DatumOut(Proper([]), s, t);
        EmptyList();
      } else {
        TmplSimulated(nm, tail.value, c, env, cenv, s, t, fuel);
      }
    } else {
      var x := xs[0];
      FewerNames(env, cenv, free, ElemFree(x));
      FewerNames(env, cenv, free, ElemsFree(xs[1..]) + TailFree(tail));
      ElemIsCall(nm, x, c, cenv);
      var name := if x.One? then "cons" else "append";
      ElemSimulated(nm, x, c, env, cenv, s, t, fuel);
      var r, q := EvalElem(nm, x, env, s, fuel), EvalCore(nm, c.args[0], cenv, t, fuel);
      SameKind(r, q, s, t);
      BinaryRuns(nm, name, c, cenv, t, fuel);
      if r.Val? {
        ElemsSimulated(nm, xs[1..], tail, rest, c.args[1], env, cenv, r.state, q.state, fuel);
        var r1, q1 := EvalElems(nm, xs[1..], tail, env, r.state, fuel), EvalCore(nm, c.args[1], cenv, q.state, fuel);
        SameKind(r1, q1, r.state, q.state);
        if r1.Val? {
          RelTwo(r.value, q.value, r1.value, q1.value);
          PrimCallRel(nm, name, [r.value, r1.value], [q.value, q1.value], r1.state, q1.state);
          Joins(nm, x, r.value, r1.value, r1.state);
          LaterTwice(s, t, r.state, q.state, r1.state, q1.state);
          OutLater(EvalElems(nm, xs, tail, env, s, fuel), EvalCore(nm, c, cenv, t, fuel), s, t, r1.state, q1.state);
        }
      }
      Stops(EvalElems(nm, xs, tail, env, s, fuel), EvalCore(nm, c, cenv, t, fuel), s, t);
    }
  }

  lemma EmptyList()
    ensures FromDatum<Proc>(Proper([])) == VNil
  {
  }

  lemma ElemIsCall(nm: Numerics, x: Elem, c: Core, cenv: CoreEnv)
    requires ElemDesugars(x, c) && ListOpsFree(cenv)
    ensures var name := if x.One? then "cons" else "append";
      IsCall(name, 2, c) && IsPrimitive(nm, name) && User(name) !in cenv
  {
  }

  /** Putting an element in front of a list is a call of `cons` or `append`. */
  lemma Joins(nm: Numerics, x: Elem, v: Val_, rest: Val_, s: Store)
    ensures x.One? ==> ApplyPrim(nm, "cons", [v, rest], s) == Val(VPair(v, rest), s)
    ensures x.Splice? && Append(v, rest).None? ==> ApplyPrim(nm, "append", [v, rest], s) == Failed
    ensures x.Splice? && Append(v, rest).Some? ==> ApplyPrim(nm, "append", [v, rest], s) == Val(Append(v, rest).value, s)
  {
    hide Append;
  }

  lemma {:induction false} ElemSimulated(nm: Numerics, x: Elem, c: Core, env: Env, cenv: CoreEnv, s: Store, t: CoreStore, fuel: nat)
    requires ElemShaped(x) && ElemUncaptured(x) && ElemDesugars(x, c) && c.CApp? && |c.args| == 2
    requires EnvRel(env, cenv, ElemFree(x)) && StoreRel(s, t) && ListOpsFree(cenv)
    ensures OutRel(EvalElem(nm, x, env, s, fuel), EvalCore(nm, c.args[0], cenv, t, fuel), s, t)
    decreases fuel, ElemSize(x), 0
  {
    hide EnvRel, StoreRel, OutRel, Eval, EvalTmpl, EvalCore, Shaped, Uncaptured, Desugars, Free, TmplShaped, TmplUncaptured, TmplDesugars, TmplFree, ListOpsFree;
    match x
    case One(y) => TmplSimulated(nm, y, c.args[0], env, cenv, s, t, fuel);
    case Splice(_, e) => Simulates(nm, e, c.args[0], env, cenv, s, t, fuel);
  }
}
