/** Single steps of core programs: temporaries, argument binding, assignments in order. */
module CoreSteps {
  import opened Wrappers
  import opened Programs
  import opened Desugaring
  import opened Values
  import opened SourceMeaning
  import opened CoreMeaning
  import opened Relation

  // ---- Outcomes ----

  lemma ConsRel(v: Val_, w: CoreVal, vs: seq<Val_>, ws: seq<CoreVal>)
    requires RelV(v, w) && RelVs(vs, ws)
    ensures RelVs([v] + vs, [w] + ws)
  {
    hide RelV;
    assert ([v] + vs)[1..] == vs && ([w] + ws)[1..] == ws;
  }

  lemma FewerNames(env: Env, cenv: CoreEnv, names: set<string>, fewer: set<string>)
    requires EnvRel(env, cenv, names) && fewer <= names
    ensures EnvRel(env, cenv, fewer)
  {
  }

  lemma VoidOut(s: Store, t: CoreStore)
    requires StoreRel(s, t)
    ensures OutRel(Val(VVoid, s), Val(VVoid, t), s, t)
  {
    ValueOut(VVoid, VVoid, s, t);
  }

  /** Reading off related outcomes. */
  lemma SameKind(r: Result_, q: CoreResult, s: Store, t: CoreStore)
    requires OutRel(r, q, s, t)
    ensures r.Val? ==> q.Val? && RelV(r.value, q.value) && StoreRel(r.state, q.state) && Later(s, t, r.state, q.state)
    ensures r.Val? ==> (IsTrue(r.value) <==> IsTrue(q.value))
    ensures r.Failed? ==> q.Failed?
    ensures r.OutOfFuel? ==> q.OutOfFuel?
  {
    hide Later, StoreRel;
    if r.Val? {
      KindRel(r.value, q.value);
    }
  }

  lemma SameKinds(r: Results, q: CoreResults, s: Store, t: CoreStore)
    requires OutsRel(r, q, s, t)
    ensures r.Val? ==> q.Val? && RelVs(r.value, q.value) && StoreRel(r.state, q.state) && Later(s, t, r.state, q.state)
    ensures r.Failed? ==> q.Failed?
    ensures r.OutOfFuel? ==> q.OutOfFuel?
  {
    hide Later, StoreRel, RelVs;
  }

  /** Runs that stop are related whatever the states. */
  lemma Stops(r: Result_, q: CoreResult, s: Store, t: CoreStore)
    ensures r.Outside? || (r.Failed? && q.Failed?) || (r.OutOfFuel? && q.OutOfFuel?) ==> OutRel(r, q, s, t)
  {
  }

  // ---- Sequences ----

  lemma EmptyBody(nm: Numerics, cenv: CoreEnv, t: CoreStore, fuel: nat)
    ensures EvalCore(nm, EMPTY_BEGIN, cenv, t, fuel) == Val(VVoid, t)
  {
    assert EvalCores(nm, [], cenv, t, fuel) == Val(VVoid, t);
  }

  lemma OneCore(nm: Numerics, c: Core, cenv: CoreEnv, t: CoreStore, fuel: nat)
    ensures EvalCores(nm, [c], cenv, t, fuel) == EvalCore(nm, c, cenv, t, fuel)
  {
    hide EvalCore;
  }

  lemma OneOperand(nm: Numerics, c: Core, cenv: CoreEnv, t: CoreStore, fuel: nat)
    ensures var q, qs := EvalCore(nm, c, cenv, t, fuel), EvalOperands(nm, [c], cenv, t, fuel);
      && (q.Val? ==> qs == Val([q.value], q.state)) && (q.Failed? ==> qs.Failed?)
      && (q.OutOfFuel? ==> qs.OutOfFuel?) && (q.Outside? ==> qs.Outside?)
  {
    hide EvalCore;
    assert [c][1..] == [];
    var q := EvalCore(nm, c, cenv, t, fuel);
    if q.Val? {
      assert EvalOperands(nm, [], cenv, q.state, fuel) == Val([], q.state);
      assert [q.value] + [] == [q.value];
    }
  }

  lemma TwoOperands(nm: Numerics, c: Core, d: Core, cenv: CoreEnv, t: CoreStore, fuel: nat)
    ensures var q, qs := EvalCore(nm, c, cenv, t, fuel), EvalOperands(nm, [c, d], cenv, t, fuel);
      && (q.Failed? ==> qs.Failed?) && (q.OutOfFuel? ==> qs.OutOfFuel?) && (q.Outside? ==> qs.Outside?)
      && (q.Val? ==> var q1 := EvalCore(nm, d, cenv, q.state, fuel);
        && (q1.Failed? ==> qs.Failed?) && (q1.OutOfFuel? ==> qs.OutOfFuel?) && (q1.Outside? ==> qs.Outside?)
        && (q1.Val? ==> qs == Val([q.value, q1.value], q1.state)))
  {
    hide EvalCore;
    assert [c, d][1..] == [d];
    var q := EvalCore(nm, c, cenv, t, fuel);
    if q.Val? {
      OneOperand(nm, d, cenv, q.state, fuel);
      var q1 := EvalCore(nm, d, cenv, q.state, fuel);
      if q1.Val? {
        assert [q.value] + [q1.value] == [q.value, q1.value];
      }
    }
  }

  // ---- Temporaries ----

  lemma BindingOne(v: Var, x: CoreVal, cenv: CoreEnv, t: CoreStore)
    ensures BindCoreArgs([v], None, [x], cenv, t) == Some(BindOne(v, x, cenv, t))
  {
    hide BindOne;
    var fr := BindOne(v, x, cenv, t);
    assert [x][..1] == [x] && [v][1..] == [] && [x][1..] == [];
    assert BindVars([], [], fr.env, fr.store) == fr;
    assert BindVars([v], [x], cenv, t) == fr;
  }

  /** `((lambda (x) body) init)` */
  lemma OneBindingRuns(nm: Numerics, v: Var, c: Core, cenv: CoreEnv, t: CoreStore, fuel: nat)
    requires c.CApp? && c.fn.CLambda? && c.fn.params == [v] && c.fn.rest == None && |c.fn.body| == 1 && |c.args| == 1
    ensures var q := EvalCore(nm, c.args[0], cenv, t, fuel);
      && (!q.Val? ==> EvalCore(nm, c, cenv, t, fuel) == q)
      && (q.Val? ==> var fr := BindOne(v, q.value, cenv, q.state);
        EvalCore(nm, c, cenv, t, fuel) == EvalCore(nm, c.fn.body[0], fr.env, fr.store, fuel))
  {
    hide BindOne, EvalOperands, EvalCores, BindCoreArgs;
    var a, b := c.args[0], c.fn.body[0];
    assert c == CApp(CLambda([v], None, [b]), [a]);
    OneOperand(nm, a, cenv, t, fuel);
    var q := EvalCore(nm, a, cenv, t, fuel);
    if q.Val? {
      BindingOne(v, q.value, cenv, q.state);
      var fr := BindOne(v, q.value, cenv, q.state);
      OneCore(nm, b, fr.env, fr.store, fuel);
    }
  }

  lemma OneParam(h: Hint, c: Core)
    requires BindsTemp(h, c)
    ensures c.fn.params == [c.fn.params[0]]
  {
  }

  lemma TempRel(names: set<string>, v: Var, x: CoreVal, env: Env, cenv: CoreEnv, s: Store, t: CoreStore)
    requires v.Temp? && EnvRel(env, cenv, names) && StoreRel(s, t)
    ensures var fr := BindOne(v, x, cenv, t);
      && EnvRel(env, fr.env, names) && StoreRel(s, fr.store) && Later(s, t, s, fr.store)
      && v in fr.env && Read(fr.env[v], fr.store) == Some(x) && TempsAre(cenv, fr.env, v)
  {
    hide RelV;
  }

  /** Binding `v` leaves the other temporaries alone. */
  ghost predicate TempsAre(cenv: CoreEnv, cenv': CoreEnv, v: Var) {
    forall u :: u in cenv && u != v ==> u in cenv' && cenv'[u] == cenv[u]
  }

  /** One step of `or`: the value decides. */
  lemma OrStepRuns(nm: Numerics, c: Core, cenv: CoreEnv, t: CoreStore, fuel: nat)
    requires IsOrStep(c)
    ensures var q := EvalCore(nm, OrInit(c), cenv, t, fuel);
      && (!q.Val? ==> EvalCore(nm, c, cenv, t, fuel) == q)
      && (q.Val? ==> var fr := BindOne(c.fn.params[0], q.value, cenv, q.state);
        EvalCore(nm, c, cenv, t, fuel) ==
          if IsTrue(q.value) then Val(q.value, fr.store) else EvalCore(nm, OrRest(c), fr.env, fr.store, fuel))
  {
    hide IsTrue;
    OneParam(OrTemp, c);
    OneBindingRuns(nm, c.fn.params[0], c, cenv, t, fuel);
    var q := EvalCore(nm, OrInit(c), cenv, t, fuel);
    if q.Val? {
      var v := c.fn.params[0];
      var fr := BindOne(v, q.value, cenv, q.state);
      assert EvalCore(nm, CRef(v), fr.env, fr.store, fuel) == Val(q.value, fr.store);
    }
  }
}
