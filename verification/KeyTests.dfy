/** How the tests that `case` expands to run: the key is compared with one datum after another. */
module KeyTests {
  import opened Wrappers
  import opened SExprs
  import opened Programs
  import opened Desugaring
  import opened Values
  import opened SourceMeaning
  import opened CoreMeaning
  import opened Relation
  import opened CoreSteps

  /** `(eqv? key 'd)`, when `eqv?` is the primitive. */
  lemma EqvRuns(nm: Numerics, key: Var, d: SExpr, k: CoreVal, cenv: CoreEnv, t: CoreStore, fuel: nat)
    requires key in cenv && Read(cenv[key], t) == Some(k) && User("eqv?") !in cenv
    ensures var b := Eqv(k, FromDatum(d));
      EvalCore(nm, EqvCore(key, d), cenv, t, fuel) == if b.None? then Outside else Val(VBool(b.value), t)
  {
    hide Eqv, FromDatum;
    TwoOperands(nm, CRef(key), CQuote(d), cenv, t, fuel);
    assert EvalCore(nm, CRef(User("eqv?")), cenv, t, fuel) == Val(VPrim("eqv?"), t);
    assert EvalOperands(nm, [CRef(key), CQuote(d)], cenv, t, fuel) == Val([k, FromDatum(d)], t);
  }

  /** The test's value is whether the key matches; only temporaries are added to the store. */
  lemma {:induction false} KeyTestRuns(
    nm: Numerics, key: Var, data: seq<SExpr>, c: Core, v: Val_, k: CoreVal, cenv: CoreEnv, t: CoreStore, fuel: nat)
    requires IsKeyTest(key, data, c) && RelV(v, k) && key.Temp? && key.hint == CaseTemp
    requires key in cenv && Read(cenv[key], t) == Some(k) && User("eqv?") !in cenv
    ensures var m, q := KeyMatches(v, data), EvalCore(nm, c, cenv, t, fuel);
      m.Unknown? || (q.Val? && q.value == VBool(m.Yes?) && q.state.user == t.user && t.temp <= q.state.temp)
    decreases |data|
  {
    hide RelV, Eqv, EvalCore, FromDatum;
    EqvRuns(nm, key, data[0], k, cenv, t, fuel);
    DatumRel(data[0]);
    EqvRel(v, FromDatum(data[0]), k, FromDatum(data[0]));
    assert KeyMatches(v, []) == No;
    if |data| > 1 {
      var u := c.fn.params[0];
      OrStepRuns(nm, c, cenv, t, fuel);
      var b := Eqv(k, FromDatum(data[0]));
      if b == Some(false) {
        var fr := BindOne(u, VBool(false), cenv, t);
        KeyTestRuns(nm, key, data[1..], OrRest(c), v, k, fr.env, fr.store, fuel);
      }
    } else {
      assert data[1..] == [];
    }
  }

  lemma MoreTemps(s: Store, t: CoreStore, t1: CoreStore)
    requires StoreRel(s, t) && t1.user == t.user && t.temp <= t1.temp
    ensures StoreRel(s, t1) && Later(s, t, s, t1)
  {
    hide RelV;
  }

  lemma TempStays(l: Loc, t: CoreStore, t1: CoreStore, k: CoreVal)
    requires l.InTemp? && Read(l, t) == Some(k) && t.temp <= t1.temp
    ensures Read(l, t1) == Some(k)
  {
  }
}
