/** How related calls bind their arguments, and how the expansion of `letrec` runs. */
module Bindings {
  import opened Wrappers
  import opened Programs
  import opened Desugaring
  import opened Values
  import opened SourceMeaning
  import opened CoreMeaning
  import opened Relation
  import opened CoreSteps

  // ---- Arguments ----

  lemma RelSplit(vs: seq<Val_>, ws: seq<CoreVal>, n: nat)
    requires RelVs(vs, ws) && n <= |vs|
    ensures n <= |ws| && RelVs(vs[..n], ws[..n]) && RelVs(vs[n..], ws[n..])
  {
    hide RelV;
    RelEach(vs, ws);
    RelEach(vs[..n], ws[..n]);
    RelEach(vs[n..], ws[n..]);
  }

  ghost predicate FrameRel(fr: Frame, gr: CoreFrame, s: Store, t: CoreStore, free: set<string>) {
    EnvRel(fr.env, gr.env, free) && StoreRel(fr.store, gr.store) && Later(s, t, fr.store, gr.store)
  }

  /** A call and its expansion accept the same numbers of arguments and bind them alike. */
  lemma ArgsRel(
    params: seq<string>, rest: Option<string>, vs: seq<Val_>, ws: seq<CoreVal>,
    env: Env, cenv: CoreEnv, s: Store, t: CoreStore, free: set<string>)
    requires RelVs(vs, ws) && StoreRel(s, t) && EnvRel(env, cenv, free - NameSet(params) - RestSet(rest))
    ensures var fr, gr := BindArgs(params, rest, vs, env, s), BindCoreArgs(Users(params), UserRest(rest), ws, cenv, t);
      (fr.None? <==> gr.None?) && (fr.Some? ==> FrameRel(fr.value, gr.value, s, t, free))
  {
    hide RelV, RelVs, EnvRel, StoreRel, Later, TempsKept, BindVars, BindNames, BindOne, NameSet, Users, Cells, FromList;
    RelAt(vs, ws);
    var n := |params|;
    if |vs| >= n && (rest.Some? || |vs| == n) {
      RelSplit(vs, ws, n);
      var most := free - RestSet(rest);
      assert most - NameSet(params) == free - NameSet(params) - RestSet(rest);
      BindingRel(params, vs[..n], ws[..n], env, cenv, s, t, most);
      var env1, s1 := BindNames(params, |s|, env), s + Cells(vs[..n]);
      var fr := BindVars(Users(params), ws[..n], cenv, t);
      if rest.Some? {
        NilRel();
        ListRel(vs[n..], ws[n..], VNil, VNil);
        RestRel(rest.value, FromList(vs[n..], VNil), FromList(ws[n..], VNil), env1, fr.env, s1, fr.store, free);
        var gr := BindOne(User(rest.value), FromList(ws[n..], VNil), fr.env, fr.store);
        LaterTwice(s, t, s1, fr.store, s1 + [Has(FromList(vs[n..], VNil))], gr.store);
      } else {
        assert most == free;
      }
    }
  }

  lemma NilRel()
    ensures RelV(VNil, VNil)
  {
  }

  lemma RestRel(n: string, v: Val_, w: CoreVal, env: Env, cenv: CoreEnv, s: Store, t: CoreStore, free: set<string>)
    requires RelV(v, w) && StoreRel(s, t) && EnvRel(env, cenv, free - {n})
    ensures FrameRel(Frame(env[n := |s|], s + [Has(v)]), BindOne(User(n), w, cenv, t), s, t, free)
  {
    hide RelV;
  }

  /** A `let` binds as a call does. */
  lemma LetBinds(names: seq<string>, vs: seq<Val_>, env: Env, s: Store)
    requires |names| == |vs|
    ensures BindArgs(names, None, vs, env, s) == Some(Frame(BindNames(names, |s|, env), s + Cells(vs)))
  {
    assert vs[..|names|] == vs;
  }

  // ---- letrec ----

  function NilValues(n: nat): (xs: seq<CoreVal>)
    ensures |xs| == n
  {
    seq(n, _ => VNil)
  }

  lemma {:induction false} NilsRun(nm: Numerics, n: nat, cenv: CoreEnv, t: CoreStore, fuel: nat)
    ensures EvalOperands(nm, Nils(n), cenv, t, fuel) == Val(NilValues(n), t)
  {
    if n > 0 {
      NilsRun(nm, n - 1, cenv, t, fuel);
      assert Nils(n)[1..] == Nils(n - 1);
      assert NilValues(n) == [VNil] + NilValues(n - 1);
    }
  }

  /** Placeholders, then the assignments and the body in one sequence. */
  lemma LetrecRuns(nm: Numerics, vars: seq<Var>, c: Core, cenv: CoreEnv, t: CoreStore, fuel: nat)
    requires IsLetrec(vars, c)
    ensures var fr := BindVars(vars, NilValues(|vars|), cenv, t);
      EvalCore(nm, c, cenv, t, fuel)
        == EvalCores(nm, CoreSets(vars, LetrecInits(vars, c)) + LetrecBody(vars, c), fr.env, fr.store, fuel)
  {
    hide EvalOperands, EvalCores, CoreSets, LetrecInits, LetrecBody, IsLetrec, Nils, NilValues, BindVars;
    LetrecIsCoreLetrec(vars, c);
    var body := CoreSets(vars, LetrecInits(vars, c)) + LetrecBody(vars, c);
    NilsRun(nm, |vars|, cenv, t, fuel);
    AllBound(vars, NilValues(|vars|), cenv, t);
    var fr := BindVars(vars, NilValues(|vars|), cenv, t);
    OneCore(nm, CBegin(body), fr.env, fr.store, fuel);
    BeginRuns(nm, body, fr.env, fr.store, fuel);
  }

  lemma BeginRuns(nm: Numerics, body: seq<Core>, cenv: CoreEnv, t: CoreStore, fuel: nat)
    ensures EvalCore(nm, CBegin(body), cenv, t, fuel) == EvalCores(nm, body, cenv, t, fuel)
  {
    hide EvalCores;
  }

  lemma AllBound(vars: seq<Var>, ws: seq<CoreVal>, cenv: CoreEnv, t: CoreStore)
    requires |vars| == |ws|
    ensures BindCoreArgs(vars, None, ws, cenv, t) == Some(BindVars(vars, ws, cenv, t))
  {
    hide BindVars;
    assert ws[..|vars|] == ws;
  }

  /** The variables of a `letrec` before their inits: unassigned, and holding placeholders. */
  lemma HolesRel(names: seq<string>, env: Env, cenv: CoreEnv, s: Store, t: CoreStore, free: set<string>)
    requires StoreRel(s, t) && EnvRel(env, cenv, free - NameSet(names))
    ensures var gr := BindVars(Users(names), NilValues(|names|), cenv, t);
      FrameRel(Frame(BindNames(names, |s|, env), s + Holes(|names|)), gr, s, t, free)
  {
    hide RelV, EnvRel, BindVars, BindNames, TempsKept;
    BindingVars(names, NilValues(|names|), cenv, t);
    BindingEnvs(names, NilValues(|names|), env, cenv, |s|, t, free);
  }

  /** Each name has its own location, one after another. */
  ghost predicate LocatedFrom(names: seq<string>, at: nat, cenv: CoreEnv) {
    forall i :: 0 <= i < |names| ==> User(names[i]) in cenv && cenv[User(names[i])] == InUser(at + i)
  }

  lemma {:induction false} NamesAreLocated(names: seq<string>, ws: seq<CoreVal>, cenv: CoreEnv, t: CoreStore)
    requires |names| == |ws| && Distinct(names)
    ensures LocatedFrom(names, |t.user|, BindVars(Users(names), ws, cenv, t).env)
    ensures forall v :: v in cenv && (v.Temp? || v.name !in names) ==>
      v in BindVars(Users(names), ws, cenv, t).env && BindVars(Users(names), ws, cenv, t).env[v] == cenv[v]
    decreases |names|
  {
    if names != [] {
      var fr := BindOne(User(names[0]), ws[0], cenv, t);
      assert Users(names)[1..] == Users(names[1..]);
      NamesAreLocated(names[1..], ws[1..], fr.env, fr.store);
      assert names[0] !in names[1..];
      forall i | 0 <= i < |names|
        ensures User(names[i]) in BindVars(Users(names), ws, cenv, t).env
        ensures BindVars(Users(names), ws, cenv, t).env[User(names[i])] == InUser(|t.user| + i)
      {
        if i > 0 {
          assert names[1..][i - 1] == names[i];
        }
      }
    }
  }

  /** One assignment, then the rest. */
  lemma SetStepRuns(nm: Numerics, v: Var, x: Core, rest: seq<Core>, cenv: CoreEnv, t: CoreStore, fuel: nat)
    requires v in cenv
    ensures var q, q1 := EvalCore(nm, x, cenv, t, fuel), EvalCores(nm, [CSet(v, x)] + rest, cenv, t, fuel);
      && (!q.Val? ==> q1 == q)
      && (q.Val? && Write(cenv[v], q.value, q.state).Some? ==>
        q1 == EvalCores(nm, rest, cenv, Write(cenv[v], q.value, q.state).value, fuel))
  {
    hide Write;
    var all := [CSet(v, x)] + rest;
    assert all[1..] == rest;
    var q := EvalCore(nm, x, cenv, t, fuel);
    if q.Val? && Write(cenv[v], q.value, q.state).Some? {
      assert EvalCore(nm, CSet(v, x), cenv, t, fuel) == Val(VVoid, Write(cenv[v], q.value, q.state).value);
    }
  }

  lemma FirstSet(names: seq<string>, xs: seq<Core>, rest: seq<Core>)
    requires |names| == |xs| && names != []
    ensures CoreSets(Users(names), xs) + rest
      == [CSet(User(names[0]), xs[0])] + (CoreSets(Users(names[1..]), xs[1..]) + rest)
  {
    assert Users(names)[1..] == Users(names[1..]);
    assert CoreSets(Users(names), xs) == [CSet(User(names[0]), xs[0])] + CoreSets(Users(names[1..]), xs[1..]);
  }

  lemma NoSets(names: seq<string>, xs: seq<Core>, rest: seq<Core>)
    requires |names| == |xs| && names == []
    ensures CoreSets(Users(names), xs) + rest == rest
  {
  }

  // ---- Assigning in order ----

  /** `Later`, except for the locations from `lo` up to `hi`, which the core run assigns. */
  ghost predicate LaterOutside(s: Store, t: CoreStore, s1: Store, t1: CoreStore, lo: nat, hi: nat) {
    && |s| == |t.user| && |s1| == |t1.user| && |s| <= |s1|
    && t.temp <= t1.temp
    && forall i :: 0 <= i < |s| && s[i].Unassigned? ==>
      s1[i].Unassigned? && (i < lo || hi <= i ==> t1.user[i] == t.user[i])
  }

  ghost predicate HolesAt(s: Store, at: nat, n: nat) {
    at + n <= |s| && forall i :: at <= i < at + n ==> s[i].Unassigned?
  }

  ghost predicate AssignedAt(t: CoreStore, at: nat, vs: seq<Val_>) {
    at + |vs| <= |t.user| && forall i :: 0 <= i < |vs| ==> RelV(vs[i], t.user[at + i])
  }

  lemma OutsideNothing(s: Store, t: CoreStore, at: nat)
    requires StoreRel(s, t) && at <= |s|
    ensures LaterOutside(s, t, s, t, at, at) && AssignedAt(t, at, [])
  {
    hide RelV;
  }

  /** After one init: the core location holds its value, the source's stays unassigned. */
  lemma OneAssigned(s: Store, t: CoreStore, s1: Store, t1: CoreStore, at: nat, n: nat, v: Val_, w: CoreVal)
    requires Later(s, t, s1, t1) && StoreRel(s1, t1) && HolesAt(s, at, n) && n > 0
    ensures at < |t1.user|
    ensures var t2 := t1.(user := t1.user[at := w]);
      StoreRel(s1, t2) && LaterOutside(s, t, s1, t2, at, at + 1) && HolesAt(s1, at, n) && HolesAt(s1, at + 1, n - 1)
  {
    hide RelV;
  }

  /** The remaining inits leave the first one's location alone. */
  lemma OneMoreAssigned(
    s: Store, t: CoreStore, s1: Store, t1: CoreStore, s2: Store, t2: CoreStore, at: nat, n: nat, v: Val_, vs: seq<Val_>)
    requires LaterOutside(s, t, s1, t1, at, at + 1) && LaterOutside(s1, t1, s2, t2, at + 1, at + n) && HolesAt(s1, at, n)
    requires at < |t1.user| && RelV(v, t1.user[at]) && AssignedAt(t2, at + 1, vs) && |vs| + 1 == n
    ensures LaterOutside(s, t, s2, t2, at, at + n) && AssignedAt(t2, at, [v] + vs)
  {
    hide RelV;
    assert t2.user[at] == t1.user[at];
    forall i | 0 <= i < |[v] + vs| ensures RelV(([v] + vs)[i], t2.user[at + i]) {
      if i > 0 {
        assert t2.user[at + 1 + (i - 1)] == t2.user[at + i];
      }
    }
  }

  /** When all inits are done, the source's variables are assigned together. */
  lemma AllInitialised(
    s0: Store, t0: CoreStore, s: Store, t: CoreStore, s1: Store, t1: CoreStore, vs: seq<Val_>)
    requires Later(s0, t0, s, t) && StoreRel(s1, t1) && LaterOutside(s, t, s1, t1, |s0|, |s0| + |vs|)
    requires AssignedAt(t1, |s0|, vs) && |s| == |s0| + |vs|
    ensures |s0| + |vs| <= |s1|
    ensures StoreRel(Initialise(s1, |s0|, vs), t1) && Later(s0, t0, Initialise(s1, |s0|, vs), t1)
  {
    hide RelV;
  }

  /** One definition: both sides assign it. */
  lemma OneDefined(s0: Store, t0: CoreStore, s1: Store, t1: CoreStore, at: nat, n: nat, v: Val_, w: CoreVal)
    requires Later(s0, t0, s1, t1) && StoreRel(s1, t1) && |s0| <= at && HolesAt(s1, at, n) && n > 0 && RelV(v, w)
    ensures at < |s1| == |t1.user|
    ensures var s2, t2 := s1[at := Has(v)], t1.(user := t1.user[at := w]);
      StoreRel(s2, t2) && Later(s0, t0, s2, t2) && HolesAt(s2, at + 1, n - 1)
  {
    hide RelV;
  }

  lemma HolesStay(s: Store, t: CoreStore, s1: Store, t1: CoreStore, at: nat, n: nat)
    requires Later(s, t, s1, t1) && HolesAt(s, at, n)
    ensures HolesAt(s1, at, n)
  {
  }

  lemma FreshHoles(s: Store, n: nat)
    ensures HolesAt(s + Holes(n), |s|, n)
  {
  }

  lemma RestLocated(names: seq<string>, at: nat, cenv: CoreEnv)
    requires LocatedFrom(names, at, cenv) && names != []
    ensures LocatedFrom(names[1..], at + 1, cenv) && User(names[0]) in cenv && cenv[User(names[0])] == InUser(at)
  {
    forall i | 0 <= i < |names[1..]|
      ensures User(names[1..][i]) in cenv && cenv[User(names[1..][i])] == InUser(at + 1 + i)
    {
      assert names[1..][i] == names[i + 1];
    }
  }
}
