/** How a program's run and its expansion's run are related: values, stores and outcomes. */
module Relation {
  import opened SExprs
  import opened Programs
  import opened Desugaring
  import opened Values
  import opened SourceMeaning
  import opened CoreMeaning

  // ---- Values ----

  /** The environments agree on the given names; the core one may hold temporaries besides. */
  ghost predicate EnvRel(env: Env, cenv: CoreEnv, names: set<string>) {
    forall n :: n in names ==> (n in env <==> User(n) in cenv) && (n in env ==> cenv[User(n)] == InUser(env[n]))
  }

  /** A procedure and its expansion, closed over environments that agree on its free variables. */
  ghost predicate RelProc(p: Proc, q: CoreProc) {
    && q.params == Users(p.params) && q.rest == UserRest(p.rest)
    && BlockShaped(p.block) && BlockUncaptured(p.block) && BlockDesugars(p.block, q.body)
    && EnvRel(p.env, q.env, BlockFree(p.block) - NameSet(p.params) - RestSet(p.rest))
  }

  ghost predicate RelV(v: Val_, w: CoreVal) {
    match v
    case VNil => w.VNil?
    case VBool(b) => w == VBool(b)
    case VNum(n) => w == VNum(n)
    case VChar(c) => w == VChar(c)
    case VStr(x) => w == VStr(x)
    case VSym(x) => w == VSym(x)
    case VBytes(bs) => w == VBytes(bs)
    case VPair(a, d) => w.VPair? && RelV(a, w.car) && RelV(d, w.cdr)
    case VVector(items) => w.VVector? && RelVs(items, w.items)
    case VVoid => w.VVoid?
    case VPrim(x) => w == VPrim(x)
    case VProc(p) => w.VProc? && RelProc(p, w.proc)
  }

  ghost predicate RelVs(vs: seq<Val_>, ws: seq<CoreVal>) {
    |vs| == |ws| && (vs == [] || (RelV(vs[0], ws[0]) && RelVs(vs[1..], ws[1..])))
  }

  // ---- Stores and outcomes ----

  /** The user's locations correspond one to one; an unassigned one may hold anything. */
  ghost predicate StoreRel(s: Store, t: CoreStore) {
    |s| == |t.user| && forall i :: 0 <= i < |s| && s[i].Has? ==> RelV(s[i].value, t.user[i])
  }

  /**
   What a run leaves alone: temporaries that existed before it, and locations that were and still
   are unassigned.
   */
  ghost predicate Later(s: Store, t: CoreStore, s1: Store, t1: CoreStore) {
    && |s| == |t.user| && |s1| == |t1.user| && |s| <= |s1|
    && t.temp <= t1.temp
    && forall i :: 0 <= i < |s| && s[i].Unassigned? ==> s1[i].Unassigned? && t1.user[i] == t.user[i]
  }

  ghost predicate OutRel(r: Result_, q: CoreResult, s: Store, t: CoreStore) {
    match r
    case Outside => true
    case Failed => q.Failed?
    case OutOfFuel => q.OutOfFuel?
    case Val(v, s1) => q.Val? && RelV(v, q.value) && StoreRel(s1, q.state) && Later(s, t, s1, q.state)
  }

  ghost predicate OutsRel(r: Results, q: CoreResults, s: Store, t: CoreStore) {
    match r
    case Outside => true
    case Failed => q.Failed?
    case OutOfFuel => q.OutOfFuel?
    case Val(vs, s1) => q.Val? && RelVs(vs, q.value) && StoreRel(s1, q.state) && Later(s, t, s1, q.state)
  }

  lemma LaterTwice(s: Store, t: CoreStore, s1: Store, t1: CoreStore, s2: Store, t2: CoreStore)
    requires Later(s, t, s1, t1) && Later(s1, t1, s2, t2)
    ensures Later(s, t, s2, t2)
  {
  }

  lemma LaterSame(s: Store, t: CoreStore)
    requires StoreRel(s, t)
    ensures Later(s, t, s, t)
  {
  }

  /** What holds from a later state holds from the earlier one. */
  lemma OutLater(r: Result_, q: CoreResult, s: Store, t: CoreStore, s1: Store, t1: CoreStore)
    requires Later(s, t, s1, t1) && OutRel(r, q, s1, t1)
    ensures OutRel(r, q, s, t)
  {
    hide Later, RelV, StoreRel;
    if r.Val? {
      LaterTwice(s, t, s1, t1, r.state, q.state);
    }
  }

  lemma ValueOut(v: Val_, w: CoreVal, s: Store, t: CoreStore)
    requires RelV(v, w) && StoreRel(s, t)
    ensures OutRel(Val(v, s), Val(w, t), s, t)
  {
    hide RelV;
    LaterSame(s, t);
  }

  // ---- Data and primitives ----

  lemma {:induction false} DatumRel(d: SExpr)
    ensures RelV(FromDatum(d), FromDatum(d))
  {
    match d
    case Vector(items) => DataRel(items);
    case List(elems, None) =>
      DataRel(elems);
      ListRel(FromData(elems), FromData(elems), VNil, VNil);
    case List(elems, Some(tail)) =>
      DataRel(elems);
      DatumRel(tail);
      ListRel(FromData(elems), FromData(elems), FromDatum(tail), FromDatum(tail));
    case Reader(kind, x) =>
      DatumRel(x);
      var vs: seq<Val_>, ws: seq<CoreVal> := [VSym(KindName(kind)), FromDatum(x)], [VSym(KindName(kind)), FromDatum(x)];
      assert vs[1..] == [FromDatum(x)] && ws[1..] == [FromDatum(x)] && vs[1..][1..] == [] && ws[1..][1..] == [];
      ListRel(vs, ws, VNil, VNil);
    case _ =>
  }

  lemma {:induction false} DataRel(ds: seq<SExpr>)
    ensures RelVs(FromData(ds), FromData(ds))
  {
    if ds != [] {
      DatumRel(ds[0]);
      DataRel(ds[1..]);
      var vs: seq<Val_>, ws: seq<CoreVal> := FromData(ds), FromData(ds);
      assert vs[1..] == FromData(ds[1..]) && ws[1..] == FromData(ds[1..]);
    }
  }

  lemma {:induction false} ListRel(vs: seq<Val_>, ws: seq<CoreVal>, v: Val_, w: CoreVal)
    requires RelVs(vs, ws) && RelV(v, w)
    ensures RelV(FromList(vs, v), FromList(ws, w))
  {
    if vs != [] {
      ListRel(vs[1..], ws[1..], v, w);
    }
  }

  lemma EqvRel(a: Val_, b: Val_, a': CoreVal, b': CoreVal)
    requires RelV(a, a') && RelV(b, b')
    ensures Eqv(a, b) == Eqv(a', b')
  {
  }

  lemma KindRel(v: Val_, w: CoreVal)
    requires RelV(v, w)
    ensures v.VNil? <==> w.VNil?
    ensures v.VPair? <==> w.VPair?
    ensures v.VPair? ==> RelV(v.car, w.car) && RelV(v.cdr, w.cdr)
    ensures IsTrue(v) <==> IsTrue(w)
    ensures v.VPrim? <==> w.VPrim?
    ensures v.VPrim? ==> v.prim == w.prim
    ensures v.VProc? <==> w.VProc?
    ensures v.VProc? ==> RelProc(v.proc, w.proc)
  {
  }

  lemma PairRel(v: Val_, w: CoreVal, v1: Val_, w1: CoreVal)
    requires RelV(v, w) && RelV(v1, w1)
    ensures RelV(VPair(v, v1), VPair(w, w1))
  {
  }

  lemma {:induction false} AppendRel(a: Val_, b: Val_, a': CoreVal, b': CoreVal)
    requires RelV(a, a') && RelV(b, b')
    ensures Append(a, b).None? <==> Append(a', b').None?
    ensures Append(a, b).Some? ==> RelV(Append(a, b).value, Append(a', b').value)
  {
    hide RelV;
    KindRel(a, a');
    if a.VPair? {
      AppendRel(a.cdr, b, a'.cdr, b');
      if Append(a.cdr, b).Some? {
        PairRel(a.car, a'.car, Append(a.cdr, b).value, Append(a'.cdr, b').value);
      }
    }
  }

  lemma {:induction false} ItemsRel(a: Val_, a': CoreVal)
    requires RelV(a, a')
    ensures ListItems(a).None? <==> ListItems(a').None?
    ensures ListItems(a).Some? ==> RelVs(ListItems(a).value, ListItems(a').value)
  {
    if a.VPair? {
      ItemsRel(a.cdr, a'.cdr);
      if ListItems(a).Some? {
        assert ListItems(a).value[1..] == ListItems(a.cdr).value;
        assert ListItems(a').value[1..] == ListItems(a'.cdr).value;
      }
    }
  }

  lemma {:induction false} NumbersRel(vs: seq<Val_>, ws: seq<CoreVal>)
    requires RelVs(vs, ws)
    ensures Numbers(vs) == Numbers(ws)
  {
    if vs != [] {
      NumbersRel(vs[1..], ws[1..]);
    }
  }

  ghost predicate PrimRel(r: PrimResult<Proc>, q: PrimResult<CoreProc>) {
    match r
    case NoMeaning => true
    case Fails => q.Fails?
    case Returns(v) => q.Returns? && RelV(v, q.value)
  }

  lemma RelAt(vs: seq<Val_>, ws: seq<CoreVal>)
    requires RelVs(vs, ws)
    ensures |vs| == |ws|
    ensures |vs| >= 1 ==> RelV(vs[0], ws[0])
    ensures |vs| >= 2 ==> RelV(vs[1], ws[1])
  {
    if |vs| >= 2 {
      assert RelVs(vs[1..], ws[1..]);
    }
  }

  lemma PrimitivesRel(nm: Numerics, name: string, vs: seq<Val_>, ws: seq<CoreVal>)
    requires RelVs(vs, ws)
    ensures PrimRel(ApplyPrimitive(nm, name, vs), ApplyPrimitive(nm, name, ws))
  {
    hide RelVs, Numbers, Append, ListItems, Eqv;
    RelAt(vs, ws);
    if |vs| >= 1 {
      KindRel(vs[0], ws[0]);
    }
    if name == "eqv?" {
      if |vs| == 2 { EqvRel(vs[0], vs[1], ws[0], ws[1]); }
    } else if name == "append" {
      if |vs| == 2 { AppendRel(vs[0], vs[1], ws[0], ws[1]); }
    } else if name == "list->vector" {
      if |vs| == 1 { ItemsRel(vs[0], ws[0]); }
    } else if name !in {"cons", "car", "cdr", "null?", "pair?", "not"} {
      NumbersRel(vs, ws);
      var ns := Numbers(vs);
      if ns.Some? && nm.apply(name, ns.value).Some? {
        DatumRel(nm.apply(name, ns.value).value);
      }
    }
  }

  // ---- Binding ----

  /** Temporaries keep their meaning under further user bindings. */
  ghost predicate TempsKept(cenv: CoreEnv, cenv': CoreEnv) {
    forall v :: v in cenv && v.Temp? ==> v in cenv' && cenv'[v] == cenv[v]
  }

  lemma {:induction false} BindingVars(names: seq<string>, ws: seq<CoreVal>, cenv: CoreEnv, t: CoreStore)
    requires |names| == |ws|
    ensures var fr := BindVars(Users(names), ws, cenv, t);
      fr.store == t.(user := t.user + ws) && TempsKept(cenv, fr.env)
    decreases |names|
  {
    if names == [] {
      assert t.user + ws == t.user;
    } else {
      var fr := BindOne(User(names[0]), ws[0], cenv, t);
      assert Users(names)[1..] == Users(names[1..]);
      BindingVars(names[1..], ws[1..], fr.env, fr.store);
      assert (t.user + [ws[0]]) + ws[1..] == t.user + ws;
    }
  }

  lemma {:induction false} BindingEnvs(
    names: seq<string>, ws: seq<CoreVal>, env: Env, cenv: CoreEnv, base: nat, t: CoreStore, free: set<string>)
    requires |names| == |ws| && base == |t.user| && EnvRel(env, cenv, free - NameSet(names))
    ensures EnvRel(BindNames(names, base, env), BindVars(Users(names), ws, cenv, t).env, free)
    decreases |names|
  {
    if names != [] {
      var fr := BindOne(User(names[0]), ws[0], cenv, t);
      assert Users(names)[1..] == Users(names[1..]);
      forall n | n in free - NameSet(names[1..])
        ensures (n in env[names[0] := base] <==> User(n) in fr.env)
        ensures n in env[names[0] := base] ==> fr.env[User(n)] == InUser(env[names[0] := base][n])
      {
        if n != names[0] {
          NotInBoth(names, n);
        }
      }
      BindingEnvs(names[1..], ws[1..], env[names[0] := base], fr.env, base + 1, fr.store, free);
    }
  }

  lemma NotInBoth(names: seq<string>, n: string)
    requires names != [] && n != names[0] && n !in NameSet(names[1..])
    ensures n !in NameSet(names)
  {
    forall i | 0 < i < |names| ensures names[i] != n {
      assert names[1..][i - 1] == names[i];
    }
  }

  lemma {:induction false} RelEach(vs: seq<Val_>, ws: seq<CoreVal>)
    ensures RelVs(vs, ws) <==> |vs| == |ws| && forall i :: 0 <= i < |vs| ==> RelV(vs[i], ws[i])
  {
    if vs != [] && |vs| == |ws| {
      RelEach(vs[1..], ws[1..]);
      if forall i :: 0 <= i < |vs| ==> RelV(vs[i], ws[i]) {
        assert forall i :: 0 <= i < |vs[1..]| ==> vs[1..][i] == vs[i + 1] && ws[1..][i] == ws[i + 1];
      }
      if RelVs(vs, ws) {
        forall i | 0 <= i < |vs| ensures RelV(vs[i], ws[i]) {
          if i > 0 {
            assert vs[1..][i - 1] == vs[i] && ws[1..][i - 1] == ws[i];
          }
        }
      }
    }
  }

  lemma BindingStores(vs: seq<Val_>, ws: seq<CoreVal>, s: Store, t: CoreStore)
    requires RelVs(vs, ws) && StoreRel(s, t)
    ensures StoreRel(s + Cells(vs), t.(user := t.user + ws)) && Later(s, t, s + Cells(vs), t.(user := t.user + ws))
  {
    hide RelV;
    RelEach(vs, ws);
  }

  /** Binding related values under the same names keeps everything related. */
  lemma BindingRel(
    names: seq<string>, vs: seq<Val_>, ws: seq<CoreVal>, env: Env, cenv: CoreEnv, s: Store, t: CoreStore, free: set<string>)
    requires |names| == |vs| && RelVs(vs, ws) && StoreRel(s, t) && EnvRel(env, cenv, free - NameSet(names))
    ensures |ws| == |names|
    ensures var fr := BindVars(Users(names), ws, cenv, t);
      && EnvRel(BindNames(names, |s|, env), fr.env, free)
      && StoreRel(s + Cells(vs), fr.store) && Later(s, t, s + Cells(vs), fr.store)
      && TempsKept(cenv, fr.env) && fr.store.temp == t.temp
  {
    hide RelV, EnvRel, TempsKept, BindVars;
    RelAt(vs, ws);
    assert |s| == |t.user|;
    BindingVars(names, ws, cenv, t);
    BindingEnvs(names, ws, env, cenv, |s|, t, free);
    BindingStores(vs, ws, s, t);
  }
}
