/**
 The meaning of core programs. User variables and temporaries live in separate regions of the
 store, so that a program and its expansion number the user's locations alike.
 */
module CoreMeaning {
  import opened Wrappers
  import opened Programs
  import opened Values

  datatype Loc = InUser(index: nat) | InTemp(index: nat)

  type CoreEnv = map<Var, Loc>

  datatype CoreProc = CoreProc(params: seq<Var>, rest: Option<Var>, body: seq<Core>, env: CoreEnv)

  type CoreVal = Value<CoreProc>

  datatype CoreStore = CoreStore(user: seq<CoreVal>, temp: seq<CoreVal>)

  type CoreResult = Outcome<CoreVal, CoreStore>
  type CoreResults = Outcome<seq<CoreVal>, CoreStore>

  datatype CoreFrame = CoreFrame(env: CoreEnv, store: CoreStore)

  /** A fresh location, in the region of the variable's kind. */
  function BindOne(v: Var, x: CoreVal, env: CoreEnv, t: CoreStore): CoreFrame {
    if v.User? then CoreFrame(env[v := InUser(|t.user|)], t.(user := t.user + [x]))
    else CoreFrame(env[v := InTemp(|t.temp|)], t.(temp := t.temp + [x]))
  }

  function BindVars(vs: seq<Var>, xs: seq<CoreVal>, env: CoreEnv, t: CoreStore): CoreFrame
    requires |vs| == |xs|
  {
    if vs == [] then CoreFrame(env, t)
    else
      var fr := BindOne(vs[0], xs[0], env, t);
      BindVars(vs[1..], xs[1..], fr.env, fr.store)
  }

  function BindCoreArgs(params: seq<Var>, rest: Option<Var>, xs: seq<CoreVal>, env: CoreEnv, t: CoreStore): Option<CoreFrame> {
    if |xs| < |params| || (rest.None? && |xs| > |params|) then None
    else
      var fr := BindVars(params, xs[..|params|], env, t);
      if rest.None? then Some(fr)
      else Some(BindOne(rest.value, FromList(xs[|params|..], VNil), fr.env, fr.store))
  }

  function Read(l: Loc, t: CoreStore): Option<CoreVal> {
    match l
    case InUser(i) => if i < |t.user| then Some(t.user[i]) else None
    case InTemp(i) => if i < |t.temp| then Some(t.temp[i]) else None
  }

  function Write(l: Loc, x: CoreVal, t: CoreStore): Option<CoreStore> {
    match l
    case InUser(i) => if i < |t.user| then Some(t.(user := t.user[i := x])) else None
    case InTemp(i) => if i < |t.temp| then Some(t.(temp := t.temp[i := x])) else None
  }

  function LookupVar(nm: Numerics, v: Var, env: CoreEnv, t: CoreStore): CoreResult {
    if v in env then
      match Read(env[v], t)
      case None => Failed
      case Some(x) => Val(x, t)
    else if v.User? && IsPrimitive(nm, v.name) then Val(VPrim(v.name), t)
    else Failed
  }

  function SetVar(v: Var, x: CoreVal, env: CoreEnv, t: CoreStore): CoreResult {
    if v !in env then Failed
    else
      match Write(env[v], x, t)
      case None => Failed
      case Some(t1) => Val(VVoid, t1)
  }

  function ApplyCorePrim(nm: Numerics, name: string, xs: seq<CoreVal>, t: CoreStore): CoreResult {
    match ApplyPrimitive(nm, name, xs)
    case Returns(x) => Val(x, t)
    case Fails => Failed
    case NoMeaning => Outside
  }

  function EvalCore(nm: Numerics, c: Core, env: CoreEnv, t: CoreStore, fuel: nat): CoreResult
    decreases fuel, 1, c
  {
    match c
    case CLit(d) => Val(FromDatum(d), t)
    case CRef(v) => LookupVar(nm, v, env, t)
    case CQuote(d) => Val(FromDatum(d), t)
    case CIf(test, yes, no) =>
      (match EvalCore(nm, test, env, t, fuel)
       case Val(x, t1) => if IsTrue(x) then EvalCore(nm, yes, env, t1, fuel) else EvalCore(nm, no, env, t1, fuel)
       case r => r)
    case CBegin(body) => EvalCores(nm, body, env, t, fuel)
    case CLambda(params, rest, body) => Val(VProc(CoreProc(params, rest, body, env)), t)
    case CSet(v, x) =>
      (match EvalCore(nm, x, env, t, fuel)
       case Val(y, t1) => SetVar(v, y, env, t1)
       case r => r)
    case CApp(CLambda(params, rest, body), args) =>
      (match EvalOperands(nm, args, env, t, fuel)
       case Val(xs, t1) =>
         (match BindCoreArgs(params, rest, xs, env, t1)
          case None => Failed
          case Some(fr) => EvalCores(nm, body, fr.env, fr.store, fuel))
       case Failed => Failed
       case OutOfFuel => OutOfFuel
       case Outside => Outside)
    case CApp(f, args) =>
      match EvalCore(nm, f, env, t, fuel)
      case Val(g, t1) =>
        (match EvalOperands(nm, args, env, t1, fuel)
         case Val(xs, t2) => ApplyCore(nm, g, xs, t2, fuel)
         case Failed => Failed
         case OutOfFuel => OutOfFuel
         case Outside => Outside)
      case r => r
  }

  function EvalOperands(nm: Numerics, cs: seq<Core>, env: CoreEnv, t: CoreStore, fuel: nat): (r: CoreResults)
    ensures r.Val? ==> |r.value| == |cs|
    decreases fuel, 1, cs
  {
    if cs == [] then Val([], t)
    else
      match EvalCore(nm, cs[0], env, t, fuel)
      case Val(x, t1) =>
        (match EvalOperands(nm, cs[1..], env, t1, fuel)
         case Val(xs, t2) => Val([x] + xs, t2)
         case r => r)
      case Failed => Failed
      case OutOfFuel => OutOfFuel
      case Outside => Outside
  }

  function EvalCores(nm: Numerics, cs: seq<Core>, env: CoreEnv, t: CoreStore, fuel: nat): CoreResult
    decreases fuel, 1, cs
  {
    if cs == [] then Val(VVoid, t)
    else if |cs| == 1 then EvalCore(nm, cs[0], env, t, fuel)
    else
      match EvalCore(nm, cs[0], env, t, fuel)
      case Val(_, t1) => EvalCores(nm, cs[1..], env, t1, fuel)
      case r => r
  }

  function ApplyCore(nm: Numerics, f: CoreVal, xs: seq<CoreVal>, t: CoreStore, fuel: nat): CoreResult
    decreases fuel, 0
  {
    match f
    case VPrim(name) => ApplyCorePrim(nm, name, xs, t)
    case VProc(p) =>
      if fuel == 0 then OutOfFuel
      else
        (match BindCoreArgs(p.params, p.rest, xs, p.env, t)
         case None => Failed
         case Some(fr) => EvalCores(nm, p.body, fr.env, fr.store, fuel - 1))
    case _ => Failed
  }
}
