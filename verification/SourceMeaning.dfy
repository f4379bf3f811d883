/**
 The direct meaning of programs, derived forms included, after R7RS-small sections 4.1, 4.2.1,
 4.2.2, 4.2.4, 4.2.8 and 5.3.2. Operators and operands are evaluated from left to right. Calls of
 procedures and iterations of `do` use up fuel.
 */
module SourceMeaning {
  import opened Wrappers
  import opened SExprs
  import opened Programs
  import opened Values

  type Env = map<string, nat>

  datatype Proc = Proc(params: seq<string>, rest: Option<string>, block: Block, env: Env)

  type Val_ = Value<Proc>

  /** A location: `letrec` variables are unassigned until their inits are done. */
  datatype Cell = Unassigned | Has(value: Val_)

  type Store = seq<Cell>

  type Result_ = Outcome<Val_, Store>
  type Results = Outcome<seq<Val_>, Store>

  function Cells(vs: seq<Val_>): (cs: Store)
    ensures |cs| == |vs|
  {
    seq(|vs|, i requires 0 <= i < |vs| => Has(vs[i]))
  }

  function Holes(n: nat): (cs: Store)
    ensures |cs| == n
  {
    seq(n, _ => Unassigned)
  }

  /** Consecutive fresh locations for the names. */
  function BindNames(names: seq<string>, base: nat, env: Env): Env {
    if names == [] then env else BindNames(names[1..], base + 1, env[names[0] := base])
  }

  datatype Frame = Frame(env: Env, store: Store)

  /** Binding the arguments of a call; None when their number is wrong. */
  function BindArgs(params: seq<string>, rest: Option<string>, vs: seq<Val_>, env: Env, s: Store): Option<Frame> {
    if |vs| < |params| || (rest.None? && |vs| > |params|) then None
    else
      var env1 := BindNames(params, |s|, env);
      var s1 := s + Cells(vs[..|params|]);
      if rest.None? then Some(Frame(env1, s1))
      else Some(Frame(env1[rest.value := |s1|], s1 + [Has(FromList(vs[|params|..], VNil))]))
  }

  function Lookup(nm: Numerics, n: string, env: Env, s: Store): Result_ {
    if n in env then
      if env[n] >= |s| then Failed
      else if s[env[n]].Unassigned? then Outside
      else Val(s[env[n]].value, s)
    else if IsPrimitive(nm, n) then Val(VPrim(n), s)
    else Failed
  }

  function SetCell(n: string, v: Val_, env: Env, s: Store): Result_ {
    if n !in env || env[n] >= |s| then Failed
    else if s[env[n]].Unassigned? then Outside
    else Val(VVoid, s[env[n] := Has(v)])
  }

  /** The inits of a `letrec` are assigned together. */
  function Initialise(s: Store, base: nat, vs: seq<Val_>): Store
    requires base + |vs| <= |s|
  {
    s[..base] + Cells(vs) + s[base + |vs|..]
  }

  datatype Match = Yes | No | Unknown

  /** Whether the key is `eqv?` to one of the data, in their order. */
  function KeyMatches(key: Val_, data: seq<SExpr>): Match {
    if data == [] then No
    else
      match Eqv(key, FromDatum(data[0]))
      case None => Unknown
      case Some(true) => Yes
      case Some(false) => KeyMatches(key, data[1..])
  }

  function ApplyPrim(nm: Numerics, name: string, vs: seq<Val_>, s: Store): Result_ {
    match ApplyPrimitive(nm, name, vs)
    case Returns(v) => Val(v, s)
    case Fails => Failed
    case NoMeaning => Outside
  }

  /** `(and e)`, `(or e)` and an unquote right under its quasiquote are `e` itself. */
  function Strip(f: Expr): (g: Expr)
    ensures Size(g) <= Size(f)
  {
    match f
    case And(tests) => if |tests| == 1 then Strip(tests[0]) else f
    case Or(tests) => if |tests| == 1 then Strip(tests[0]) else f
    case Quasi(_, Unquoted(_, x)) => Strip(x)
    case _ => f
  }

  function Eval(nm: Numerics, e: Expr, env: Env, s: Store, fuel: nat): Result_
    decreases fuel, Size(e)
  {
    match e
    case Lit(d) => Val(FromDatum(d), s)
    case Ref(n) => Lookup(nm, n, env, s)
    case QuoteOf(_, d) => Val(FromDatum(d), s)
    case If(t, y, o) =>
      (match Eval(nm, t, env, s, fuel)
       case Val(v, s1) => if IsTrue(v) then Eval(nm, y, env, s1, fuel) else Eval(nm, o, env, s1, fuel)
       case r => r)
    case OneArmed(t, y) =>
      (match Eval(nm, t, env, s, fuel)
       case Val(v, s1) => if IsTrue(v) then Eval(nm, y, env, s1, fuel) else Val(VVoid, s1)
       case r => r)
    case Begin(body) => EvalBody(nm, body, env, s, fuel)
    case Lambda(params, rest, body) => Val(VProc(Proc(params, rest, body, env)), s)
    case Assign(n, x) =>
      (match Eval(nm, x, env, s, fuel)
       case Val(v, s1) => SetCell(n, v, env, s1)
       case r => r)
    case App(f, args) => EvalApp(nm, f, args, env, s, fuel)
    case Let(names, inits, body) => EvalLet(nm, names, inits, body, env, s, fuel)
    case LetStar(names, inits, body) => EvalLetStar(nm, names, inits, body, env, s, fuel)
    case Letrec(names, inits, body) => EvalLetrec(nm, names, inits, body, env, s, fuel)
    case LoopLet(loop, names, inits, body) => EvalLoop(nm, loop, names, inits, body, env, s, fuel)
    case And(tests) => EvalAnd(nm, tests, env, s, fuel)
    case Or(tests) => EvalOr(nm, tests, env, s, fuel)
    case When(t, body) =>
      (match Eval(nm, t, env, s, fuel)
       case Val(v, s1) => if IsTrue(v) then EvalBody(nm, body, env, s1, fuel) else Val(VVoid, s1)
       case r => r)
    case Unless(t, body) =>
      (match Eval(nm, t, env, s, fuel)
       case Val(v, s1) => if IsTrue(v) then Val(VVoid, s1) else EvalBody(nm, body, env, s1, fuel)
       case r => r)
    case Cond(clauses, otherwise) => EvalCond(nm, clauses, otherwise, env, s, fuel)
    case Case(key, choices, otherwise) =>
      (match Eval(nm, key, env, s, fuel)
       case Val(v, s1) => EvalCase(nm, v, choices, otherwise, env, s1, fuel)
       case r => r)
    case Do(_, inits, _, _, _, _, _) =>
      (match EvalAll(nm, inits, env, s, fuel)
       case Val(vs, s1) => EvalDo(nm, e, vs, env, s1, fuel)
       case Failed => Failed
       case OutOfFuel => OutOfFuel
       case Outside => Outside)
    case Quasi(_, t) =>
      if "cons" in env || "append" in env || "list->vector" in env then Outside
      else EvalTmpl(nm, t, env, s, fuel)
  }

  function EvalAll(nm: Numerics, es: seq<Expr>, env: Env, s: Store, fuel: nat): (r: Results)
    ensures r.Val? ==> |r.value| == |es|
    decreases fuel, AllSize(es)
  {
    if es == [] then Val([], s)
    else
      match Eval(nm, es[0], env, s, fuel)
      case Val(v, s1) =>
        (match EvalAll(nm, es[1..], env, s1, fuel)
         case Val(vs, s2) => Val([v] + vs, s2)
         case r => r)
      case Failed => Failed
      case OutOfFuel => OutOfFuel
      case Outside => Outside
  }

  /** The value of the last expression; an empty body has an unspecified value. */
  function EvalBody(nm: Numerics, es: seq<Expr>, env: Env, s: Store, fuel: nat): Result_
    decreases fuel, AllSize(es)
  {
    if es == [] then Val(VVoid, s)
    else if |es| == 1 then Eval(nm, es[0], env, s, fuel)
    else
      match Eval(nm, es[0], env, s, fuel)
      case Val(_, s1) => EvalBody(nm, es[1..], env, s1, fuel)
      case r => r
  }

  /** A lambda in operator position is applied directly, without using up fuel. */
  function EvalApp(nm: Numerics, f: Expr, args: seq<Expr>, env: Env, s: Store, fuel: nat): Result_
    decreases fuel, Size(f) + AllSize(args) + 1
  {
    var g := Strip(f);
    if g.Lambda? then
      match EvalAll(nm, args, env, s, fuel)
      case Val(vs, s1) =>
        (match BindArgs(g.params, g.rest, vs, env, s1)
         case None => Failed
         case Some(fr) => EvalBlock(nm, g.block, fr.env, fr.store, fuel))
      case Failed => Failed
      case OutOfFuel => OutOfFuel
      case Outside => Outside
    else
      match Eval(nm, f, env, s, fuel)
      case Val(g, s1) =>
        (match EvalAll(nm, args, env, s1, fuel)
         case Val(vs, s2) => Apply(nm, g, vs, s2, fuel)
         case Failed => Failed
         case OutOfFuel => OutOfFuel
         case Outside => Outside)
      case r => r
  }

  function Apply(nm: Numerics, f: Val_, vs: seq<Val_>, s: Store, fuel: nat): Result_
    decreases fuel, 0
  {
    match f
    case VPrim(name) => ApplyPrim(nm, name, vs, s)
    case VProc(p) =>
      if fuel == 0 then OutOfFuel
      else
        (match BindArgs(p.params, p.rest, vs, p.env, s)
         case None => Failed
         case Some(fr) => EvalBlock(nm, p.block, fr.env, fr.store, fuel - 1))
    case _ => Failed
  }

  /** Locations for the internal definitions, if any, then their inits and the expressions. */
  function EvalBlock(nm: Numerics, b: Block, env: Env, s: Store, fuel: nat): Result_
    decreases fuel, BlockSize(b)
  {
    EvalDefs(nm, b.inits, b.exprs, |s|, BindNames(b.names, |s|, env), s + Holes(|b.names|), fuel)
  }

  /** Internal definitions are initialised one after another, as by `letrec*`. */
  function EvalDefs(nm: Numerics, inits: seq<Expr>, body: seq<Expr>, at: nat, env: Env, s: Store, fuel: nat): Result_
    decreases fuel, AllSize(inits) + AllSize(body) + 1
  {
    if inits == [] then EvalBody(nm, body, env, s, fuel)
    else
      match Eval(nm, inits[0], env, s, fuel)
      case Val(v, s1) =>
        if at >= |s1| then Failed else EvalDefs(nm, inits[1..], body, at + 1, env, s1[at := Has(v)], fuel)
      case r => r
  }

  function EvalLet(nm: Numerics, names: seq<string>, inits: seq<Expr>, body: Block, env: Env, s: Store, fuel: nat): Result_
    decreases fuel, AllSize(inits) + BlockSize(body) + 1
  {
    match EvalAll(nm, inits, env, s, fuel)
    case Val(vs, s1) => EvalBlock(nm, body, BindNames(names, |s1|, env), s1 + Cells(vs), fuel)
    case Failed => Failed
    case OutOfFuel => OutOfFuel
    case Outside => Outside
  }

  function EvalLetStar(nm: Numerics, names: seq<string>, inits: seq<Expr>, body: Block, env: Env, s: Store, fuel: nat): Result_
    decreases fuel, AllSize(inits) + BlockSize(body) + 1
  {
    if names == [] || inits == [] then EvalBlock(nm, body, env, s, fuel)
    else
      match Eval(nm, inits[0], env, s, fuel)
      case Val(v, s1) =>
        EvalLetStar(nm, names[1..], inits[1..], body, env[names[0] := |s1|], s1 + [Has(v)], fuel)
      case r => r
  }

  function EvalLetrec(nm: Numerics, names: seq<string>, inits: seq<Expr>, body: seq<Expr>, env: Env, s: Store, fuel: nat): Result_
    decreases fuel, AllSize(inits) + AllSize(body) + 1
  {
    var env1 := BindNames(names, |s|, env);
    match EvalAll(nm, inits, env1, s + Holes(|names|), fuel)
    case Val(vs, s1) =>
      if |s| + |vs| > |s1| then Failed else EvalBody(nm, body, env1, Initialise(s1, |s|, vs), fuel)
    case Failed => Failed
    case OutOfFuel => OutOfFuel
    case Outside => Outside
  }

  /** Named let: the inits are evaluated outside the scope of the procedure's name. */
  function EvalLoop(
    nm: Numerics, loop: string, names: seq<string>, inits: seq<Expr>, body: Block, env: Env, s: Store, fuel: nat): Result_
    decreases fuel, AllSize(inits) + 1
  {
    var p := VProc(Proc(names, None, body, env[loop := |s|]));
    match EvalAll(nm, inits, env, s + [Has(p)], fuel)
    case Val(vs, s1) => Apply(nm, p, vs, s1, fuel)
    case Failed => Failed
    case OutOfFuel => OutOfFuel
    case Outside => Outside
  }

  function EvalAnd(nm: Numerics, es: seq<Expr>, env: Env, s: Store, fuel: nat): Result_
    decreases fuel, AllSize(es)
  {
    if es == [] then Val(VBool(true), s)
    else if |es| == 1 then Eval(nm, es[0], env, s, fuel)
    else
      match Eval(nm, es[0], env, s, fuel)
      case Val(v, s1) => if IsTrue(v) then EvalAnd(nm, es[1..], env, s1, fuel) else Val(v, s1)
      case r => r
  }

  function EvalOr(nm: Numerics, es: seq<Expr>, env: Env, s: Store, fuel: nat): Result_
    decreases fuel, AllSize(es)
  {
    if es == [] then Val(VBool(false), s)
    else if |es| == 1 then Eval(nm, es[0], env, s, fuel)
    else
      match Eval(nm, es[0], env, s, fuel)
      case Val(v, s1) => if IsTrue(v) then Val(v, s1) else EvalOr(nm, es[1..], env, s1, fuel)
      case r => r
  }

  function EvalOtherwise(nm: Numerics, o: Otherwise, env: Env, s: Store, fuel: nat): Result_
    decreases fuel, OtherwiseSize(o)
  {
    match o
    case NoElse => Val(VVoid, s)
    case Else(body) => EvalBody(nm, body, env, s, fuel)
  }

  function EvalCond(nm: Numerics, cls: seq<Clause>, o: Otherwise, env: Env, s: Store, fuel: nat): Result_
    decreases fuel, ClausesSize(cls) + OtherwiseSize(o) + 1
  {
    if cls == [] then EvalOtherwise(nm, o, env, s, fuel)
    else
      assert ClauseSize(cls[0]) == 2 + Size(cls[0].test) + AllSize(cls[0].body);
      match Eval(nm, cls[0].test, env, s, fuel)
      case Val(v, s1) =>
        if IsTrue(v) then EvalBody(nm, cls[0].body, env, s1, fuel) else EvalCond(nm, cls[1..], o, env, s1, fuel)
      case r => r
  }

  function EvalCase(nm: Numerics, key: Val_, chs: seq<Choice>, o: Otherwise, env: Env, s: Store, fuel: nat): Result_
    decreases fuel, ChoicesSize(chs) + OtherwiseSize(o) + 1
  {
    if chs == [] then EvalOtherwise(nm, o, env, s, fuel)
    else if "eqv?" in env then Outside
    else
      assert ChoiceSize(chs[0]) == 2 + |chs[0].data| + AllSize(chs[0].body);
      match KeyMatches(key, chs[0].data)
      case Yes => EvalBody(nm, chs[0].body, env, s, fuel)
      case No => EvalCase(nm, key, chs[1..], o, env, s, fuel)
      case Unknown => Outside
  }

  /** Binding the variables of a `do` to their values, then one pass. */
  function EvalDo(nm: Numerics, e: Expr, vs: seq<Val_>, env: Env, s: Store, fuel: nat): Result_
    requires e.Do?
    decreases fuel, 0
  {
    if fuel == 0 then OutOfFuel
    else if |vs| != |e.names| then Failed
    else EvalPass(nm, e, env, BindNames(e.names, |s|, env), s + Cells(vs), fuel - 1)
  }

  /** The test, then either the exit or the commands, the steps and the passes after this one. */
  function EvalPass(nm: Numerics, e: Expr, env: Env, env1: Env, s: Store, fuel: nat): Result_
    requires e.Do?
    decreases fuel, Size(e)
  {
    match Eval(nm, e.test, env1, s, fuel)
    case Val(t, s1) =>
      if IsTrue(t) then EvalBody(nm, e.exits, env1, s1, fuel)
      else
        (match EvalCommands(nm, e.body, env1, s1, fuel)
         case Val(_, s2) =>
           (match EvalAll(nm, e.steps, env1, s2, fuel)
            case Val(vs1, s3) => EvalDo(nm, e, vs1, env, s3, fuel)
            case Failed => Failed
            case OutOfFuel => OutOfFuel
            case Outside => Outside)
         case r => r)
    case r => r
  }

  /** Expressions evaluated for their effects. */
  function EvalCommands(nm: Numerics, es: seq<Expr>, env: Env, s: Store, fuel: nat): Result_
    decreases fuel, AllSize(es)
  {
    if es == [] then Val(VVoid, s)
    else
      match Eval(nm, es[0], env, s, fuel)
      case Val(_, s1) => EvalCommands(nm, es[1..], env, s1, fuel)
      case r => r
  }

  /** A template with its unquotes filled in. */
  function EvalTmpl(nm: Numerics, t: Tmpl, env: Env, s: Store, fuel: nat): Result_
    decreases fuel, TmplSize(t)
  {
    match t
    case Constant(d) => Val(FromDatum(d), s)
    case Unquoted(_, e) => Eval(nm, e, env, s, fuel)
    case Listed(elems, tail) => EvalElems(nm, elems, tail, env, s, fuel)
    case Vectored(elems) =>
      match EvalElems(nm, elems, None, env, s, fuel)
      case Val(v, s1) =>
        (match ListItems(v)
         case None => Failed
         case Some(items) => Val(VVector(items), s1))
      case r => r
  }

  function TailSize(tail: Option<Tmpl>): nat {
    if tail.None? then 0 else TmplSize(tail.value)
  }

  /** The list of the elements' values, splices concatenated, ending in the tail. */
  function EvalElems(nm: Numerics, xs: seq<Elem>, tail: Option<Tmpl>, env: Env, s: Store, fuel: nat): Result_
    decreases fuel, ElemsSize(xs) + TailSize(tail) + 1
  {
    if xs == [] then
      if tail.None? then Val(VNil, s) else EvalTmpl(nm, tail.value, env, s, fuel)
    else
      match EvalElem(nm, xs[0], env, s, fuel)
      case Val(v, s1) =>
        (match EvalElems(nm, xs[1..], tail, env, s1, fuel)
         case Val(rest, s2) =>
           if xs[0].One? then Val(VPair(v, rest), s2)
           else
             (match Append(v, rest)
              case None => Failed
              case Some(joined) => Val(joined, s2))
         case r => r)
      case r => r
  }

  function EvalElem(nm: Numerics, x: Elem, env: Env, s: Store, fuel: nat): Result_
    decreases fuel, ElemSize(x)
  {
    match x
    case One(t) => EvalTmpl(nm, t, env, s, fuel)
    case Splice(_, e) => Eval(nm, e, env, s, fuel)
  }
}
