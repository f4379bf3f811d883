/**
 Macro patterns and templates: `collect_pattern_vars`, `match_pattern` and
 `instantiate_template` of eta/core/src/eta/reader/expander.cpp.
 */
module SyntaxRules {
  import opened Wrappers
  import opened SExprs
  import opened Numerals

  /** A list pattern with an ellipsis is kept as the parts before it, under it and after it. */
  datatype Pattern =
    | PatVar(name: string)
    | PatUnderscore
    | PatLiteral(identity: string)
    | PatDatum(datum: SExpr)
    | PatList(elems: seq<Pattern>)
    | PatEllipsis(before: seq<Pattern>, repeated: Pattern, after: seq<Pattern>)

  datatype Template =
    | TmplVar(name: string)
    | TmplDatum(datum: SExpr)
    | TmplSymbol(name: string)
    | TmplList(elems: seq<Template>)
    | TmplEllipsis(before: seq<Template>, repeated: Template, after: seq<Template>)

  datatype Binding = Single(value: SExpr) | Repeated(values: seq<SExpr>)

  type MatchEnv = map<string, Binding>

  /** Binding identities of names, and when two floating-point texts denote equal numbers. */
  datatype Matcher = Matcher(identity: string -> string, sameReal: (string, string) -> bool)

  datatype TemplateError = UnboundPatternVariable | EllipsisVariableOutsideEllipsis

  // ---- Pattern variables ----

  function PatternVars(p: Pattern): set<string> {
    match p
    case PatVar(n) => {n}
    case PatList(elems) => AllVars(elems)
    case PatEllipsis(before, repeated, after) => AllVars(before) + AllVars(after) + PatternVars(repeated)
    case _ => {}
  }

  function AllVars(ps: seq<Pattern>): set<string> {
    if ps == [] then {} else PatternVars(ps[0]) + AllVars(ps[1..])
  }

  method CollectPatternVars(p: Pattern, out0: set<string>) returns (out: set<string>)
    ensures out == out0 + PatternVars(p)
    decreases p
  {
    out := out0;
    match p {
      case PatVar(n) =>
        out := out + {n};
      case PatList(elems) =>
        out := CollectAll(elems, out);
      case PatEllipsis(before, repeated, after) =>
        out := CollectAll(before, out);
        out := CollectAll(after, out);
        out := CollectPatternVars(repeated, out);
      case _ =>
    }
  }

  method CollectAll(ps: seq<Pattern>, out0: set<string>) returns (out: set<string>)
    ensures out == out0 + AllVars(ps)
    decreases ps
  {
    out := out0;
    var i := 0;
    while i < |ps|
      invariant 0 <= i <= |ps|
      invariant out + AllVars(ps[i..]) == out0 + AllVars(ps)
    {
      out := CollectPatternVars(ps[i], out);
      assert ps[i..][1..] == ps[i + 1..];
      i := i + 1;
    }
  }

  // ---- Matching ----

  function DatumEqual(mt: Matcher, a: SExpr, b: SExpr): bool {
    match (a, b)
    case (Bool(x), Bool(y)) => x == y
    case (Num(Fixnum(x)), Num(Fixnum(y))) => x == y
    case (Num(Flonum(x)), Num(Flonum(y))) => mt.sameReal(x, y)
    case (Char(x), Char(y)) => x == y
    case (Str(x), Str(y)) => x == y
    case _ => false
  }

  /** The datum a sub-match bound; a nested ellipsis leaves a null pointer there, written Nil. */
  function SingleOf(b: Binding): SExpr {
    if b.Single? then b.value else Nil
  }

  /** Fresh repeated bindings for the variables under an ellipsis. */
  function Emptied(env: MatchEnv, vars: set<string>): MatchEnv {
    env + map n | n in vars :: Repeated([])
  }

  /** One more repetition: every variable it bound is pushed onto its repeated binding. */
  function Collect(env: MatchEnv, sub: MatchEnv, vars: set<string>): MatchEnv {
    map n | n in env ::
      if n in sub && n in vars && env[n].Repeated? then Repeated(env[n].values + [SingleOf(sub[n])]) else env[n]
  }

  function Match(mt: Matcher, p: Pattern, x: SExpr, env: MatchEnv): Option<MatchEnv>
    decreases p, 0
  {
    match p
    case PatVar(n) => Some(env[n := Single(x)])
    case PatUnderscore => Some(env)
    case PatLiteral(identity) => if x.Sym? && mt.identity(x.name) == identity then Some(env) else None
    case PatDatum(d) => if DatumEqual(mt, d, x) then Some(env) else None
    case PatList(elems) =>
      if !x.List? || x.tail.Some? || |x.elems| != |elems| then None
      else MatchAll(mt, elems, x.elems, env)
    case PatEllipsis(before, repeated, after) =>
      if !x.List? || x.tail.Some? || |x.elems| < |before| + |after| then None
      else
        var end := |x.elems| - |after|;
        match MatchAll(mt, before, x.elems[..|before|], env)
        case None => None
        case Some(env1) =>
          var vars := PatternVars(repeated);
          match MatchRepeats(mt, repeated, vars, x.elems[|before|..end], Emptied(env1, vars))
          case None => None
          case Some(env2) => MatchAll(mt, after, x.elems[end..], env2)
  }

  function MatchAll(mt: Matcher, ps: seq<Pattern>, xs: seq<SExpr>, env: MatchEnv): Option<MatchEnv>
    requires |ps| == |xs|
    decreases ps, 0
  {
    if ps == [] then Some(env)
    else
      match Match(mt, ps[0], xs[0], env)
      case None => None
      case Some(env1) => MatchAll(mt, ps[1..], xs[1..], env1)
  }

  function MatchRepeats(mt: Matcher, p: Pattern, vars: set<string>, xs: seq<SExpr>, env: MatchEnv): Option<MatchEnv>
    decreases p, |xs| + 1
  {
    if xs == [] then Some(env)
    else
      match Match(mt, p, xs[0], map[])
      case None => None
      case Some(sub) => MatchRepeats(mt, p, vars, xs[1..], Collect(env, sub, vars))
  }

  method MatchPattern(mt: Matcher, p: Pattern, input: SExpr, env0: MatchEnv) returns (ok: bool, env: MatchEnv)
    ensures ok <==> Match(mt, p, input, env0).Some?
    ensures ok ==> Match(mt, p, input, env0) == Some(env)
    decreases p, 0
  {
    hide MatchAll, MatchRepeats, DatumEqual, Emptied;
    env := env0;
    match p {
      case PatVar(n) =>
        return true, env[n := Single(input)];
      case PatUnderscore =>
        return true, env;
      case PatLiteral(identity) =>
        return input.Sym? && mt.identity(input.name) == identity, env;
      case PatDatum(datum) =>
        return DatumEqual(mt, datum, input), env;
      case PatList(elems) =>
        if !input.List? || input.tail.Some? || |input.elems| != |elems| {
          return false, env;
        }
        ok, env := MatchEach(mt, elems, input.elems, env);
      case PatEllipsis(before, repeated, after) =>
        if !input.List? || input.tail.Some? || |input.elems| < |before| + |after| {
          return false, env;
        }
        var end := |input.elems| - |after|;
        ok, env := MatchEach(mt, before, input.elems[..|before|], env);
        if !ok {
          return;
        }
        var vars := CollectPatternVars(repeated, {});
        assert vars == PatternVars(repeated);
        env := Emptied(env, vars);
        ok, env := MatchRepetitions(mt, repeated, vars, input.elems[|before|..end], env);
        if !ok {
          return;
        }
        ok, env := MatchEach(mt, after, input.elems[end..], env);
    }
  }

  method MatchEach(mt: Matcher, ps: seq<Pattern>, xs: seq<SExpr>, env0: MatchEnv) returns (ok: bool, env: MatchEnv)
    requires |ps| == |xs|
    ensures ok <==> MatchAll(mt, ps, xs, env0).Some?
    ensures ok ==> MatchAll(mt, ps, xs, env0) == Some(env)
    decreases ps, 0
  {
    env := env0;
    var i := 0;
    while i < |ps|
      invariant 0 <= i <= |ps|
      invariant MatchAll(mt, ps, xs, env0) == MatchAll(mt, ps[i..], xs[i..], env)
    {
      assert ps[i..][1..] == ps[i + 1..] && xs[i..][1..] == xs[i + 1..];
      ok, env := MatchPattern(mt, ps[i], xs[i], env);
      if !ok {
        return;
      }
      i := i + 1;
    }
    ok := true;
  }

  method MatchRepetitions(mt: Matcher, p: Pattern, vars: set<string>, xs: seq<SExpr>, env0: MatchEnv)
    returns (ok: bool, env: MatchEnv)
    ensures ok <==> MatchRepeats(mt, p, vars, xs, env0).Some?
    ensures ok ==> MatchRepeats(mt, p, vars, xs, env0) == Some(env)
    decreases p, |xs| + 1
  {
    env := env0;
    var r := 0;
    while r < |xs|
      invariant 0 <= r <= |xs|
      invariant MatchRepeats(mt, p, vars, xs, env0) == MatchRepeats(mt, p, vars, xs[r..], env)
    {
      assert xs[r..][1..] == xs[r + 1..];
      var sub;
      ok, sub := MatchPattern(mt, p, xs[r], map[]);
      if !ok {
        return;
      }
      env := Collect(env, sub, vars);
      r := r + 1;
    }
    ok := true;
  }

  // ---- Instantiating ----

  predicate IsStructuralKeyword(name: string) {
    name in {
      "if", "begin", "lambda", "define", "set!", "quote", "let", "let*",
      "letrec", "letrec*", "cond", "case", "and", "or", "when", "unless",
      "do", "quasiquote", "unquote", "unquote-splicing",
      "module", "import", "export", "define-syntax", "define-record-type",
      "def", "defun", "progn", "catch", "raise",
      "logic-var", "unify", "deref-lvar", "trail-mark", "unwind-trail", "copy-term"}
  }

  /**
   What a template is instantiated in. `first` is the order of the hash map: the ellipsis
   variable an iteration over an environment meets first.
   */
  datatype Context = Context(
    definitions: map<string, string>, macros: set<string>, session: string, first: MatchEnv -> string)

  ghost predicate HasEllipsisVar(env: MatchEnv) {
    exists k :: k in env && env[k].Repeated?
  }

  ghost predicate IsOrder(first: MatchEnv -> string) {
    forall env: MatchEnv :: HasEllipsisVar(env) ==> first(env) in env && env[first(env)].Repeated?
  }

  /** Names introduced so far by one instantiation, and the gensym counter. */
  datatype Renaming = Renaming(names: map<string, string>, counter: nat)

  function Gensym(hint: string, session: string, counter: nat): string {
    hint + ":" + session + ":" + Decimal(counter + 1)
  }

  datatype Instance<+T> = Instance(value: T, renaming: Renaming)

  /** Keywords, definition-site names and macros stay; other names are renamed, once each. */
  function SymbolFor(cx: Context, name: string, rn: Renaming): Instance<SExpr> {
    if IsStructuralKeyword(name) then Instance(Sym(name), rn)
    else if name in cx.definitions then Instance(Sym(cx.definitions[name]), rn)
    else if name in cx.macros then Instance(Sym(name), rn)
    else if name in rn.names then Instance(Sym(rn.names[name]), rn)
    else
      var introduced := Gensym(name, cx.session, rn.counter);
      Instance(Sym(introduced), Renaming(rn.names[name := introduced], rn.counter + 1))
  }

  /** The repeat count is that of the first ellipsis variable, whatever the sub-template uses. */
  function RepeatCount(cx: Context, env: MatchEnv): nat {
    var k := cx.first(env);
    if k in env && env[k].Repeated? then |env[k].values| else 0
  }

  /** The environment of one repetition. */
  function Repetition(env: MatchEnv, r: nat): MatchEnv {
    map k | k in env :: Single(
      match env[k]
      case Single(v) => v
      case Repeated(vs) => if r < |vs| then vs[r] else Nil)
  }

  function Instantiate(cx: Context, t: Template, env: MatchEnv, rn: Renaming): Result<Instance<SExpr>, TemplateError>
    decreases t, 0
  {
    match t
    case TmplVar(n) =>
      if n !in env then Err(UnboundPatternVariable)
      else if env[n].Repeated? then Err(EllipsisVariableOutsideEllipsis)
      else Ok(Instance(env[n].value, rn))
    case TmplDatum(d) => Ok(Instance(d, rn))
    case TmplSymbol(n) => Ok(SymbolFor(cx, n, rn))
    case TmplList(elems) =>
      (match InstantiateAll(cx, elems, env, rn)
       case Err(e) => Err(e)
       case Ok(i) => Ok(Instance(Proper(i.value), i.renaming)))
    case TmplEllipsis(before, repeated, after) =>
      match InstantiateAll(cx, before, env, rn)
      case Err(e) => Err(e)
      case Ok(b) =>
        match InstantiateRepeats(cx, repeated, env, 0, RepeatCount(cx, env), b.renaming)
        case Err(e) => Err(e)
        case Ok(m) =>
          match InstantiateAll(cx, after, env, m.renaming)
          case Err(e) => Err(e)
          case Ok(a) => Ok(Instance(Proper(b.value + m.value + a.value), a.renaming))
  }

  function InstantiateAll(cx: Context, ts: seq<Template>, env: MatchEnv, rn: Renaming)
    : (r: Result<Instance<seq<SExpr>>, TemplateError>)
    ensures r.Ok? ==> |r.value.value| == |ts|
    decreases ts, 0
  {
    if ts == [] then Ok(Instance([], rn))
    else
      match Instantiate(cx, ts[0], env, rn)
      case Err(e) => Err(e)
      case Ok(x) =>
        match InstantiateAll(cx, ts[1..], env, x.renaming)
        case Err(e) => Err(e)
        case Ok(xs) => Ok(Instance([x.value] + xs.value, xs.renaming))
  }

  /** Repetitions `r` up to `n`. */
  function InstantiateRepeats(cx: Context, t: Template, env: MatchEnv, r: nat, n: nat, rn: Renaming)
    : (res: Result<Instance<seq<SExpr>>, TemplateError>)
    requires r <= n
    ensures res.Ok? ==> |res.value.value| == n - r
    decreases t, n - r + 1
  {
    if r == n then Ok(Instance([], rn))
    else
      match Instantiate(cx, t, Repetition(env, r), rn)
      case Err(e) => Err(e)
      case Ok(x) =>
        match InstantiateRepeats(cx, t, env, r + 1, n, x.renaming)
        case Err(e) => Err(e)
        case Ok(xs) => Ok(Instance([x.value] + xs.value, xs.renaming))
  }

  /** `renames` and the gensym counter are updated along the way. */
  method InstantiateTemplate(cx: Context, t: Template, env: MatchEnv, rn0: Renaming)
    returns (out: Result<SExpr, TemplateError>, rn: Renaming)
    ensures out.Ok? ==> Instantiate(cx, t, env, rn0) == Ok(Instance(out.value, rn))
    ensures out.Err? ==> Instantiate(cx, t, env, rn0) == Err(out.error)
    decreases t, 0
  {
    rn := rn0;
    match t {
      case TmplVar(n) =>
        if n !in env {
          return Err(UnboundPatternVariable), rn;
        }
        if env[n].Repeated? {
          return Err(EllipsisVariableOutsideEllipsis), rn;
        }
        return Ok(env[n].value), rn;
      case TmplDatum(d) =>
        return Ok(d), rn;
      case TmplSymbol(n) =>
        if IsStructuralKeyword(n) {
          return Ok(Sym(n)), rn;
        }
        if n in cx.definitions {
          return Ok(Sym(cx.definitions[n])), rn;
        }
        if n in cx.macros {
          return Ok(Sym(n)), rn;
        }
        if n !in rn.names {
          var introduced := Gensym(n, cx.session, rn.counter);
          rn := Renaming(rn.names[n := introduced], rn.counter + 1);
        }
        return Ok(Sym(rn.names[n])), rn;
      case TmplList(elems) =>
        var xs;
        xs, rn := InstantiateEach(cx, elems, env, rn, []);
        if xs.Err? {
          return Err(xs.error), rn;
        }
        AppendedToNothing(InstantiateAll(cx, elems, env, rn0));
        return Ok(Proper(xs.value)), rn;
      case TmplEllipsis(before, repeated, after) =>
        var xs;
        xs, rn := InstantiateEach(cx, before, env, rn, []);
        if xs.Err? {
          return Err(xs.error), rn;
        }
        xs, rn := InstantiateRepetitions(cx, repeated, env, rn, xs.value);
        if xs.Err? {
          return Err(xs.error), rn;
        }
        xs, rn := InstantiateEach(cx, after, env, rn, xs.value);
        if xs.Err? {
          return Err(xs.error), rn;
        }
        AppendedToNothing(InstantiateAll(cx, before, env, rn0));
        return Ok(Proper(xs.value)), rn;
    }
  }

  lemma AppendedToNothing(r: Result<Instance<seq<SExpr>>, TemplateError>)
    ensures Appended([], r) == r
  {
    if r.Ok? {
      assert [] + r.value.value == r.value.value;
    }
  }

  /** What a loop that appends to `done` makes of the rest. */
  function Appended(done: seq<SExpr>, r: Result<Instance<seq<SExpr>>, TemplateError>): Result<Instance<seq<SExpr>>, TemplateError> {
    match r
    case Err(e) => Err(e)
    case Ok(i) => Ok(Instance(done + i.value, i.renaming))
  }

  method InstantiateEach(cx: Context, ts: seq<Template>, env: MatchEnv, rn0: Renaming, done: seq<SExpr>)
    returns (out: Result<seq<SExpr>, TemplateError>, rn: Renaming)
    ensures out.Ok? ==> Appended(done, InstantiateAll(cx, ts, env, rn0)) == Ok(Instance(out.value, rn))
    ensures out.Err? ==> InstantiateAll(cx, ts, env, rn0) == Err(out.error)
    decreases ts, 0
  {
    hide Instantiate;
    rn := rn0;
    var result := done;
    var i := 0;
    while i < |ts|
      invariant 0 <= i <= |ts|
      invariant Appended(done, InstantiateAll(cx, ts, env, rn0)) == Appended(result, InstantiateAll(cx, ts[i..], env, rn))
    {
      assert ts[i..][1..] == ts[i + 1..];
      var x;
      ghost var rn1 := rn;
      x, rn := InstantiateTemplate(cx, ts[i], env, rn);
      if x.Err? {
        return Err(x.error), rn;
      }
      AppendedOne(result, x.value, InstantiateAll(cx, ts[i + 1..], env, rn));
      result := result + [x.value];
      i := i + 1;
    }
    assert result + [] == result;
    out := Ok(result);
  }

  method InstantiateRepetitions(cx: Context, t: Template, env: MatchEnv, rn0: Renaming, done: seq<SExpr>)
    returns (out: Result<seq<SExpr>, TemplateError>, rn: Renaming)
    ensures out.Ok? ==>
      Appended(done, InstantiateRepeats(cx, t, env, 0, RepeatCount(cx, env), rn0)) == Ok(Instance(out.value, rn))
    ensures out.Err? ==> InstantiateRepeats(cx, t, env, 0, RepeatCount(cx, env), rn0) == Err(out.error)
    decreases t, 1
  {
    hide Instantiate;
    rn := rn0;
    var result := done;
    var n := RepeatCount(cx, env);
    var r := 0;
    while r < n
      invariant 0 <= r <= n
      invariant Appended(done, InstantiateRepeats(cx, t, env, 0, n, rn0))
        == Appended(result, InstantiateRepeats(cx, t, env, r, n, rn))
    {
      var x;
      x, rn := InstantiateTemplate(cx, t, Repetition(env, r), rn);
      if x.Err? {
        return Err(x.error), rn;
      }
      AppendedOne(result, x.value, InstantiateRepeats(cx, t, env, r + 1, n, rn));
      result := result + [x.value];
      r := r + 1;
    }
    assert result + [] == result;
    out := Ok(result);
  }

  lemma AppendedOne(done: seq<SExpr>, x: SExpr, r: Result<Instance<seq<SExpr>>, TemplateError>)
    ensures r.Ok? ==> Appended(done, Ok(Instance([x] + r.value.value, r.value.renaming))) == Appended(done + [x], r)
  {
    if r.Ok? {
      assert done + ([x] + r.value.value) == (done + [x]) + r.value.value;
    }
  }
}
