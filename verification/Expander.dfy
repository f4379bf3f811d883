/**
 The expander (eta/core/src/eta/reader/expander.cpp): derived forms to core forms, and
 quasiquote. Without macros the expander's only state that shows in the output is the gensym
 counter `n`; `d` is the depth limit less the current depth. Internal defines are rewritten to
 letrec, as in the default configuration.
 */
module Expanders {
  import opened Wrappers
  import opened SExprs
  import opened SyntaxRules

  datatype ExpandError =
    | InvalidSyntax | DuplicateIdentifier | InvalidLetBindings | ReservedKeyword | ArityError
    | ExpansionDepthExceeded | NotModelled

  datatype Expanded<+T> = Expanded(value: T, counter: nat)

  type Expansion = Result<Expanded<SExpr>, ExpandError>
  type Expansions = Result<Expanded<seq<SExpr>>, ExpandError>

  predicate IsReserved(name: string) {
    name in {
      "quote", "if", "begin", "lambda", "define", "set!",
      "let", "let*", "letrec", "cond", "and", "or",
      "quasiquote", "unquote", "unquote-splicing",
      "module", "import", "export", "define-syntax", "prefix",
      "call-with-current-continuation", "call/cc", "dynamic-wind",
      "values", "call-with-values",
      "case", "do", "when", "unless",
      "def", "defun", "progn",
      "define-record-type",
      "catch", "raise",
      "logic-var", "unify", "deref-lvar", "trail-mark", "unwind-trail", "copy-term"}
  }

  /** Heads with a handler of their own that the model leaves out. */
  predicate IsOtherSpecial(name: string) {
    name in {
      "letrec*", "module", "export", "import", "def", "defun",
      "define-record-type", "define-syntax", "catch", "raise",
      "logic-var", "unify", "deref-lvar", "trail-mark", "unwind-trail", "copy-term"}
  }

  /** Heads that are not applied as procedures. */
  predicate IsSpecial(name: string) {
    IsOtherSpecial(name) || name in {
      "quote", "quasiquote", "unquote", "unquote-splicing", "if", "begin", "lambda", "define", "set!",
      "let", "let*", "letrec", "cond", "case", "and", "or", "when", "unless", "do", "progn"}
  }

  // ---- Building forms ----

  function Form(keyword: string, rest: seq<SExpr>): SExpr {
    Proper([Sym(keyword)] + rest)
  }

  function MakeIf(test: SExpr, yes: SExpr, no: SExpr): SExpr {
    Form("if", [test, yes, no])
  }

  function MakeBegin(body: seq<SExpr>): SExpr {
    Form("begin", body)
  }

  function MakeQuote(datum: SExpr): SExpr {
    Form("quote", [datum])
  }

  function MakeSet(name: SExpr, value: SExpr): SExpr {
    Form("set!", [name, value])
  }

  function MakeLambda(formals: SExpr, body: seq<SExpr>): SExpr {
    Form("lambda", [formals] + body)
  }

  datatype Pair = Pair(name: string, init: SExpr)

  function BindingList(pairs: seq<Pair>): seq<SExpr> {
    if pairs == [] then [] else [Proper([Sym(pairs[0].name), pairs[0].init])] + BindingList(pairs[1..])
  }

  function Symbols(names: seq<string>): (xs: seq<SExpr>)
    ensures |xs| == |names| && forall i :: 0 <= i < |names| ==> xs[i] == Sym(names[i])
  {
    seq(|names|, i requires 0 <= i < |names| => Sym(names[i]))
  }

  function NamesOf(pairs: seq<Pair>): seq<string> {
    seq(|pairs|, i requires 0 <= i < |pairs| => pairs[i].name)
  }

  // ---- Identifiers ----

  /** Names must be unreserved and, against those seen so far, new. */
  function ValidateNames(names: seq<string>, seen: set<string>): Option<ExpandError> {
    if names == [] then None
    else if IsReserved(names[0]) then Some(ReservedKeyword)
    else if names[0] in seen then Some(DuplicateIdentifier)
    else ValidateNames(names[1..], seen + {names[0]})
  }

  datatype Formals = Formals(fixed: seq<string>, rest: Option<string>)

  /** The leading symbols of a list; fewer than its length when something else is met. */
  function LeadingSymbols(xs: seq<SExpr>): (names: seq<string>)
    ensures |names| <= |xs|
  {
    if xs == [] || !xs[0].Sym? then [] else [xs[0].name] + LeadingSymbols(xs[1..])
  }

  /** Parameters are checked in turn, so a reserved or repeated one wins over a later non-symbol. */
  function ParseFormals(node: SExpr): Result<Formals, ExpandError> {
    if node.Sym? then
      if IsReserved(node.name) then Err(ReservedKeyword) else Ok(Formals([], Some(node.name)))
    else if !node.List? then Err(InvalidSyntax)
    else
      var fixed := LeadingSymbols(node.elems);
      match ValidateNames(fixed, {})
      case Some(e) => Err(e)
      case None =>
        if |fixed| < |node.elems| then Err(InvalidSyntax)
        else if node.tail.None? then Ok(Formals(fixed, None))
        else if !node.tail.value.Sym? then Err(InvalidSyntax)
        else
          var rest := node.tail.value.name;
          if IsReserved(rest) then Err(ReservedKeyword)
          else if rest in fixed then Err(DuplicateIdentifier)
          else Ok(Formals(fixed, Some(rest)))
  }

  /** The pairs of a let-like form; every fault counts as bad bindings. */
  function ParseLetPairs(xs: seq<SExpr>, seen: set<string>): (r: Result<seq<Pair>, ExpandError>)
    ensures r.Ok? ==> |r.value| == |xs|
  {
    if xs == [] then Ok([])
    else
      var p := xs[0];
      if !p.List? || p.tail.Some? || |p.elems| != 2 || !p.elems[0].Sym? then Err(InvalidLetBindings)
      else
        var name := p.elems[0].name;
        if IsReserved(name) || name in seen then Err(InvalidLetBindings)
        else
          match ParseLetPairs(xs[1..], seen + {name})
          case Err(e) => Err(e)
          case Ok(rest) => Ok([Pair(name, p.elems[1])] + rest)
  }

  /** The formals of `(define (f . formals) ...)`. */
  function SignatureFormals(sig: SExpr): SExpr
    requires sig.List? && |sig.elems| > 0
  {
    if |sig.elems| == 1 && sig.tail.Some? && sig.tail.value.Sym? then sig.tail.value
    else List(sig.elems[1..], sig.tail)
  }

  predicate IsDefine(f: SExpr) {
    f.List? && |f.elems| > 0 && IsSymbolNamed(f.elems[0], "define")
  }

  function DefinedPair(f: SExpr): Result<Pair, ExpandError>
    requires IsDefine(f)
  {
    if |f.elems| < 3 then Err(InvalidSyntax)
    else if f.elems[1].Sym? then
      if IsReserved(f.elems[1].name) then Err(ReservedKeyword) else Ok(Pair(f.elems[1].name, f.elems[2]))
    else if !f.elems[1].List? then Err(InvalidSyntax)
    else
      var sig := f.elems[1];
      if |sig.elems| == 0 || !sig.elems[0].Sym? then Err(InvalidSyntax)
      else if IsReserved(sig.elems[0].name) then Err(ReservedKeyword)
      else Ok(Pair(sig.elems[0].name, MakeLambda(SignatureFormals(sig), f.elems[2..])))
  }

  /** The leading defines of a body. */
  function LeadingDefines(body: seq<SExpr>): (r: Result<seq<Pair>, ExpandError>)
    ensures r.Ok? ==> |r.value| <= |body|
  {
    if body == [] || !IsDefine(body[0]) then Ok([])
    else
      match DefinedPair(body[0])
      case Err(e) => Err(e)
      case Ok(p) =>
        match LeadingDefines(body[1..])
        case Err(e) => Err(e)
        case Ok(rest) => Ok([p] + rest)
  }

  /** `(letrec ((name init) ...) rest ...)` when the body starts with defines. */
  function RewriteDefines(body: seq<SExpr>): Result<Option<SExpr>, ExpandError> {
    match LeadingDefines(body)
    case Err(e) => Err(e)
    case Ok(defs) =>
      if defs == [] then Ok(None)
      else Ok(Some(Form("letrec", [Proper(BindingList(defs))] + body[|defs|..])))
  }

  // ---- Forms ----

  function ExpandForm(session: string, x: SExpr, d: nat, n: nat): Expansion
    decreases d, 0
  {
    if d == 0 then Err(ExpansionDepthExceeded)
    else
      match x
      case Reader(Quote, e) => Ok(Expanded(MakeQuote(e), n))
      case Reader(Quasiquote, e) => ExpandQuasiquote(session, e, 1, d - 1, n)
      case Reader(_, _) => Err(InvalidSyntax)
      case List(elems, tail) => ExpandApplication(session, x, d - 1, n)
      case _ => Ok(Expanded(x, n))
  }

  function ExpandAll(session: string, xs: seq<SExpr>, d: nat, n: nat): (r: Expansions)
    ensures r.Ok? ==> |r.value.value| == |xs|
    decreases d, 1, |xs|
  {
    if xs == [] then Ok(Expanded([], n))
    else
      match ExpandForm(session, xs[0], d, n)
      case Err(e) => Err(e)
      case Ok(y) =>
        match ExpandAll(session, xs[1..], d, y.counter)
        case Err(e) => Err(e)
        case Ok(ys) => Ok(Expanded([y.value] + ys.value, ys.counter))
  }

  function ExpandApplication(session: string, x: SExpr, d: nat, n: nat): Expansion
    requires x.List?
    decreases d, 9
  {
    var xs := x.elems;
    if xs == [] then Ok(Expanded(Proper([]), n))
    else if xs[0].Sym? && IsSpecial(xs[0].name) then Special(session, xs[0].name, xs, d, n)
    else if x.tail.Some? then Err(InvalidSyntax)
    else
      match ExpandAll(session, xs, d, n)
      case Err(e) => Err(e)
      case Ok(ys) => Ok(Expanded(Proper(ys.value), ys.counter))
  }

  function Special(session: string, head: string, xs: seq<SExpr>, d: nat, n: nat): Expansion
    requires xs != []
    decreases d, 8
  {
    if head == "quote" || head == "quasiquote" || head == "unquote" || head == "unquote-splicing" then
      HandleQuoteLike(session, head, xs, d, n)
    else if head == "if" then HandleIf(session, xs, d, n)
    else if head == "begin" || head == "progn" then HandleBegin(session, xs, d, n)
    else if head == "lambda" then HandleLambda(session, xs, d, n)
    else if head == "define" then HandleDefine(session, xs, d, n)
    else if head == "set!" then HandleSet(session, xs, d, n)
    else if head == "let" then HandleLet(session, xs, d, n)
    else if head == "let*" then HandleLetStar(session, xs, d, n)
    else if head == "letrec" then HandleLetrec(session, xs, d, n)
    else if head == "cond" then HandleCond(session, xs, d, n)
    else if head == "case" then HandleCase(session, xs, d, n)
    else if head == "and" then HandleAnd(session, xs[1..], d, n)
    else if head == "or" then HandleOr(session, xs[1..], d, n)
    else if head == "when" || head == "unless" then HandleWhen(session, head == "when", xs, d, n)
    else if head == "do" then HandleDo(session, xs, d, n)
    else Err(NotModelled)
  }

  function HandleQuoteLike(session: string, head: string, xs: seq<SExpr>, d: nat, n: nat): Expansion
    decreases d, 7
  {
    if |xs| != 2 then Err(ArityError)
    else if head == "quote" then Ok(Expanded(MakeQuote(xs[1]), n))
    else if head == "quasiquote" then ExpandQuasiquote(session, xs[1], 1, d, n)
    else Err(InvalidSyntax)
  }

  function HandleIf(session: string, xs: seq<SExpr>, d: nat, n: nat): Expansion
    decreases d, 7
  {
    if |xs| < 3 || |xs| > 4 then Err(InvalidSyntax)
    else
      match ExpandAll(session, xs[1..], d, n)
      case Err(e) => Err(e)
      case Ok(ys) =>
        Ok(Expanded(Proper([xs[0]] + ys.value + (if |xs| == 3 then [MakeBegin([])] else [])), ys.counter))
  }

  /** The head stays as written: `progn` is not renamed. */
  function HandleBegin(session: string, xs: seq<SExpr>, d: nat, n: nat): Expansion
    requires xs != []
    decreases d, 7
  {
    match ExpandAll(session, xs[1..], d, n)
    case Err(e) => Err(e)
    case Ok(ys) => Ok(Expanded(Proper([xs[0]] + ys.value), ys.counter))
  }

  function HandleDefine(session: string, xs: seq<SExpr>, d: nat, n: nat): Expansion
    decreases d, 7
  {
    if |xs| < 3 then Err(InvalidSyntax)
    else if xs[1].Sym? then
      if IsReserved(xs[1].name) then Err(ReservedKeyword)
      else
        match ExpandForm(session, xs[2], d, n)
        case Err(e) => Err(e)
        case Ok(rhs) => Ok(Expanded(Form("define", [xs[1], rhs.value]), rhs.counter))
    else if !xs[1].List? then Err(InvalidSyntax)
    else
      var sig := xs[1];
      if |sig.elems| == 0 || !sig.elems[0].Sym? then Err(InvalidSyntax)
      else if IsReserved(sig.elems[0].name) then Err(ReservedKeyword)
      else
        match HandleLambda(session, MakeLambda(SignatureFormals(sig), xs[2..]).elems, d, n)
        case Err(e) => Err(e)
        case Ok(lam) => Ok(Expanded(Form("define", [Sym(sig.elems[0].name), lam.value]), lam.counter))
  }

  function HandleSet(session: string, xs: seq<SExpr>, d: nat, n: nat): Expansion
    decreases d, 7
  {
    if |xs| != 3 || !xs[1].Sym? then Err(InvalidSyntax)
    else
      match ExpandForm(session, xs[2], d, n)
      case Err(e) => Err(e)
      case Ok(rhs) => Ok(Expanded(MakeSet(xs[1], rhs.value), rhs.counter))
  }

  /** Each parameter uses up one gensym for its lexical identity. */
  function HandleLambda(session: string, xs: seq<SExpr>, d: nat, n: nat): Expansion
    decreases d, 2
  {
    if |xs| < 3 then Err(InvalidSyntax)
    else
      match ParseFormals(xs[1])
      case Err(e) => Err(e)
      case Ok(fm) =>
        var n1 := n + |fm.fixed| + (if fm.rest.Some? then 1 else 0);
        match RewriteDefines(xs[2..])
        case Err(e) => Err(e)
        case Ok(Some(letrec)) =>
          (match ExpandForm(session, letrec, d, n1)
           case Err(e) => Err(e)
           case Ok(inner) => Ok(Expanded(MakeLambda(xs[1], [inner.value]), inner.counter)))
        case Ok(None) =>
          match ExpandAll(session, xs[2..], d, n1)
          case Err(e) => Err(e)
          case Ok(body) => Ok(Expanded(MakeLambda(xs[1], body.value), body.counter))
  }

  function Inits(pairs: seq<Pair>): seq<SExpr> {
    seq(|pairs|, i requires 0 <= i < |pairs| => pairs[i].init)
  }

  /** `(let ((x e) ...) body ...)`: inits first, then the lambda, applied directly. */
  function RegularLet(session: string, bindings: seq<SExpr>, body: seq<SExpr>, d: nat, n: nat): Expansion
    decreases d, 3
  {
    match ParseLetPairs(bindings, {})
    case Err(e) => Err(e)
    case Ok(pairs) =>
      match ExpandAll(session, Inits(pairs), d, n)
      case Err(e) => Err(e)
      case Ok(inits) =>
        match HandleLambda(session, MakeLambda(Proper(Symbols(NamesOf(pairs))), body).elems, d, inits.counter)
        case Err(e) => Err(e)
        case Ok(lam) => Ok(Expanded(Proper([lam.value] + inits.value), lam.counter))
  }

  function Sets(names: seq<string>, values: seq<SExpr>): seq<SExpr>
    requires |names| == |values|
  {
    seq(|names|, i requires 0 <= i < |names| => MakeSet(Sym(names[i]), values[i]))
  }

  function Placeholders(names: seq<string>): seq<Pair> {
    seq(|names|, i requires 0 <= i < |names| => Pair(names[i], Nil))
  }

  /** Placeholders bound by a let, assignments in order, then the body; all of it expanded again. */
  function HandleLetrec(session: string, xs: seq<SExpr>, d: nat, n: nat): Expansion
    decreases d, 4
  {
    if |xs| < 3 || !xs[1].List? then Err(InvalidSyntax)
    else
      match ParseLetPairs(xs[1].elems, {})
      case Err(e) => Err(e)
      case Ok(pairs) =>
        match ExpandAll(session, Inits(pairs), d, n)
        case Err(e) => Err(e)
        case Ok(inits) =>
          match ExpandAll(session, xs[2..], d, inits.counter)
          case Err(e) => Err(e)
          case Ok(body) =>
            var names := NamesOf(pairs);
            RegularLet(session, BindingList(Placeholders(names)),
              [MakeBegin(Sets(names, inits.value) + body.value)], d, body.counter)
  }

  function NamedLet(session: string, name: string, bindings: seq<SExpr>, body: seq<SExpr>, d: nat, n: nat): Expansion
    decreases d, 5
  {
    match ParseLetPairs(bindings, {})
    case Err(e) => Err(e)
    case Ok(pairs) =>
      var names := NamesOf(pairs);
      if name in names then Err(InvalidLetBindings)
      else
        match ExpandAll(session, Inits(pairs), d, n)
        case Err(e) => Err(e)
        case Ok(inits) =>
          match HandleLambda(session, MakeLambda(Proper(Symbols(names)), body).elems, d, inits.counter)
          case Err(e) => Err(e)
          case Ok(lam) =>
            HandleLetrec(session,
              Form("letrec", [Proper(BindingList([Pair(name, lam.value)])), Proper([Sym(name)] + inits.value)]).elems,
              d, lam.counter)
  }

  function HandleLet(session: string, xs: seq<SExpr>, d: nat, n: nat): Expansion
    decreases d, 6
  {
    if |xs| >= 3 && xs[1].Sym? && xs[2].List? then NamedLet(session, xs[1].name, xs[2].elems, xs[3..], d, n)
    else if |xs| < 3 || !xs[1].List? then Err(InvalidSyntax)
    else RegularLet(session, xs[1].elems, xs[2..], d, n)
  }

  /**
   One pair is peeled off; the rest stays a `let*` in the body of the let. A first binding that
   is no list of at least two elements is undefined behaviour in the source.
   */
  function HandleLetStar(session: string, xs: seq<SExpr>, d: nat, n: nat): Expansion
    decreases d, 7
  {
    if |xs| < 3 || !xs[1].List? then Err(InvalidSyntax)
    else if xs[1].elems == [] then HandleLet(session, Form("let", [Proper([])] + xs[2..]).elems, d, n)
    else
      var first := xs[1].elems[0];
      if !first.List? || |first.elems| < 2 then Err(NotModelled)
      else
        var inner := Form("let*", [Proper(xs[1].elems[1..])] + xs[2..]);
        HandleLet(session, Form("let", [Proper([Proper([first.elems[0], first.elems[1]])]), inner]).elems, d, n)
  }

  function HandleCond(session: string, xs: seq<SExpr>, d: nat, n: nat): Expansion
    decreases d, 7
  {
    if |xs| < 2 then Err(InvalidSyntax) else CondFrom(session, xs, 1, d, n)
  }

  /** The expansion of the clauses from `i` on; the last clause is expanded first. */
  function CondFrom(session: string, xs: seq<SExpr>, i: nat, d: nat, n: nat): Expansion
    requires i <= |xs|
    decreases d, 6, |xs| - i
  {
    if i == |xs| then Ok(Expanded(MakeBegin([]), n))
    else
      match CondFrom(session, xs, i + 1, d, n)
      case Err(e) => Err(e)
      case Ok(rest) => CondClause(session, xs[i], i + 1 == |xs|, rest.value, d, rest.counter)
  }

  function CondClause(session: string, clause: SExpr, last: bool, rest: SExpr, d: nat, n: nat): Expansion
    decreases d, 5
  {
    if !clause.List? || clause.elems == [] then Err(InvalidSyntax)
    else
      var cs := clause.elems;
      if IsSymbolNamed(cs[0], "else") then
        if !last || |cs| < 2 then Err(InvalidSyntax) else Sequence(session, cs[1..], d, n)
      else
        match ExpandForm(session, cs[0], d, n)
        case Err(e) => Err(e)
        case Ok(test) =>
          if |cs| == 3 && IsSymbolNamed(cs[1], "=>") then
            match ExpandForm(session, cs[2], d, test.counter)
            case Err(e) => Err(e)
            case Ok(proc) =>
              var t := Sym(Gensym("t", session, proc.counter));
              Ok(Expanded(Form("let", [Proper([Proper([t, test.value])]),
                MakeIf(t, Proper([proc.value, t]), rest)]), proc.counter + 1))
          else if |cs| == 1 then Ok(Expanded(MakeIf(test.value, cs[0], rest), test.counter))
          else
            match Sequence(session, cs[1..], d, test.counter)
            case Err(e) => Err(e)
            case Ok(body) => Ok(Expanded(MakeIf(test.value, body.value, rest), body.counter))
  }

  /** `(begin body ...)` of the expanded body. */
  function Sequence(session: string, body: seq<SExpr>, d: nat, n: nat): Expansion
    decreases d, 2
  {
    match ExpandAll(session, body, d, n)
    case Err(e) => Err(e)
    case Ok(ys) => Ok(Expanded(MakeBegin(ys.value), ys.counter))
  }

  function HandleCase(session: string, xs: seq<SExpr>, d: nat, n: nat): Expansion
    decreases d, 7
  {
    if |xs| < 2 then Err(InvalidSyntax)
    else
      match ExpandForm(session, xs[1], d, n)
      case Err(e) => Err(e)
      case Ok(key) =>
        var tmp := Gensym("case-key", session, key.counter);
        match CaseFrom(session, tmp, xs, 2, d, key.counter + 1)
        case Err(e) => Err(e)
        case Ok(rest) =>
          RegularLet(session, BindingList([Pair(tmp, key.value)]), [rest.value], d, rest.counter)
  }

  function CaseFrom(session: string, tmp: string, xs: seq<SExpr>, i: nat, d: nat, n: nat): Expansion
    requires i <= |xs|
    decreases d, 6, |xs| - i
  {
    if i == |xs| then Ok(Expanded(MakeBegin([]), n))
    else
      match CaseFrom(session, tmp, xs, i + 1, d, n)
      case Err(e) => Err(e)
      case Ok(rest) => CaseClause(session, tmp, xs[i], i + 1 == |xs|, rest.value, d, rest.counter)
  }

  function EqvTest(tmp: string, datum: SExpr): SExpr {
    Form("eqv?", [Sym(tmp), MakeQuote(datum)])
  }

  function EqvTests(tmp: string, data: seq<SExpr>): seq<SExpr> {
    seq(|data|, i requires 0 <= i < |data| => EqvTest(tmp, data[i]))
  }

  /** The test is left unexpanded here: the enclosing let expands it. */
  function CaseClause(session: string, tmp: string, clause: SExpr, last: bool, rest: SExpr, d: nat, n: nat): Expansion
    decreases d, 5
  {
    if !clause.List? || clause.elems == [] then Err(InvalidSyntax)
    else
      var cs := clause.elems;
      if IsSymbolNamed(cs[0], "else") then
        if !last || |cs| < 2 then Err(InvalidSyntax) else Sequence(session, cs[1..], d, n)
      else if !cs[0].List? || cs[0].elems == [] then Err(InvalidSyntax)
      else
        var data := cs[0].elems;
        var test := if |data| == 1 then EqvTest(tmp, data[0]) else Form("or", EqvTests(tmp, data));
        match Sequence(session, cs[1..], d, n)
        case Err(e) => Err(e)
        case Ok(body) => Ok(Expanded(MakeIf(test, body.value, rest), body.counter))
  }

  /** The operands of `and`. */
  function HandleAnd(session: string, es: seq<SExpr>, d: nat, n: nat): Expansion
    decreases d, 7, |es|
  {
    if es == [] then Ok(Expanded(Bool(true), n))
    else if |es| == 1 then ExpandForm(session, es[0], d, n)
    else
      match ExpandForm(session, es[0], d, n)
      case Err(e) => Err(e)
      case Ok(test) =>
        match HandleAnd(session, es[1..], d, test.counter)
        case Err(e) => Err(e)
        case Ok(rest) => Ok(Expanded(MakeIf(test.value, rest.value, Bool(false)), rest.counter))
  }

  /** The operands of `or`; the temporary is bound by a let that expands everything once more. */
  function HandleOr(session: string, es: seq<SExpr>, d: nat, n: nat): Expansion
    decreases d, 7, |es|
  {
    if es == [] then Ok(Expanded(Bool(false), n))
    else if |es| == 1 then ExpandForm(session, es[0], d, n)
    else
      match ExpandForm(session, es[0], d, n)
      case Err(e) => Err(e)
      case Ok(init) =>
        var t := Gensym("or", session, init.counter);
        match HandleOr(session, es[1..], d, init.counter + 1)
        case Err(e) => Err(e)
        case Ok(rest) =>
          RegularLet(session, BindingList([Pair(t, init.value)]),
            [MakeIf(Sym(t), Sym(t), rest.value)], d, rest.counter)
  }

  function HandleWhen(session: string, positive: bool, xs: seq<SExpr>, d: nat, n: nat): Expansion
    decreases d, 7
  {
    if |xs| < 2 then Err(InvalidSyntax)
    else
      match ExpandForm(session, xs[1], d, n)
      case Err(e) => Err(e)
      case Ok(test) =>
        match Sequence(session, xs[2..], d, test.counter)
        case Err(e) => Err(e)
        case Ok(body) =>
          Ok(Expanded(
            if positive then MakeIf(test.value, body.value, MakeBegin([]))
            else MakeIf(test.value, MakeBegin([]), body.value), body.counter))
  }

  datatype DoVar = DoVar(name: string, init: SExpr, step: SExpr)

  function ParseDoVars(xs: seq<SExpr>, seen: set<string>): (r: Result<seq<DoVar>, ExpandError>)
    ensures r.Ok? ==> |r.value| == |xs|
  {
    if xs == [] then Ok([])
    else
      var v := xs[0];
      if !v.List? || |v.elems| < 2 || |v.elems| > 3 || !v.elems[0].Sym? then Err(InvalidSyntax)
      else
        var name := v.elems[0].name;
        if IsReserved(name) then Err(ReservedKeyword)
        else if name in seen then Err(DuplicateIdentifier)
        else
          match ParseDoVars(xs[1..], seen + {name})
          case Err(e) => Err(e)
          case Ok(rest) =>
            Ok([DoVar(name, v.elems[1], if |v.elems| == 3 then v.elems[2] else Sym(name))] + rest)
  }

  function DoNames(vars: seq<DoVar>): seq<string> {
    seq(|vars|, i requires 0 <= i < |vars| => vars[i].name)
  }

  function DoInits(vars: seq<DoVar>): seq<SExpr> {
    seq(|vars|, i requires 0 <= i < |vars| => vars[i].init)
  }

  function DoSteps(vars: seq<DoVar>): seq<SExpr> {
    seq(|vars|, i requires 0 <= i < |vars| => vars[i].step)
  }

  /** `(lambda (var ...) (if test (begin exit ...) (begin body ... (loop step ...))))` */
  function DoLambda(loop: string, vars: seq<DoVar>, test: SExpr, exits: seq<SExpr>, body: seq<SExpr>): SExpr {
    MakeLambda(Proper(Symbols(DoNames(vars))),
      [MakeIf(test, MakeBegin(exits), MakeBegin(body + [Proper([Sym(loop)] + DoSteps(vars))]))])
  }

  function HandleDo(session: string, xs: seq<SExpr>, d: nat, n: nat): Expansion
    decreases d, 7
  {
    if |xs| < 3 || !xs[1].List? || !xs[2].List? || xs[2].elems == [] then Err(InvalidSyntax)
    else
      match ParseDoVars(xs[1].elems, {})
      case Err(e) => Err(e)
      case Ok(vars) =>
        var loop := Gensym("do-loop", session, n);
        var lam := DoLambda(loop, vars, xs[2].elems[0], xs[2].elems[1..], xs[3..]);
        HandleLetrec(session,
          Form("letrec", [Proper(BindingList([Pair(loop, lam)])), Proper([Sym(loop)] + DoInits(vars))]).elems, d, n + 1)
  }

  // ---- Quasiquote ----

  datatype QqHead = NoHead | Head(kind: QuoteKind, arg: SExpr)

  /** A list spelled like a quote form. */
  function ListHead(elems: seq<SExpr>, tail: Option<SExpr>): QqHead {
    if tail.Some? || |elems| != 2 || !elems[0].Sym? then NoHead
    else if elems[0].name == "quote" then Head(Quote, elems[1])
    else if elems[0].name == "quasiquote" then Head(Quasiquote, elems[1])
    else if elems[0].name == "unquote" then Head(Unquote, elems[1])
    else if elems[0].name == "unquote-splicing" then Head(UnquoteSplicing, elems[1])
    else NoHead
  }

  function HeadOf(x: SExpr): (h: QqHead)
    ensures h.Head? ==> h.arg < x
  {
    match x
    case Reader(kind, e) => Head(kind, e)
    case List(elems, tail) => ListHead(elems, tail)
    case _ => NoHead
  }

  function ExpandQuasiquote(session: string, x: SExpr, depth: nat, d: nat, n: nat): Expansion
    decreases d, 6, x, 2
  {
    match x
    case Reader(kind, e) => QuasiHead(session, x, kind, e, depth, d, n)
    case List(elems, tail) => QuasiOfList(session, x, elems, tail, depth, d, n)
    case Vector(items) =>
      (match QuasiOfList(session, x, items, None, depth, d, n)
       case Err(e) => Err(e)
       case Ok(list) => Ok(Expanded(Form("list->vector", [list.value]), list.counter)))
    case _ => Ok(Expanded(MakeQuote(x), n))
  }

  /** A quote form met inside a template. */
  function QuasiHead(session: string, x: SExpr, kind: QuoteKind, arg: SExpr, depth: nat, d: nat, n: nat): Expansion
    requires arg < x
    decreases d, 6, x, 0
  {
    match kind
    case Quote => Ok(Expanded(if x.Vector? then Proper(x.items) else x, n))
    case Quasiquote => ExpandQuasiquote(session, arg, depth + 1, d, n)
    case Unquote =>
      if depth == 0 then Err(InvalidSyntax)
      else if depth == 1 then ExpandForm(session, arg, d, n)
      else
        (match ExpandQuasiquote(session, arg, depth - 1, d, n)
         case Err(e) => Err(e)
         case Ok(y) => Ok(Expanded(Form("unquote", [y.value]), y.counter)))
    case UnquoteSplicing =>
      if depth <= 1 then Err(InvalidSyntax)
      else
        match ExpandQuasiquote(session, arg, depth - 1, d, n)
        case Err(e) => Err(e)
        case Ok(y) => Ok(Expanded(Form("unquote-splicing", [y.value]), y.counter))
  }

  /** A list, or a vector's elements as a list; `x` is the node they come from. */
  function QuasiOfList(
    session: string, x: SExpr, elems: seq<SExpr>, tail: Option<SExpr>, depth: nat, d: nat, n: nat): Expansion
    requires (x == List(elems, tail)) || (x == Vector(elems) && tail.None?)
    decreases d, 6, x, 1
  {
    var h := ListHead(elems, tail);
    if h.Head? then QuasiHead(session, x, h.kind, h.arg, depth, d, n)
    else if tail.None? then QuasiElements(session, x, elems, 0, Expanded(MakeQuote(Proper([])), n), depth, d)
    else if HeadOf(tail.value).Head? && HeadOf(tail.value).kind.UnquoteSplicing? && depth == 1 then Err(InvalidSyntax)
    else
      match ExpandQuasiquote(session, tail.value, depth, d, n)
      case Err(e) => Err(e)
      case Ok(rest) => QuasiElements(session, x, elems, 0, rest, depth, d)
  }

  /** The elements from `i` on, consed or appended to `rest`; the last element is expanded first. */
  function QuasiElements(
    session: string, x: SExpr, elems: seq<SExpr>, i: nat, rest: Expanded<SExpr>, depth: nat, d: nat): Expansion
    requires i <= |elems| && ((x.List? && x.elems == elems) || (x.Vector? && x.items == elems))
    decreases d, 6, x, 0, |elems| - i
  {
    if i == |elems| then Ok(rest)
    else
      match QuasiElements(session, x, elems, i + 1, rest, depth, d)
      case Err(e) => Err(e)
      case Ok(more) => QuasiElement(session, elems[i], more.value, depth, d, more.counter)
  }

  function QuasiElement(session: string, e: SExpr, rest: SExpr, depth: nat, d: nat, n: nat): Expansion
    decreases d, 6, e, 3
  {
    if HeadOf(e).Head? && HeadOf(e).kind.UnquoteSplicing? && depth == 1 then
      match ExpandForm(session, HeadOf(e).arg, d, n)
      case Err(err) => Err(err)
      case Ok(y) => Ok(Expanded(Form("append", [y.value, rest]), y.counter))
    else
      match ExpandQuasiquote(session, e, depth, d, n)
      case Err(err) => Err(err)
      case Ok(y) => Ok(Expanded(Form("cons", [y.value, rest]), y.counter))
  }
}
