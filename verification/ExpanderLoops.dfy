/**
 The expander as an object: its depth and its gensym counter change as it works. Formals, bindings,
 internal defines and `do` variables are read in loops, and the clauses of `cond` and `case` and the
 elements of a quasiquoted list are expanded in loops, last one first.
 */
module ExpanderLoops {
  import opened Wrappers
  import opened SExprs
  import opened SyntaxRules
  import opened Expanders

  type Outcome_ = Result<SExpr, ExpandError>

  /** What is known of a list once its first forms are expanded to `ys`. */
  function After(ys: seq<SExpr>, e: Expansions): Expansions {
    match e
    case Err(why) => Err(why)
    case Ok(more) => Ok(Expanded(ys + more.value, more.counter))
  }

  lemma NothingBefore(e: Expansions)
    ensures After([], e) == e
  {
    if e.Ok? {
      assert [] + e.value.value == e.value.value;
    }
  }

  lemma OneMoreAfter(ys: seq<SExpr>, y: SExpr, e: Expansions)
    ensures After(ys, After([y], e)) == After(ys + [y], e)
  {
    if e.Ok? {
      assert ys + ([y] + e.value.value) == (ys + [y]) + e.value.value;
    }
  }

  // ---- What a failing element does to a whole list ----

  lemma {:induction false} CondFailsEarlier(session: string, xs: seq<SExpr>, i: nat, j: nat, d: nat, n: nat)
    requires i <= j <= |xs| && CondFrom(session, xs, j, d, n).Err?
    ensures CondFrom(session, xs, i, d, n) == CondFrom(session, xs, j, d, n)
    decreases j - i
  {
    hide CondClause;
    if i < j {
      CondFailsEarlier(session, xs, i + 1, j, d, n);
    }
  }

  lemma {:induction false} CaseFailsEarlier(session: string, tmp: string, xs: seq<SExpr>, i: nat, j: nat, d: nat, n: nat)
    requires i <= j <= |xs| && CaseFrom(session, tmp, xs, j, d, n).Err?
    ensures CaseFrom(session, tmp, xs, i, d, n) == CaseFrom(session, tmp, xs, j, d, n)
    decreases j - i
  {
    hide CaseClause;
    if i < j {
      CaseFailsEarlier(session, tmp, xs, i + 1, j, d, n);
    }
  }

  lemma {:induction false} ElementsFailEarlier(
    session: string, x: SExpr, elems: seq<SExpr>, i: nat, j: nat, rest: Expanded<SExpr>, depth: nat, d: nat)
    requires i <= j <= |elems| && ((x.List? && x.elems == elems) || (x.Vector? && x.items == elems))
    requires QuasiElements(session, x, elems, j, rest, depth, d).Err?
    ensures QuasiElements(session, x, elems, i, rest, depth, d) == QuasiElements(session, x, elems, j, rest, depth, d)
    decreases j - i
  {
    hide QuasiElement;
    if i < j {
      ElementsFailEarlier(session, x, elems, i + 1, j, rest, depth, d);
    }
  }

  // ---- Reading formals, bindings and defines ----

  /** What is known of a list once its first items are read as `out`. */
  function Joined<T>(out: seq<T>, more: Result<seq<T>, ExpandError>): Result<seq<T>, ExpandError> {
    match more
    case Err(why) => Err(why)
    case Ok(rest) => Ok(out + rest)
  }

  lemma NothingJoined<T>(more: Result<seq<T>, ExpandError>)
    ensures Joined([], more) == more
  {
    if more.Ok? {
      assert [] + more.value == more.value;
    }
  }

  lemma OneMoreJoined<T>(out: seq<T>, x: T, more: Result<seq<T>, ExpandError>)
    ensures Joined(out, Joined([x], more)) == Joined(out + [x], more)
  {
    if more.Ok? {
      assert out + ([x] + more.value) == (out + [x]) + more.value;
    }
  }

  method ValidateIdentifier(name: string, seen: set<string>) returns (e: Option<ExpandError>)
    ensures e == if IsReserved(name) then Some(ReservedKeyword)
                 else if name in seen then Some(DuplicateIdentifier) else None
  {
    if IsReserved(name) {
      return Some(ReservedKeyword);
    }
    return if name in seen then Some(DuplicateIdentifier) else None;
  }

  /** What the parameters of a list come to, against the names seen before them. */
  function Fixed(xs: seq<SExpr>, seen: set<string>): Result<seq<string>, ExpandError> {
    var names := LeadingSymbols(xs);
    match ValidateNames(names, seen)
    case Some(e) => Err(e)
    case None => if |names| < |xs| then Err(InvalidSyntax) else Ok(names)
  }

  lemma OneMoreFixed(xs: seq<SExpr>, seen: set<string>)
    requires xs != [] && xs[0].Sym? && !IsReserved(xs[0].name) && xs[0].name !in seen
    ensures Fixed(xs, seen) == Joined([xs[0].name], Fixed(xs[1..], seen + {xs[0].name}))
  {
    hide IsReserved;
    assert LeadingSymbols(xs)[1..] == LeadingSymbols(xs[1..]);
  }

  method ReadFixed(xs: seq<SExpr>) returns (r: Result<seq<string>, ExpandError>, seen: set<string>)
    ensures r == Fixed(xs, {})
    ensures r.Ok? ==> seen == set n | n in r.value
  {
    hide IsReserved;
    var fixed: seq<string> := [];
    seen := {};
    var i := 0;
    assert xs[0..] == xs;
    NothingJoined(Fixed(xs, {}));
    while i < |xs|
      invariant 0 <= i <= |xs| && seen == set n | n in fixed
      invariant Fixed(xs, {}) == Joined(fixed, Fixed(xs[i..], seen))
    {
      assert xs[i..][1..] == xs[i + 1..];
      if !xs[i].Sym? {
        return Err(InvalidSyntax), seen;
      }
      var name := xs[i].name;
      var fault := ValidateIdentifier(name, seen);
      if fault.Some? {
        return Err(fault.value), seen;
      }
      OneMoreFixed(xs[i..], seen);
      OneMoreJoined(fixed, name, Fixed(xs[i + 1..], seen + {name}));
      fixed, seen := fixed + [name], seen + {name};
      i := i + 1;
    }
    assert fixed + [] == fixed;
    r := Ok(fixed);
  }

  method ReadFormals(node: SExpr) returns (r: Result<Formals, ExpandError>)
    ensures r == ParseFormals(node)
  {
    hide IsReserved, LeadingSymbols, ValidateNames;
    if node.Sym? {
      return if IsReserved(node.name) then Err(ReservedKeyword) else Ok(Formals([], Some(node.name)));
    }
    if !node.List? {
      return Err(InvalidSyntax);
    }
    var fixed, seen := ReadFixed(node.elems);
    if fixed.Err? {
      return Err(fixed.error);
    }
    if node.tail.None? {
      return Ok(Formals(fixed.value, None));
    }
    if !node.tail.value.Sym? {
      return Err(InvalidSyntax);
    }
    var fault := ValidateIdentifier(node.tail.value.name, seen);
    if fault.Some? {
      return Err(fault.value);
    }
    return Ok(Formals(fixed.value, Some(node.tail.value.name)));
  }

  method ReadPairs(xs: seq<SExpr>) returns (r: Result<seq<Pair>, ExpandError>)
    ensures r == ParseLetPairs(xs, {})
  {
    hide IsReserved;
    var out: seq<Pair>, seen: set<string> := [], {};
    var i := 0;
    assert xs[0..] == xs;
    NothingJoined(ParseLetPairs(xs, {}));
    while i < |xs|
      invariant 0 <= i <= |xs|
      invariant ParseLetPairs(xs, {}) == Joined(out, ParseLetPairs(xs[i..], seen))
    {
      assert xs[i..][1..] == xs[i + 1..];
      var p := xs[i];
      if !p.List? || p.tail.Some? || |p.elems| != 2 || !p.elems[0].Sym? {
        return Err(InvalidLetBindings);
      }
      var name := p.elems[0].name;
      var fault := ValidateIdentifier(name, seen);
      if fault.Some? {
        return Err(InvalidLetBindings);
      }
      OneMoreJoined(out, Pair(name, p.elems[1]), ParseLetPairs(xs[i + 1..], seen + {name}));
      out, seen := out + [Pair(name, p.elems[1])], seen + {name};
      i := i + 1;
    }
    assert out + [] == out;
    return Ok(out);
  }

  method ReadDoVars(xs: seq<SExpr>) returns (r: Result<seq<DoVar>, ExpandError>)
    ensures r == ParseDoVars(xs, {})
  {
    hide IsReserved;
    var out: seq<DoVar>, seen: set<string> := [], {};
    var i := 0;
    assert xs[0..] == xs;
    NothingJoined(ParseDoVars(xs, {}));
    while i < |xs|
      invariant 0 <= i <= |xs|
      invariant ParseDoVars(xs, {}) == Joined(out, ParseDoVars(xs[i..], seen))
    {
      assert xs[i..][1..] == xs[i + 1..];
      var v := xs[i];
      if !v.List? || |v.elems| < 2 || |v.elems| > 3 || !v.elems[0].Sym? {
        return Err(InvalidSyntax);
      }
      var name := v.elems[0].name;
      var fault := ValidateIdentifier(name, seen);
      if fault.Some? {
        return Err(fault.value);
      }
      var x := DoVar(name, v.elems[1], if |v.elems| == 3 then v.elems[2] else Sym(name));
      OneMoreJoined(out, x, ParseDoVars(xs[i + 1..], seen + {name}));
      out, seen := out + [x], seen + {name};
      i := i + 1;
    }
    assert out + [] == out;
    return Ok(out);
  }

  /** The leading defines of a body, as one letrec around what follows them. */
  method RewriteInternalDefines(body: seq<SExpr>) returns (r: Result<Option<SExpr>, ExpandError>)
    ensures r == RewriteDefines(body)
  {
    hide DefinedPair;
    var defs: seq<Pair> := [];
    var i := 0;
    assert body[0..] == body;
    NothingJoined(LeadingDefines(body));
    while i < |body| && IsDefine(body[i])
      invariant 0 <= i == |defs| <= |body|
      invariant LeadingDefines(body) == Joined(defs, LeadingDefines(body[i..]))
    {
      assert body[i..][1..] == body[i + 1..];
      var p := DefinedPair(body[i]);
      if p.Err? {
        return Err(p.error);
      }
      OneMoreJoined(defs, p.value, LeadingDefines(body[i + 1..]));
      defs := defs + [p.value];
      i := i + 1;
    }
    assert defs + [] == defs;
    if defs == [] {
      return Ok(None);
    }
    return Ok(Some(Form("letrec", [Proper(BindingList(defs))] + body[i..])));
  }

  class Expander {
    const session: string
    const limit: nat
    var depth: nat
    var counter: nat

    constructor (session: string, limit: nat)
      ensures this.session == session && this.limit == limit && depth == 0 && counter == 0
    {
      this.session, this.limit := session, limit;
      depth, counter := 0, 0;
    }

    ghost predicate Valid()
      reads this
    {
      depth <= limit
    }

    function Left(): nat
      requires Valid()
      reads this
    {
      limit - depth
    }

    /** The object did what the function says. */
    ghost predicate Gave<T>(r: Result<T, ExpandError>, e: Result<Expanded<T>, ExpandError>)
      reads this
    {
      match e
      case Ok(y) => r == Ok(y.value) && counter == y.counter
      case Err(why) => r == Err(why)
    }

    method Expand(x: SExpr) returns (r: Outcome_)
      requires Valid()
      modifies this`depth, this`counter
      ensures depth == old(depth)
      ensures Gave(r, ExpandForm(session, x, old(Left()), old(counter)))
      decreases limit - depth, 0
    {
      hide Special, ExpandAll, ExpandQuasiquote;
      if depth + 1 > limit {
        return Err(ExpansionDepthExceeded);
      }
      depth := depth + 1;
      match x {
        case Reader(Quote, e) => r := Ok(MakeQuote(e));
        case Reader(Quasiquote, e) => r := Quasiquote(e, 1);
        case Reader(_, _) => r := Err(InvalidSyntax);
        case List(_, _) => r := Application(x);
        case _ => r := Ok(x);
      }
      depth := depth - 1;
    }

    method ExpandEach(xs: seq<SExpr>) returns (r: Result<seq<SExpr>, ExpandError>)
      requires Valid()
      modifies this`depth, this`counter
      ensures depth == old(depth)
      ensures Gave(r, ExpandAll(session, xs, old(Left()), old(counter)))
      decreases limit - depth, 1
    {
      hide ExpandForm;
      ghost var d, whole := Left(), ExpandAll(session, xs, Left(), counter);
      var ys: seq<SExpr> := [];
      var i := 0;
      assert xs[0..] == xs;
      NothingBefore(whole);
      while i < |xs|
        invariant i <= |xs| && depth == old(depth)
        invariant whole == After(ys, ExpandAll(session, xs[i..], d, counter))
      {
        assert xs[i..][1..] == xs[i + 1..];
        var y := Expand(xs[i]);
        if y.Err? {
          return Err(y.error);
        }
        OneMoreAfter(ys, y.value, ExpandAll(session, xs[i + 1..], d, counter));
        ys := ys + [y.value];
        i := i + 1;
      }
      assert ys + [] == ys;
      return Ok(ys);
    }

    method Application(x: SExpr) returns (r: Outcome_)
      requires Valid() && x.List?
      modifies this`depth, this`counter
      ensures depth == old(depth)
      ensures Gave(r, ExpandApplication(session, x, old(Left()), old(counter)))
      decreases limit - depth, 9
    {
      hide ExpandAll, Special;
      var xs := x.elems;
      if xs == [] {
        return Ok(Proper([]));
      }
      if xs[0].Sym? && IsSpecial(xs[0].name) {
        r := SpecialForm(xs[0].name, xs);
        return;
      }
      if x.tail.Some? {
        return Err(InvalidSyntax);
      }
      var ys := ExpandEach(xs);
      if ys.Err? {
        return Err(ys.error);
      }
      return Ok(Proper(ys.value));
    }

    method SpecialForm(head: string, xs: seq<SExpr>) returns (r: Outcome_)
      requires Valid() && xs != []
      modifies this`depth, this`counter
      ensures depth == old(depth)
      ensures Gave(r, Special(session, head, xs, old(Left()), old(counter)))
      decreases limit - depth, 8
    {
      hide HandleQuoteLike, HandleIf, HandleBegin, HandleLambda, HandleDefine, HandleSet, HandleLet, HandleLetStar, HandleLetrec,
        HandleCond, HandleCase, HandleAnd, HandleOr, HandleWhen, HandleDo;
      match head {
        case "quote" | "quasiquote" | "unquote" | "unquote-splicing" => r := QuoteLike(head, xs);
        case "if" => r := If(xs);
        case "begin" | "progn" => r := Begin(xs);
        case "lambda" => r := Lambda(xs);
        case "define" => r := Define(xs);
        case "set!" => r := Assign(xs);
        case "let" => r := Let(xs);
        case "let*" => r := LetStar(xs);
        case "letrec" => r := Letrec(xs);
        case "cond" => r := Cond(xs);
        case "case" => r := Case(xs);
        case "and" => r := And(xs[1..]);
        case "or" => r := Or(xs[1..]);
        case "when" => r := When(true, xs);
        case "unless" => r := When(false, xs);
        case "do" => r := Do(xs);
        case _ => r := Err(NotModelled);
      }
    }

    method QuoteLike(head: string, xs: seq<SExpr>) returns (r: Outcome_)
      requires Valid()
      modifies this`depth, this`counter
      ensures depth == old(depth)
      ensures Gave(r, HandleQuoteLike(session, head, xs, old(Left()), old(counter)))
      decreases limit - depth, 7
    {
      hide ExpandQuasiquote;
      if |xs| != 2 {
        return Err(ArityError);
      }
      if head == "quote" {
        return Ok(MakeQuote(xs[1]));
      }
      if head == "quasiquote" {
        r := Quasiquote(xs[1], 1);
        return;
      }
      return Err(InvalidSyntax);
    }

    method If(xs: seq<SExpr>) returns (r: Outcome_)
      requires Valid()
      modifies this`depth, this`counter
      ensures depth == old(depth)
      ensures Gave(r, HandleIf(session, xs, old(Left()), old(counter)))
      decreases limit - depth, 7
    {
      hide ExpandAll;
      if |xs| < 3 || |xs| > 4 {
        return Err(InvalidSyntax);
      }
      var ys := ExpandEach(xs[1..]);
      if ys.Err? {
        return Err(ys.error);
      }
      return Ok(Proper([xs[0]] + ys.value + (if |xs| == 3 then [MakeBegin([])] else [])));
    }

    method Begin(xs: seq<SExpr>) returns (r: Outcome_)
      requires Valid() && xs != []
      modifies this`depth, this`counter
      ensures depth == old(depth)
      ensures Gave(r, HandleBegin(session, xs, old(Left()), old(counter)))
      decreases limit - depth, 7
    {
      hide ExpandAll;
      var ys := ExpandEach(xs[1..]);
      if ys.Err? {
        return Err(ys.error);
      }
      return Ok(Proper([xs[0]] + ys.value));
    }

    method Define(xs: seq<SExpr>) returns (r: Outcome_)
      requires Valid()
      modifies this`depth, this`counter
      ensures depth == old(depth)
      ensures Gave(r, HandleDefine(session, xs, old(Left()), old(counter)))
      decreases limit - depth, 7
    {
      hide ExpandForm, HandleLambda, IsReserved;
      if |xs| < 3 {
        return Err(InvalidSyntax);
      }
      if xs[1].Sym? {
        if IsReserved(xs[1].name) {
          return Err(ReservedKeyword);
        }
        var rhs := Expand(xs[2]);
        if rhs.Err? {
          return rhs;
        }
        return Ok(Form("define", [xs[1], rhs.value]));
      }
      if !xs[1].List? {
        return Err(InvalidSyntax);
      }
      var sig := xs[1];
      if |sig.elems| == 0 || !sig.elems[0].Sym? {
        return Err(InvalidSyntax);
      }
      if IsReserved(sig.elems[0].name) {
        return Err(ReservedKeyword);
      }
      var lam := Lambda(MakeLambda(SignatureFormals(sig), xs[2..]).elems);
      if lam.Err? {
        return lam;
      }
      return Ok(Form("define", [Sym(sig.elems[0].name), lam.value]));
    }

    method Assign(xs: seq<SExpr>) returns (r: Outcome_)
      requires Valid()
      modifies this`depth, this`counter
      ensures depth == old(depth)
      ensures Gave(r, HandleSet(session, xs, old(Left()), old(counter)))
      decreases limit - depth, 7
    {
      hide ExpandForm;
      if |xs| != 3 || !xs[1].Sym? {
        return Err(InvalidSyntax);
      }
      var rhs := Expand(xs[2]);
      if rhs.Err? {
        return rhs;
      }
      return Ok(MakeSet(xs[1], rhs.value));
    }

    /** Each parameter is given a gensym for its lexical identity; internal defines become a letrec. */
    method Lambda(xs: seq<SExpr>) returns (r: Outcome_)
      requires Valid()
      modifies this`depth, this`counter
      ensures depth == old(depth)
      ensures Gave(r, HandleLambda(session, xs, old(Left()), old(counter)))
      decreases limit - depth, 2
    {
      hide ParseFormals, RewriteDefines, ExpandForm, ExpandAll;
      if |xs| < 3 {
        return Err(InvalidSyntax);
      }
      var formals := ReadFormals(xs[1]);
      if formals.Err? {
        return Err(formals.error);
      }
      for i := 0 to |formals.value.fixed|
        invariant depth == old(depth) && counter == old(counter) + i
      {
        counter := counter + 1;
      }
      if formals.value.rest.Some? {
        counter := counter + 1;
      }
      var rewritten := RewriteInternalDefines(xs[2..]);
      if rewritten.Err? {
        return Err(rewritten.error);
      }
      if rewritten.value.Some? {
        var inner := Expand(rewritten.value.value);
        if inner.Err? {
          return inner;
        }
        return Ok(MakeLambda(xs[1], [inner.value]));
      }
      var body := ExpandEach(xs[2..]);
      if body.Err? {
        return Err(body.error);
      }
      return Ok(MakeLambda(xs[1], body.value));
    }

    /** Inits first, then the lambda, applied directly. */
    method LetOver(bindings: seq<SExpr>, body: seq<SExpr>) returns (r: Outcome_)
      requires Valid()
      modifies this`depth, this`counter
      ensures depth == old(depth)
      ensures Gave(r, RegularLet(session, bindings, body, old(Left()), old(counter)))
      decreases limit - depth, 3
    {
      hide ParseLetPairs, ExpandAll, HandleLambda;
      var pairs := ReadPairs(bindings);
      if pairs.Err? {
        return Err(pairs.error);
      }
      var inits := ExpandEach(Inits(pairs.value));
      if inits.Err? {
        return Err(inits.error);
      }
      var lam := Lambda(MakeLambda(Proper(Symbols(NamesOf(pairs.value))), body).elems);
      if lam.Err? {
        return lam;
      }
      return Ok(Proper([lam.value] + inits.value));
    }

    /** Placeholders, assignments in order, then the body, expanded once more by a let. */
    method Letrec(xs: seq<SExpr>) returns (r: Outcome_)
      requires Valid()
      modifies this`depth, this`counter
      ensures depth == old(depth)
      ensures Gave(r, HandleLetrec(session, xs, old(Left()), old(counter)))
      decreases limit - depth, 4
    {
      hide ParseLetPairs, ExpandAll, RegularLet;
      if |xs| < 3 || !xs[1].List? {
        return Err(InvalidSyntax);
      }
      var pairs := ReadPairs(xs[1].elems);
      if pairs.Err? {
        return Err(pairs.error);
      }
      var inits := ExpandEach(Inits(pairs.value));
      if inits.Err? {
        return Err(inits.error);
      }
      var body := ExpandEach(xs[2..]);
      if body.Err? {
        return Err(body.error);
      }
      var names := NamesOf(pairs.value);
      r := LetOver(BindingList(Placeholders(names)), [MakeBegin(Sets(names, inits.value) + body.value)]);
    }

    /** A named let: a letrec of its procedure around the call that starts it. */
    method Loop(name: string, bindings: seq<SExpr>, body: seq<SExpr>) returns (r: Outcome_)
      requires Valid()
      modifies this`depth, this`counter
      ensures depth == old(depth)
      ensures Gave(r, NamedLet(session, name, bindings, body, old(Left()), old(counter)))
      decreases limit - depth, 5
    {
      hide ParseLetPairs, ExpandAll, HandleLambda, HandleLetrec;
      var pairs := ReadPairs(bindings);
      if pairs.Err? {
        return Err(pairs.error);
      }
      var names := NamesOf(pairs.value);
      if name in names {
        return Err(InvalidLetBindings);
      }
      var inits := ExpandEach(Inits(pairs.value));
      if inits.Err? {
        return Err(inits.error);
      }
      var lam := Lambda(MakeLambda(Proper(Symbols(names)), body).elems);
      if lam.Err? {
        return lam;
      }
      var start := Proper([Sym(name)] + inits.value);
      r := Letrec(Form("letrec", [Proper(BindingList([Pair(name, lam.value)])), start]).elems);
    }

    method Let(xs: seq<SExpr>) returns (r: Outcome_)
      requires Valid()
      modifies this`depth, this`counter
      ensures depth == old(depth)
      ensures Gave(r, HandleLet(session, xs, old(Left()), old(counter)))
      decreases limit - depth, 6
    {
      hide NamedLet, RegularLet;
      if |xs| >= 3 && xs[1].Sym? && xs[2].List? {
        r := Loop(xs[1].name, xs[2].elems, xs[3..]);
      } else if |xs| < 3 || !xs[1].List? {
        r := Err(InvalidSyntax);
      } else {
        r := LetOver(xs[1].elems, xs[2..]);
      }
    }

    method LetStar(xs: seq<SExpr>) returns (r: Outcome_)
      requires Valid()
      modifies this`depth, this`counter
      ensures depth == old(depth)
      ensures Gave(r, HandleLetStar(session, xs, old(Left()), old(counter)))
      decreases limit - depth, 7
    {
      hide HandleLet;
      if |xs| < 3 || !xs[1].List? {
        return Err(InvalidSyntax);
      }
      if xs[1].elems == [] {
        r := Let(Form("let", [Proper([])] + xs[2..]).elems);
        return;
      }
      var first := xs[1].elems[0];
      if !first.List? || |first.elems| < 2 {
        return Err(NotModelled);
      }
      var inner := Form("let*", [Proper(xs[1].elems[1..])] + xs[2..]);
      r := Let(Form("let", [Proper([Proper([first.elems[0], first.elems[1]])]), inner]).elems);
    }

    method And(es: seq<SExpr>) returns (r: Outcome_)
      requires Valid()
      modifies this`depth, this`counter
      ensures depth == old(depth)
      ensures Gave(r, HandleAnd(session, es, old(Left()), old(counter)))
      decreases limit - depth, 7, |es|
    {
      hide ExpandForm;
      if es == [] {
        return Ok(Bool(true));
      }
      if |es| == 1 {
        r := Expand(es[0]);
        return;
      }
      var test := Expand(es[0]);
      if test.Err? {
        return test;
      }
      var rest := And(es[1..]);
      if rest.Err? {
        return rest;
      }
      return Ok(MakeIf(test.value, rest.value, Bool(false)));
    }

    method Or(es: seq<SExpr>) returns (r: Outcome_)
      requires Valid()
      modifies this`depth, this`counter
      ensures depth == old(depth)
      ensures Gave(r, HandleOr(session, es, old(Left()), old(counter)))
      decreases limit - depth, 7, |es|
    {
      hide ExpandForm, RegularLet;
      if es == [] {
        return Ok(Bool(false));
      }
      if |es| == 1 {
        r := Expand(es[0]);
        return;
      }
      var init := Expand(es[0]);
      if init.Err? {
        return init;
      }
      var t := Gensym("or", session, counter);
      counter := counter + 1;
      var rest := Or(es[1..]);
      if rest.Err? {
        return rest;
      }
      r := LetOver(BindingList([Pair(t, init.value)]), [MakeIf(Sym(t), Sym(t), rest.value)]);
    }

    method When(positive: bool, xs: seq<SExpr>) returns (r: Outcome_)
      requires Valid()
      modifies this`depth, this`counter
      ensures depth == old(depth)
      ensures Gave(r, HandleWhen(session, positive, xs, old(Left()), old(counter)))
      decreases limit - depth, 7
    {
      hide ExpandForm, Sequence;
      if |xs| < 2 {
        return Err(InvalidSyntax);
      }
      var test := Expand(xs[1]);
      if test.Err? {
        return test;
      }
      var body := Body(xs[2..]);
      if body.Err? {
        return body;
      }
      return Ok(if positive then MakeIf(test.value, body.value, MakeBegin([]))
                else MakeIf(test.value, MakeBegin([]), body.value));
    }

    method Do(xs: seq<SExpr>) returns (r: Outcome_)
      requires Valid()
      modifies this`depth, this`counter
      ensures depth == old(depth)
      ensures Gave(r, HandleDo(session, xs, old(Left()), old(counter)))
      decreases limit - depth, 7
    {
      hide ParseDoVars, HandleLetrec;
      if |xs| < 3 || !xs[1].List? || !xs[2].List? || xs[2].elems == [] {
        return Err(InvalidSyntax);
      }
      var vars := ReadDoVars(xs[1].elems);
      if vars.Err? {
        return Err(vars.error);
      }
      var loop := Gensym("do-loop", session, counter);
      counter := counter + 1;
      var lam := DoLambda(loop, vars.value, xs[2].elems[0], xs[2].elems[1..], xs[3..]);
      var start := Proper([Sym(loop)] + DoInits(vars.value));
      r := Letrec(Form("letrec", [Proper(BindingList([Pair(loop, lam)])), start]).elems);
    }

    method Body(xs: seq<SExpr>) returns (r: Outcome_)
      requires Valid()
      modifies this`depth, this`counter
      ensures depth == old(depth)
      ensures Gave(r, Sequence(session, xs, old(Left()), old(counter)))
      decreases limit - depth, 2
    {
      hide ExpandAll;
      var ys := ExpandEach(xs);
      if ys.Err? {
        return Err(ys.error);
      }
      return Ok(MakeBegin(ys.value));
    }

    method Cond(xs: seq<SExpr>) returns (r: Outcome_)
      requires Valid() && xs != []
      modifies this`depth, this`counter
      ensures depth == old(depth)
      ensures Gave(r, HandleCond(session, xs, old(Left()), old(counter)))
      decreases limit - depth, 7
    {
      hide CondClause;
      if |xs| < 2 {
        return Err(InvalidSyntax);
      }
      ghost var d, n := Left(), counter;
      var rest := MakeBegin([]);
      var i := |xs|;
      while i > 1
        invariant 1 <= i <= |xs| && depth == old(depth)
        invariant CondFrom(session, xs, i, d, n) == Ok(Expanded(rest, counter))
      {
        i := i - 1;
        var next := Clause(xs[i], i + 1 == |xs|, rest);
        if next.Err? {
          CondFailsEarlier(session, xs, 1, i, d, n);
          return next;
        }
        rest := next.value;
      }
      return Ok(rest);
    }

    /** One clause of `cond`, in front of the expansion of those after it. */
    method Clause(clause: SExpr, last: bool, rest: SExpr) returns (r: Outcome_)
      requires Valid()
      modifies this`depth, this`counter
      ensures depth == old(depth)
      ensures Gave(r, CondClause(session, clause, last, rest, old(Left()), old(counter)))
      decreases limit - depth, 5
    {
      hide ExpandForm, Sequence;
      if !clause.List? || clause.elems == [] {
        return Err(InvalidSyntax);
      }
      var cs := clause.elems;
      if IsSymbolNamed(cs[0], "else") {
        if !last || |cs| < 2 {
          return Err(InvalidSyntax);
        }
        r := Body(cs[1..]);
        return;
      }
      var test := Expand(cs[0]);
      if test.Err? {
        return test;
      }
      if |cs| == 3 && IsSymbolNamed(cs[1], "=>") {
        var receiver := Expand(cs[2]);
        if receiver.Err? {
          return receiver;
        }
        var t := Sym(Gensym("t", session, counter));
        counter := counter + 1;
        return Ok(Form("let", [Proper([Proper([t, test.value])]), MakeIf(t, Proper([receiver.value, t]), rest)]));
      }
      if |cs| == 1 {
        return Ok(MakeIf(test.value, cs[0], rest));
      }
      var body := Body(cs[1..]);
      if body.Err? {
        return body;
      }
      return Ok(MakeIf(test.value, body.value, rest));
    }

    method Case(xs: seq<SExpr>) returns (r: Outcome_)
      requires Valid() && xs != []
      modifies this`depth, this`counter
      ensures depth == old(depth)
      ensures Gave(r, HandleCase(session, xs, old(Left()), old(counter)))
      decreases limit - depth, 7
    {
      hide CaseClause, ExpandForm, RegularLet;
      if |xs| < 2 {
        return Err(InvalidSyntax);
      }
      var key := Expand(xs[1]);
      if key.Err? {
        return key;
      }
      var tmp := Gensym("case-key", session, counter);
      counter := counter + 1;
      ghost var d, n := Left(), counter;
      var rest := MakeBegin([]);
      var i := |xs|;
      while i > 2
        invariant 2 <= i <= |xs| && depth == old(depth)
        invariant CaseFrom(session, tmp, xs, i, d, n) == Ok(Expanded(rest, counter))
      {
        i := i - 1;
        var next := Choice(tmp, xs[i], i + 1 == |xs|, rest);
        if next.Err? {
          CaseFailsEarlier(session, tmp, xs, 2, i, d, n);
          return next;
        }
        rest := next.value;
      }
      r := LetOver(BindingList([Pair(tmp, key.value)]), [rest]);
    }

    /** One clause of `case`. */
    method Choice(tmp: string, clause: SExpr, last: bool, rest: SExpr) returns (r: Outcome_)
      requires Valid()
      modifies this`depth, this`counter
      ensures depth == old(depth)
      ensures Gave(r, CaseClause(session, tmp, clause, last, rest, old(Left()), old(counter)))
      decreases limit - depth, 5
    {
      hide Sequence;
      if !clause.List? || clause.elems == [] {
        return Err(InvalidSyntax);
      }
      var cs := clause.elems;
      if IsSymbolNamed(cs[0], "else") {
        if !last || |cs| < 2 {
          return Err(InvalidSyntax);
        }
        r := Body(cs[1..]);
        return;
      }
      if !cs[0].List? || cs[0].elems == [] {
        return Err(InvalidSyntax);
      }
      var test := KeyTest(tmp, cs[0].elems);
      var body := Body(cs[1..]);
      if body.Err? {
        return body;
      }
      return Ok(MakeIf(test, body.value, rest));
    }

    /** `(eqv? tmp 'd)`, or an `or` of one such test for each datum. */
    method KeyTest(tmp: string, data: seq<SExpr>) returns (test: SExpr)
      requires data != []
      ensures test == if |data| == 1 then EqvTest(tmp, data[0]) else Form("or", EqvTests(tmp, data))
    {
      if |data| == 1 {
        return EqvTest(tmp, data[0]);
      }
      var tests: seq<SExpr> := [];
      for i := 0 to |data|
        invariant tests == EqvTests(tmp, data[..i])
      {
        tests := tests + [EqvTest(tmp, data[i])];
      }
      assert data[..|data|] == data;
      return Form("or", tests);
    }

    method Quasiquote(x: SExpr, level: nat) returns (r: Outcome_)
      requires Valid()
      modifies this`depth, this`counter
      ensures depth == old(depth)
      ensures Gave(r, ExpandQuasiquote(session, x, level, old(Left()), old(counter)))
      decreases limit - depth, 6, x, 2
    {
      hide QuasiHead, QuasiElements, ExpandForm;
      match x {
        case Reader(kind, e) => r := QuotingHead(x, kind, e, level);
        case List(elems, tail) => r := QuotedList(x, elems, tail, level);
        case Vector(items) =>
          var list := QuotedList(x, items, None, level);
          if list.Err? {
            return list;
          }
          r := Ok(Form("list->vector", [list.value]));
        case _ => r := Ok(MakeQuote(x));
      }
    }

    /** A quote form met inside a template. */
    method QuotingHead(x: SExpr, kind: QuoteKind, arg: SExpr, level: nat) returns (r: Outcome_)
      requires Valid() && arg < x
      modifies this`depth, this`counter
      ensures depth == old(depth)
      ensures Gave(r, QuasiHead(session, x, kind, arg, level, old(Left()), old(counter)))
      decreases limit - depth, 6, x, 0
    {
      hide ExpandForm, ExpandQuasiquote;
      match kind {
        case Quote => r := Ok(if x.Vector? then Proper(x.items) else x);
        case Quasiquote => r := Quasiquote(arg, level + 1);
        case Unquote =>
          if level == 0 {
            return Err(InvalidSyntax);
          }
          if level == 1 {
            r := Expand(arg);
            return;
          }
          r := Quasiquote(arg, level - 1);
          if r.Ok? {
            r := Ok(Form("unquote", [r.value]));
          }
        case UnquoteSplicing =>
          if level <= 1 {
            return Err(InvalidSyntax);
          }
          r := Quasiquote(arg, level - 1);
          if r.Ok? {
            r := Ok(Form("unquote-splicing", [r.value]));
          }
      }
    }

    /** The elements of a list or vector, consed and appended from the last one on. */
    method QuotedList(x: SExpr, elems: seq<SExpr>, tail: Option<SExpr>, level: nat) returns (r: Outcome_)
      requires Valid() && ((x == List(elems, tail)) || (x == Vector(elems) && tail.None?))
      modifies this`depth, this`counter
      ensures depth == old(depth)
      ensures Gave(r, QuasiOfList(session, x, elems, tail, level, old(Left()), old(counter)))
      decreases limit - depth, 6, x, 1
    {
      hide QuasiHead, QuasiElement, ExpandForm, ExpandQuasiquote;
      var h := ListHead(elems, tail);
      if h.Head? {
        r := QuotingHead(x, h.kind, h.arg, level);
        return;
      }
      var rest := MakeQuote(Proper([]));
      if tail.Some? {
        if HeadOf(tail.value).Head? && HeadOf(tail.value).kind.UnquoteSplicing? && level == 1 {
          return Err(InvalidSyntax);
        }
        var t := Quasiquote(tail.value, level);
        if t.Err? {
          return t;
        }
        rest := t.value;
      }
      ghost var d, first := Left(), Expanded(rest, counter);
      var i := |elems|;
      while i > 0
        invariant 0 <= i <= |elems| && depth == old(depth)
        invariant QuasiElements(session, x, elems, i, first, level, d) == Ok(Expanded(rest, counter))
      {
        i := i - 1;
        var next := Element(elems[i], rest, level);
        if next.Err? {
          ElementsFailEarlier(session, x, elems, 0, i, first, level, d);
          return next;
        }
        rest := next.value;
      }
      return Ok(rest);
    }

    method Element(e: SExpr, rest: SExpr, level: nat) returns (r: Outcome_)
      requires Valid()
      modifies this`depth, this`counter
      ensures depth == old(depth)
      ensures Gave(r, QuasiElement(session, e, rest, level, old(Left()), old(counter)))
      decreases limit - depth, 6, e, 3
    {
      hide ExpandForm, ExpandQuasiquote;
      if HeadOf(e).Head? && HeadOf(e).kind.UnquoteSplicing? && level == 1 {
        var spliced := Expand(HeadOf(e).arg);
        if spliced.Err? {
          return spliced;
        }
        return Ok(Form("append", [spliced.value, rest]));
      }
      var y := Quasiquote(e, level);
      if y.Err? {
        return y;
      }
      return Ok(Form("cons", [y.value, rest]));
    }
  }
}
