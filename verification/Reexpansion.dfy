/**
 Expanding an expanded program again returns it unchanged: the law the handlers rely on when they
 expand the same subtree two or three times (`let`, `letrec`, `or`, `case` and `do` all do).
 */
module Reexpansion {
  import opened Wrappers
  import opened SExprs
  import opened Expanders
  import opened ExpanderHeads
  import opened Programs

  /** No core text is a define, so no body is rewritten. */
  lemma CoreIsNoDefine(session: string, c: Core)
    requires CoreShaped(session, c)
    ensures !IsDefine(CoreText(session, c))
  {
    if c.CApp? && c.fn.CRef? {
      assert VarText(session, c.fn.variable) != "define";
    }
  }

  lemma {:induction false} BodyIsKept(session: string, cs: seq<Core>)
    requires AllCoreShaped(session, cs)
    ensures RewriteDefines(CoreTexts(session, cs)) == Ok(None)
  {
    if cs != [] {
      CoreIsNoDefine(session, cs[0]);
    }
  }

  /** Parsing printed formals gives them back. */
  lemma {:induction false} LeadingSymbolsOf(names: seq<string>)
    ensures LeadingSymbols(Symbols(names)) == names
  {
    if names != [] {
      assert Symbols(names)[1..] == Symbols(names[1..]);
      LeadingSymbolsOf(names[1..]);
    }
  }

  lemma FormalsReadBack(names: seq<string>, rest: Option<string>)
    requires ParseFormals(FormalsText(names, rest)).Ok?
    ensures ParseFormals(FormalsText(names, rest)) == Ok(Formals(names, rest))
  {
    LeadingSymbolsOf(names);
  }

  // ---- Expanding a core program ----

  /** Unchanged if the depth limit allows its height, at the price of one gensym per parameter. */
  ghost predicate Stays(session: string, c: Core, d: nat, n: nat) {
    ExpandForm(session, CoreText(session, c), d, n) ==
      if Height(c) <= d then Ok(Expanded(CoreText(session, c), n + Binders(c))) else Err(ExpansionDepthExceeded)
  }

  ghost predicate AllStay(session: string, cs: seq<Core>, d: nat, n: nat) {
    ExpandAll(session, CoreTexts(session, cs), d, n) ==
      if AllHeight(cs) <= d then Ok(Expanded(CoreTexts(session, cs), n + AllBinders(cs))) else Err(ExpansionDepthExceeded)
  }

  /** Expanding a core program again is exact: it stays as it is, or the depth limit is too low. */
  lemma {:induction false} ReexpansionIsIdentity(session: string, c: Core, d: nat, n: nat)
    requires CoreShaped(session, c)
    ensures Stays(session, c, d, n)
    decreases c, 2
  {
    hide ExpandForm, HandleIf, HandleBegin, HandleLambda, HandleSet, HandleQuoteLike, AllCoreShaped;
    if d == 0 {
      FormTooDeep(session, CoreText(session, c), n);
    } else {
      match c
      case CLit(_) => AtomStays(session, CoreText(session, c), d, n);
      case CRef(_) => AtomStays(session, CoreText(session, c), d, n);
      case CQuote(datum) =>
        QuoteForm(session, [datum], d, n);
        QuoteStays(session, datum, d - 1, n);
      case CIf(_, _, _) => IfStays(session, c, d, n);
      case CBegin(body) => BeginStays(session, body, d, n);
      case CLambda(_, _, _) => LambdaStays(session, c, d, n);
      case CSet(_, _) => SetStays(session, c, d, n);
      case CApp(_, _) => AppStays(session, c, d, n);
    }
  }

  lemma AtomStays(session: string, x: SExpr, d: nat, n: nat)
    requires d > 0 && !x.List? && !x.Reader?
    ensures ExpandForm(session, x, d, n) == Ok(Expanded(x, n))
  {
  }

  lemma QuoteStays(session: string, datum: SExpr, d: nat, n: nat)
    ensures HandleQuoteLike(session, "quote", [Sym("quote")] + [datum], d, n) == Ok(Expanded(MakeQuote(datum), n))
  {
    hide ExpandQuasiquote;
  }

  lemma OneMoreForm(session: string, x: SExpr, xs: seq<SExpr>, d: nat, n: nat)
    ensures var a := ExpandForm(session, x, d, n);
      ExpandAll(session, [x] + xs, d, n) ==
        if a.Err? then Err(a.error)
        else
          var b := ExpandAll(session, xs, d, a.value.counter);
          if b.Err? then Err(b.error) else Ok(Expanded([a.value.value] + b.value.value, b.value.counter))
  {
    hide ExpandForm;
    assert ([x] + xs)[1..] == xs;
  }

  lemma NoForms(session: string, d: nat, n: nat)
    ensures ExpandAll(session, [], d, n) == Ok(Expanded([], n))
  {
  }

  lemma {:induction false} AllFormsStay(session: string, cs: seq<Core>, d: nat, n: nat)
    requires AllCoreShaped(session, cs)
    ensures AllStay(session, cs, d, n)
    decreases cs, 0
  {
    hide ExpandForm, ExpandAll;
    if cs == [] {
      NoForms(session, d, n);
    } else {
      OneMoreForm(session, CoreText(session, cs[0]), CoreTexts(session, cs[1..]), d, n);
      ReexpansionIsIdentity(session, cs[0], d, n);
      AllFormsStay(session, cs[1..], d, n + Binders(cs[0]));
    }
  }

  lemma {:induction false} BeginStays(session: string, body: seq<Core>, d: nat, n: nat)
    requires d > 0 && AllCoreShaped(session, body)
    ensures Stays(session, CBegin(body), d, n)
    decreases body, 1
  {
    hide ExpandForm, ExpandAll;
    var ys := CoreTexts(session, body);
    assert ([Sym("begin")] + ys)[1..] == ys;
    BeginForm(session, ys, d, n);
    AllFormsStay(session, body, d - 1, n);
  }

  lemma {:induction false} IfStays(session: string, c: Core, d: nat, n: nat)
    requires d > 0 && c.CIf? && CoreShaped(session, c)
    ensures Stays(session, c, d, n)
    decreases c, 1
  {
    hide *;
    IfParts(session, c);
    var n1 := n + Binders(c.test);
    ReexpansionIsIdentity(session, c.test, d - 1, n);
    ReexpansionIsIdentity(session, c.yes, d - 1, n1);
    ReexpansionIsIdentity(session, c.no, d - 1, n1 + Binders(c.yes));
    ThreeStay(session, c.test, c.yes, c.no, d - 1, n);
    ThreeTexts(session, c.test, c.yes, c.no);
    var xs := CoreTexts(session, [c.test, c.yes, c.no]);
    IfForm(session, xs, d, n);
    IfOfThree(session, xs, d - 1, n);
    IfFromParts(session, c, xs, d, n);
  }

  lemma IfParts(session: string, c: Core)
    requires c.CIf? && CoreShaped(session, c)
    ensures CoreShaped(session, c.test) && CoreShaped(session, c.yes) && CoreShaped(session, c.no)
    ensures Height(c) == 1 + Max(Height(c.test), Max(Height(c.yes), Height(c.no)))
    ensures Binders(c) == Binders(c.test) + Binders(c.yes) + Binders(c.no)
    ensures CoreText(session, c) == Form("if", [CoreText(session, c.test), CoreText(session, c.yes), CoreText(session, c.no)])
  {
  }

  lemma IfOfThree(session: string, xs: seq<SExpr>, d: nat, n: nat)
    requires |xs| == 3
    ensures var ys := ExpandAll(session, xs, d, n);
      HandleIf(session, [Sym("if")] + xs, d, n) ==
        if ys.Err? then Err(ys.error) else Ok(Expanded(Form("if", ys.value.value), ys.value.counter))
  {
    hide ExpandAll;
    assert ([Sym("if")] + xs)[1..] == xs;
    var ys := ExpandAll(session, xs, d, n);
    if ys.Ok? {
      assert [Sym("if")] + ys.value.value + [] == [Sym("if")] + ys.value.value;
    }
  }

  lemma IfFromParts(session: string, c: Core, xs: seq<SExpr>, d: nat, n: nat)
    requires d > 0 && c.CIf? && CoreText(session, c) == Form("if", xs) && xs == CoreTexts(session, [c.test, c.yes, c.no])
    requires AllStay(session, [c.test, c.yes, c.no], d - 1, n)
    requires Height(c) == 1 + AllHeight([c.test, c.yes, c.no]) && Binders(c) == AllBinders([c.test, c.yes, c.no])
    requires ExpandForm(session, Form("if", xs), d, n) == HandleIf(session, [Sym("if")] + xs, d - 1, n)
    requires var ys := ExpandAll(session, xs, d - 1, n);
      HandleIf(session, [Sym("if")] + xs, d - 1, n) ==
        if ys.Err? then Err(ys.error) else Ok(Expanded(Form("if", ys.value.value), ys.value.counter))
    ensures Stays(session, c, d, n)
  {
    hide ExpandForm, ExpandAll, HandleIf, CoreText, CoreTexts, Height, Binders, AllHeight, AllBinders;
  }

  lemma ThreeTexts(session: string, t: Core, y: Core, o: Core)
    ensures CoreTexts(session, [t, y, o]) == [CoreText(session, t), CoreText(session, y), CoreText(session, o)]
    ensures AllHeight([t, y, o]) == Max(Height(t), Max(Height(y), Height(o)))
    ensures AllBinders([t, y, o]) == Binders(t) + Binders(y) + Binders(o)
  {
    hide CoreText, Height, Binders;
    assert [t, y, o][1..] == [y, o] && [y, o][1..] == [o] && [o][1..] == [];
    assert CoreTexts(session, [o]) == [CoreText(session, o)];
    assert AllHeight([o]) == Height(o) && AllBinders([o]) == Binders(o);
    assert CoreTexts(session, [y, o]) == [CoreText(session, y), CoreText(session, o)];
    assert AllHeight([y, o]) == Max(Height(y), Height(o)) && AllBinders([y, o]) == Binders(y) + Binders(o);
  }

  lemma ThreeStay(session: string, t: Core, y: Core, o: Core, d: nat, n: nat)
    requires Stays(session, t, d, n)
    requires Stays(session, y, d, n + Binders(t)) && Stays(session, o, d, n + Binders(t) + Binders(y))
    ensures AllStay(session, [t, y, o], d, n)
  {
    hide ExpandForm, ExpandAll, CoreText, Height, Binders, CoreTexts, AllHeight, AllBinders;
    ThreeTexts(session, t, y, o);
    var a, b, c := CoreText(session, t), CoreText(session, y), CoreText(session, o);
    assert [a] + ([b] + ([c] + [])) == [a, b, c];
    OneMoreForm(session, a, [b] + ([c] + []), d, n);
    OneMoreForm(session, b, [c] + [], d, n + Binders(t));
    OneMoreForm(session, c, [], d, n + Binders(t) + Binders(y));
    NoForms(session, d, n + Binders(t) + Binders(y) + Binders(o));
  }

  lemma {:induction false} SetStays(session: string, c: Core, d: nat, n: nat)
    requires d > 0 && c.CSet? && CoreShaped(session, c)
    ensures Stays(session, c, d, n)
    decreases c, 1
  {
    hide ExpandForm;
    SetForm(session, [Sym(VarText(session, c.variable)), CoreText(session, c.value)], d, n);
    ReexpansionIsIdentity(session, c.value, d - 1, n);
  }

  lemma {:induction false} AppStays(session: string, c: Core, d: nat, n: nat)
    requires d > 0 && c.CApp? && CoreShaped(session, c)
    ensures Stays(session, c, d, n)
    decreases c, 1
  {
    hide ExpandForm, ExpandAll;
    var f, xs := CoreText(session, c.fn), CoreTexts(session, c.args);
    var all := [f] + xs;
    assert all[0] == f && all[1..] == xs;
    FormIsApplication(session, all, d, n);
    OneMoreForm(session, f, xs, d - 1, n);
    ReexpansionIsIdentity(session, c.fn, d - 1, n);
    AllFormsStay(session, c.args, d - 1, n + Binders(c.fn));
  }

  lemma {:induction false} LambdaStays(session: string, c: Core, d: nat, n: nat)
    requires d > 0 && c.CLambda? && CoreShaped(session, c)
    ensures Stays(session, c, d, n)
    decreases c, 1
  {
    hide ExpandForm, HandleLambda, ParseFormals;
    var formals := CoreFormals(session, c.params, c.rest);
    LambdaForm(session, [formals] + CoreTexts(session, c.body), d, n);
    HandledLambda(session, c.params, c.rest, c.body, d - 1, n);
  }

  /** A lambda whose body is expanded already: its formals are checked and nothing changes. */
  lemma {:induction false} HandledLambda(
    session: string, params: seq<Var>, rest: Option<Var>, body: seq<Core>, d: nat, n: nat)
    requires CoreShaped(session, CLambda(params, rest, body))
    ensures HandleLambda(session, [Sym("lambda")] + ([CoreFormals(session, params, rest)] + CoreTexts(session, body)), d, n) ==
      if AllHeight(body) <= d
      then Ok(Expanded(CoreText(session, CLambda(params, rest, body)), n + Binders(CLambda(params, rest, body))))
      else Err(ExpansionDepthExceeded)
    decreases body, 1
  {
    hide ExpandForm, ExpandAll, ParseFormals, RewriteDefines, FormalsText;
    var formals, ys := CoreFormals(session, params, rest), CoreTexts(session, body);
    var xs := [Sym("lambda")] + ([formals] + ys);
    assert xs[1] == formals && xs[2..] == ys;
    BodyIsKept(session, body);
    FormalsReadBack(VarTexts(session, params), if rest.None? then None else Some(VarText(session, rest.value)));
    AllFormsStay(session, body, d, n + |params| + (if rest.Some? then 1 else 0));
  }
}
