/**
 The expander produces core forms: whenever expanding a program succeeds, the result is the text
 of a core program that desugars it.
 */
module Expansion {
  import opened Wrappers
  import opened SExprs
  import opened Expanders
  import opened Programs
  import opened Reexpansion
  import opened Desugaring

  /** A result is the text of a core program for `e`. */
  ghost predicate Gives(session: string, e: Expr, r: Expansion, c: Core) {
    r.Ok? && r.value.value == CoreText(session, c) && Desugars(e, c) && CoreShaped(session, c)
  }

  ghost predicate AllGive(session: string, es: seq<Expr>, r: Expansions, cs: seq<Core>) {
    r.Ok? && r.value.value == CoreTexts(session, cs) && AllDesugar(es, cs) && AllCoreShaped(session, cs)
  }

  // ---- Names ----

  /** Names made by gensym hold a colon; no keyword does. */
  lemma ColonIsNoKeyword(name: string)
    requires ':' in name
    ensures !IsSpecial(name)
  {
  }

  lemma TempIsNoKeyword(session: string, h: Hint, k: nat)
    ensures !IsSpecial(VarText(session, Temp(h, k)))
  {
    var name := VarText(session, Temp(h, k));
    assert name[|HintText(h)|] == ':';
    ColonIsNoKeyword(name);
  }

  // ---- Bindings ----

  function Zip(names: seq<string>, xs: seq<SExpr>): (ps: seq<Pair>)
    requires |names| == |xs|
    ensures |ps| == |names|
  {
    seq(|names|, i requires 0 <= i < |names| => Pair(names[i], xs[i]))
  }

  lemma {:induction false} PairsReadBack(names: seq<string>, xs: seq<SExpr>, seen: set<string>)
    requires |names| == |xs| && ParseLetPairs(PairTexts(names, xs), seen).Ok?
    ensures ParseLetPairs(PairTexts(names, xs), seen).value == Zip(names, xs)
    ensures NamesOf(Zip(names, xs)) == names && Inits(Zip(names, xs)) == xs
    ensures Distinct(names) && forall i :: 0 <= i < |names| ==> names[i] !in seen
  {
    if names != [] {
      var texts := PairTexts(names, xs);
      assert texts[1..] == PairTexts(names[1..], xs[1..]);
      PairsReadBack(names[1..], xs[1..], seen + {names[0]});
      assert Zip(names, xs) == [Pair(names[0], xs[0])] + Zip(names[1..], xs[1..]);
    }
  }

  lemma {:induction false} BindingTexts(names: seq<string>, xs: seq<SExpr>)
    requires |names| == |xs|
    ensures BindingList(Zip(names, xs)) == PairTexts(names, xs)
  {
    if names != [] {
      assert Zip(names, xs)[1..] == Zip(names[1..], xs[1..]);
      BindingTexts(names[1..], xs[1..]);
    }
  }

  /** The two halves of a let: the inits, then the lambda. */
  lemma LetHalves(session: string, names: seq<string>, xs: seq<SExpr>, body: seq<SExpr>, d: nat, n: nat)
    requires |names| == |xs| && RegularLet(session, PairTexts(names, xs), body, d, n).Ok?
    ensures ExpandAll(session, xs, d, n).Ok?
    ensures var inits := ExpandAll(session, xs, d, n).value;
      var lam := HandleLambda(session, [Sym("lambda")] + ([Proper(Symbols(names))] + body), d, inits.counter);
      lam.Ok? && RegularLet(session, PairTexts(names, xs), body, d, n)
        == Ok(Expanded(Proper([lam.value.value] + inits.value), lam.value.counter))
  {
    hide ExpandAll, HandleLambda, ParseLetPairs, PairTexts;
    PairsReadBack(names, xs, {});
  }

  // ---- Forms made of core programs ----

  lemma SymbolsAreFormals(session: string, vars: seq<Var>)
    ensures Proper(Symbols(VarTexts(session, vars))) == CoreFormals(session, vars, None)
  {
  }

  /** A let over core programs is a direct application of a core lambda. */
  lemma CoreLet(session: string, vars: seq<Var>, inits: seq<Core>, body: seq<Core>, d: nat, n: nat)
    requires |vars| == |inits| && body != [] && AllCoreShaped(session, inits) && AllCoreShaped(session, body)
    requires RegularLet(session, PairTexts(VarTexts(session, vars), CoreTexts(session, inits)), CoreTexts(session, body), d, n).Ok?
    ensures var c := CApp(CLambda(vars, None, body), inits);
      && CoreShaped(session, c)
      && RegularLet(session, PairTexts(VarTexts(session, vars), CoreTexts(session, inits)), CoreTexts(session, body), d, n).value.value
        == CoreText(session, c)
  {
    hide ExpandAll, HandleLambda, RegularLet, PairTexts, ParseFormals, CoreFormals, AllCoreShaped, CoreTexts;
    var names, xs, ys := VarTexts(session, vars), CoreTexts(session, inits), CoreTexts(session, body);
    LetHalves(session, names, xs, ys, d, n);
    AllFormsStay(session, inits, d, n);
    var n1 := ExpandAll(session, xs, d, n).value.counter;
    SymbolsAreFormals(session, vars);
    LambdaNeedsFormals(session, CoreFormals(session, vars, None), ys, d, n1);
    HandledLambda(session, vars, None, body, d, n1);
  }

  lemma LambdaNeedsFormals(session: string, formals: SExpr, body: seq<SExpr>, d: nat, n: nat)
    requires HandleLambda(session, [Sym("lambda")] + ([formals] + body), d, n).Ok?
    ensures body != [] && ParseFormals(formals).Ok?
  {
    hide ExpandAll, ParseFormals, RewriteDefines;
    var xs := [Sym("lambda")] + ([formals] + body);
    assert xs[1] == formals && |xs| == 2 + |body|;
  }

  lemma {:induction false} SetTexts(session: string, vars: seq<Var>, inits: seq<Core>)
    requires |vars| == |inits|
    ensures CoreTexts(session, CoreSets(vars, inits)) == Sets(VarTexts(session, vars), CoreTexts(session, inits))
    decreases |vars|
  {
    if vars != [] {
      assert CoreSets(vars, inits)[1..] == CoreSets(vars[1..], inits[1..]);
      SetTexts(session, vars[1..], inits[1..]);
      var names, xs := VarTexts(session, vars), CoreTexts(session, inits);
      assert VarTexts(session, vars[1..]) == names[1..] && CoreTexts(session, inits[1..]) == xs[1..];
      assert Sets(names, xs) == [MakeSet(Sym(names[0]), xs[0])] + Sets(names[1..], xs[1..]);
    }
  }

  lemma {:induction false} SetsShaped(session: string, vars: seq<Var>, inits: seq<Core>)
    requires |vars| == |inits| && AllCoreShaped(session, inits)
    ensures AllCoreShaped(session, CoreSets(vars, inits))
    decreases |vars|
  {
    if vars != [] {
      assert CoreSets(vars, inits)[1..] == CoreSets(vars[1..], inits[1..]);
      SetsShaped(session, vars[1..], inits[1..]);
    }
  }

  lemma {:induction false} TextsConcat(session: string, a: seq<Core>, b: seq<Core>)
    ensures CoreTexts(session, a + b) == CoreTexts(session, a) + CoreTexts(session, b)
    ensures AllCoreShaped(session, a) && AllCoreShaped(session, b) ==> AllCoreShaped(session, a + b)
  {
    hide CoreText, CoreShaped;
    if a == [] {
      assert a + b == b;
    } else {
      assert (a + b)[1..] == a[1..] + b;
      TextsConcat(session, a[1..], b);
    }
  }

  lemma {:induction false} NilTexts(session: string, names: seq<string>)
    ensures Inits(Placeholders(names)) == CoreTexts(session, Nils(|names|)) && AllCoreShaped(session, Nils(|names|))
    ensures BindingList(Placeholders(names)) == PairTexts(names, CoreTexts(session, Nils(|names|)))
  {
    if names != [] {
      NilTexts(session, names[1..]);
      assert Nils(|names|)[1..] == Nils(|names| - 1);
      assert Placeholders(names)[1..] == Placeholders(names[1..]);
      assert Inits(Placeholders(names)) == [Nil] + Inits(Placeholders(names[1..]));
    }
  }

  /** A letrec over core programs: placeholders, assignments in order, the body. */
  lemma CoreLetrecResult(session: string, vars: seq<Var>, inits: seq<Core>, body: seq<Core>, d: nat, n: nat)
    requires |vars| == |inits| && AllCoreShaped(session, inits) && AllCoreShaped(session, body)
    requires var names := VarTexts(session, vars);
      RegularLet(session, BindingList(Placeholders(names)),
        [MakeBegin(Sets(names, CoreTexts(session, inits)) + CoreTexts(session, body))], d, n).Ok?
    ensures var names := VarTexts(session, vars);
      RegularLet(session, BindingList(Placeholders(names)),
        [MakeBegin(Sets(names, CoreTexts(session, inits)) + CoreTexts(session, body))], d, n).value.value
        == CoreText(session, CoreLetrec(vars, inits, body))
    ensures CoreShaped(session, CoreLetrec(vars, inits, body))
  {
    hide RegularLet, PairTexts, BindingList, Sets, CoreSets;
    var names := VarTexts(session, vars);
    var begin := CBegin(CoreSets(vars, inits) + body);
    SetTexts(session, vars, inits);
    SetsShaped(session, vars, inits);
    TextsConcat(session, CoreSets(vars, inits), body);
    NilTexts(session, names);
    OneText(session, begin);
    CoreLet(session, vars, Nils(|vars|), [begin], d, n);
  }

  lemma OneText(session: string, c: Core)
    ensures CoreTexts(session, [c]) == [CoreText(session, c)] && (CoreShaped(session, c) ==> AllCoreShaped(session, [c]))
  {
    assert [c][1..] == [];
  }

  /** `(let ((t init)) (if t t rest))` over core programs. */
  lemma CoreOrStep(session: string, t: Var, init: Core, rest: Core, d: nat, n: nat) returns (c: Core)
    requires t.Temp? && t.hint == OrTemp && CoreShaped(session, init) && CoreShaped(session, rest)
    requires var name := VarText(session, t);
      RegularLet(session, BindingList([Pair(name, CoreText(session, init))]),
        [MakeIf(Sym(name), Sym(name), CoreText(session, rest))], d, n).Ok?
    ensures var name := VarText(session, t);
      RegularLet(session, BindingList([Pair(name, CoreText(session, init))]),
        [MakeIf(Sym(name), Sym(name), CoreText(session, rest))], d, n).value.value == CoreText(session, c)
    ensures CoreShaped(session, c) && IsOrStep(c) && OrInit(c) == init && OrRest(c) == rest
  {
    hide RegularLet, PairTexts, BindingList, VarText;
    TempIsNoKeyword(session, OrTemp, t.counter);
    var test := CIf(CRef(t), CRef(t), rest);
    assert CoreText(session, CRef(t)) == Sym(VarText(session, t)) && CoreShaped(session, CRef(t));
    OneText(session, test);
    OneText(session, init);
    OneBinding(session, t, CoreText(session, init));
    CoreLet(session, [t], [init], [test], d, n);
    c := CApp(CLambda([t], None, [test]), [init]);
  }

  lemma OneBinding(session: string, v: Var, x: SExpr)
    ensures BindingList([Pair(VarText(session, v), x)]) == PairTexts(VarTexts(session, [v]), [x])
  {
    BindingTexts(VarTexts(session, [v]), [x]);
    assert Zip(VarTexts(session, [v]), [x]) == [Pair(VarText(session, v), x)];
  }
}
