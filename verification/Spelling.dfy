/**
 The text of a core program determines the program, as long as no name of the user's is spelled
 like a gensym of the session.
 */
module Spelling {
  import opened Wrappers
  import opened SExprs
  import opened Numerals
  import opened SyntaxRules
  import opened Expanders
  import opened Programs
  import opened Reexpansion
  import opened CoreNames

  /** No gensym of the session has this spelling. */
  ghost predicate IsApart(session: string, name: string) {
    forall h: Hint, k: nat :: name != VarText(session, Temp(h, k))
  }

  ghost predicate AllApart(session: string, ns: set<string>) {
    forall n :: n in ns ==> IsApart(session, n)
  }

  lemma HintEnds(h: Hint)
    ensures ':' !in HintText(h)
  {
  }

  /** What comes before the first colon. */
  function BeforeColon(s: string): string {
    if s == [] || s[0] == ':' then [] else [s[0]] + BeforeColon(s[1..])
  }

  lemma {:induction false} ColonFound(a: string, b: string)
    requires ':' !in a
    ensures BeforeColon(a + (":" + b)) == a
  {
    if a != [] {
      assert (a + (":" + b))[1..] == a[1..] + (":" + b);
      ColonFound(a[1..], b);
    }
  }

  lemma GensymParts(h: Hint, session: string, k: nat)
    ensures Gensym(HintText(h), session, k) == HintText(h) + (":" + (session + (":" + Decimal(k + 1))))
    ensures BeforeColon(Gensym(HintText(h), session, k)) == HintText(h)
  {
    hide BeforeColon, Decimal, HintText;
    HintEnds(h);
    ColonFound(HintText(h), session + (":" + Decimal(k + 1)));
    Rebracketed(HintText(h), ":", session, ":", Decimal(k + 1));
  }

  lemma Rebracketed(a: string, b: string, c: string, d: string, e: string)
    ensures a + b + c + d + e == a + (b + (c + (d + e)))
  {
  }

  lemma SameEnds(p: string, x: string, y: string)
    requires p + x == p + y
    ensures x == y
  {
    assert (p + x)[|p|..] == x && (p + y)[|p|..] == y;
  }

  /** Gensyms are fresh: two of one session are alike only if their hints and counters are. */
  lemma GensymsDiffer(session: string, h: Hint, k: nat, h': Hint, k': nat)
    requires VarText(session, Temp(h, k)) == VarText(session, Temp(h', k'))
    ensures h == h' && k == k'
  {
    hide Decimal, BeforeColon;
    GensymParts(h, session, k);
    GensymParts(h', session, k');
    HintsDiffer(h, h');
    SameEnds(HintText(h) + ":" + session + ":", Decimal(k + 1), Decimal(k' + 1));
    DecimalInjective(k + 1, k' + 1);
  }

  lemma HintsDiffer(h: Hint, h': Hint)
    requires HintText(h) == HintText(h')
    ensures h == h'
  {
    assert HintText(OrTemp)[0] == 'o' && HintText(CaseTemp)[0] == 'c' && HintText(DoTemp)[0] == 'd';
  }

  lemma VarsDiffer(session: string, v: Var, w: Var, ns: set<string>)
    requires VarIn(v, ns) && VarIn(w, ns) && AllApart(session, ns) && VarText(session, v) == VarText(session, w)
    ensures v == w
  {
    hide VarText;
    if v.Temp? && w.Temp? {
      GensymsDiffer(session, v.hint, v.counter, w.hint, w.counter);
    } else if v.User? && w.User? {
      UserText(session, v);
      UserText(session, w);
    } else if v.User? {
      UserIsNoTemp(session, v, w, ns);
    } else {
      UserIsNoTemp(session, w, v, ns);
    }
  }

  lemma UserIsNoTemp(session: string, v: Var, w: Var, ns: set<string>)
    requires v.User? && VarIn(v, ns) && w.Temp? && AllApart(session, ns)
    ensures VarText(session, v) != VarText(session, w)
  {
    hide VarText;
    UserText(session, v);
    assert IsApart(session, v.name);
    assert w == Temp(w.hint, w.counter);
  }

  lemma UserText(session: string, v: Var)
    requires v.User?
    ensures VarText(session, v) == v.name
  {
  }

  // ---- Reading a core text ----

  /** Which constructor a text belongs to. */
  datatype Kind = IsLit | IsRef | IsQuote | IsIf | IsBegin | IsLambda | IsSet | IsApp

  function KindOf(c: Core): Kind {
    match c
    case CLit(_) => IsLit
    case CRef(_) => IsRef
    case CQuote(_) => IsQuote
    case CIf(_, _, _) => IsIf
    case CBegin(_) => IsBegin
    case CLambda(_, _, _) => IsLambda
    case CSet(_, _) => IsSet
    case CApp(_, _) => IsApp
  }

  function TextKind(x: SExpr): Kind {
    if x.Sym? then IsRef
    else if !x.List? || x.elems == [] then IsLit
    else if IsSymbolNamed(x.elems[0], "quote") then IsQuote
    else if IsSymbolNamed(x.elems[0], "if") then IsIf
    else if IsSymbolNamed(x.elems[0], "begin") then IsBegin
    else if IsSymbolNamed(x.elems[0], "lambda") then IsLambda
    else if IsSymbolNamed(x.elems[0], "set!") then IsSet
    else IsApp
  }

  lemma KindIsVisible(session: string, c: Core)
    requires CoreShaped(session, c)
    ensures TextKind(CoreText(session, c)) == KindOf(c)
  {
    hide CoreTexts, AllCoreShaped, CoreFormals, ParseFormals, VarText;
    if c.CApp? {
      OperatorText(session, c.fn);
    }
  }

  lemma OperatorText(session: string, f: Core)
    requires CoreShaped(session, f)
    ensures CoreText(session, f).Sym? ==> !IsSpecial(CoreText(session, f).name)
  {
  }

  lemma {:induction false} TextDeterminesCore(session: string, c: Core, c': Core, ns: set<string>)
    requires CoreShaped(session, c) && CoreShaped(session, c') && UsersIn(c, ns) && UsersIn(c', ns) && AllApart(session, ns)
    requires CoreText(session, c) == CoreText(session, c')
    ensures c == c'
    decreases c, 1
  {
    hide *;
    KindIsVisible(session, c);
    KindIsVisible(session, c');
    SameKinds(c, c');
    match c
    case CLit(_) => AtomsAlike(session, c, c', ns);
    case CRef(_) => AtomsAlike(session, c, c', ns);
    case CQuote(_) => AtomsAlike(session, c, c', ns);
    case CIf(_, _, _) => IfsAlike(session, c, c', ns);
    case CBegin(_) => BeginsAlike(session, c, c', ns);
    case CLambda(_, _, _) => LambdasAlike(session, c, c', ns);
    case CSet(_, _) => SetsAlike(session, c, c', ns);
    case CApp(_, _) => AppsAlike(session, c, c', ns);
  }

  lemma SameKinds(c: Core, c': Core)
    requires KindOf(c) == KindOf(c')
    ensures (c.CLit? <==> c'.CLit?) && (c.CRef? <==> c'.CRef?) && (c.CQuote? <==> c'.CQuote?) && (c.CIf? <==> c'.CIf?)
    ensures (c.CBegin? <==> c'.CBegin?) && (c.CLambda? <==> c'.CLambda?) && (c.CSet? <==> c'.CSet?) && (c.CApp? <==> c'.CApp?)
  {
  }

  lemma {:induction false} AllTextsDetermine(session: string, cs: seq<Core>, cs': seq<Core>, ns: set<string>)
    requires AllCoreShaped(session, cs) && AllCoreShaped(session, cs') && AllUsersIn(cs, ns) && AllUsersIn(cs', ns)
    requires AllApart(session, ns) && CoreTexts(session, cs) == CoreTexts(session, cs')
    ensures cs == cs'
    decreases cs, 1
  {
    hide CoreShaped, UsersIn, CoreText, AllApart;
    var xs, xs' := CoreTexts(session, cs), CoreTexts(session, cs');
    assert |xs| == |cs| && |xs'| == |cs'|;
    if cs != [] {
      assert xs[1..] == CoreTexts(session, cs[1..]) && xs'[1..] == CoreTexts(session, cs'[1..]);
      TextDeterminesCore(session, cs[0], cs'[0], ns);
      AllTextsDetermine(session, cs[1..], cs'[1..], ns);
      assert cs == [cs[0]] + cs[1..] && cs' == [cs'[0]] + cs'[1..];
    }
  }

  lemma AtomsAlike(session: string, c: Core, c': Core, ns: set<string>)
    requires (c.CLit? && c'.CLit?) || (c.CRef? && c'.CRef?) || (c.CQuote? && c'.CQuote?)
    requires UsersIn(c, ns) && UsersIn(c', ns) && AllApart(session, ns) && CoreText(session, c) == CoreText(session, c')
    ensures c == c'
  {
    hide VarText, AllApart;
    if c.CRef? {
      VarsDiffer(session, c.variable, c'.variable, ns);
    } else if c.CQuote? {
      FormParts("quote", [c.datum], [c'.datum]);
    }
  }

  lemma FormParts(head: string, xs: seq<SExpr>, ys: seq<SExpr>)
    requires Form(head, xs) == Form(head, ys)
    ensures xs == ys
  {
    assert Form(head, xs).elems[1..] == xs && Form(head, ys).elems[1..] == ys;
  }

  lemma {:induction false} IfsAlike(session: string, c: Core, c': Core, ns: set<string>)
    requires c.CIf? && c'.CIf?
    requires CoreShaped(session, c) && CoreShaped(session, c') && UsersIn(c, ns) && UsersIn(c', ns) && AllApart(session, ns)
    requires CoreText(session, c) == CoreText(session, c')
    ensures c == c'
    decreases c, 0
  {
    hide VarText, AllApart;
    var t, y, o := CoreText(session, c.test), CoreText(session, c.yes), CoreText(session, c.no);
    var t', y', o' := CoreText(session, c'.test), CoreText(session, c'.yes), CoreText(session, c'.no);
    FormParts("if", [t, y, o], [t', y', o']);
    assert [t, y, o][0] == [t', y', o'][0] && [t, y, o][1] == [t', y', o'][1] && [t, y, o][2] == [t', y', o'][2];
    TextDeterminesCore(session, c.test, c'.test, ns);
    TextDeterminesCore(session, c.yes, c'.yes, ns);
    TextDeterminesCore(session, c.no, c'.no, ns);
  }

  lemma {:induction false} BeginsAlike(session: string, c: Core, c': Core, ns: set<string>)
    requires c.CBegin? && c'.CBegin?
    requires CoreShaped(session, c) && CoreShaped(session, c') && UsersIn(c, ns) && UsersIn(c', ns) && AllApart(session, ns)
    requires CoreText(session, c) == CoreText(session, c')
    ensures c == c'
    decreases c, 0
  {
    hide VarText, AllApart, CoreTexts, AllCoreShaped, AllUsersIn;
    FormParts("begin", CoreTexts(session, c.body), CoreTexts(session, c'.body));
    AllTextsDetermine(session, c.body, c'.body, ns);
  }

  lemma {:induction false} SetsAlike(session: string, c: Core, c': Core, ns: set<string>)
    requires c.CSet? && c'.CSet?
    requires CoreShaped(session, c) && CoreShaped(session, c') && UsersIn(c, ns) && UsersIn(c', ns) && AllApart(session, ns)
    requires CoreText(session, c) == CoreText(session, c')
    ensures c == c'
    decreases c, 0
  {
    hide VarText, AllApart;
    var x, x' := CoreText(session, c.value), CoreText(session, c'.value);
    var v, v' := Sym(VarText(session, c.variable)), Sym(VarText(session, c'.variable));
    FormParts("set!", [v, x], [v', x']);
    assert [v, x][0] == [v', x'][0] && [v, x][1] == [v', x'][1];
    VarsDiffer(session, c.variable, c'.variable, ns);
    TextDeterminesCore(session, c.value, c'.value, ns);
  }

  lemma {:induction false} AppsAlike(session: string, c: Core, c': Core, ns: set<string>)
    requires c.CApp? && c'.CApp?
    requires CoreShaped(session, c) && CoreShaped(session, c') && UsersIn(c, ns) && UsersIn(c', ns) && AllApart(session, ns)
    requires CoreText(session, c) == CoreText(session, c')
    ensures c == c'
    decreases c, 0
  {
    hide VarText, AllApart, CoreTexts, AllCoreShaped, AllUsersIn;
    var f, f' := CoreText(session, c.fn), CoreText(session, c'.fn);
    var xs, xs' := CoreTexts(session, c.args), CoreTexts(session, c'.args);
    assert ([f] + xs)[0] == ([f'] + xs')[0] && ([f] + xs)[1..] == xs && ([f'] + xs')[1..] == xs';
    TextDeterminesCore(session, c.fn, c'.fn, ns);
    AllTextsDetermine(session, c.args, c'.args, ns);
  }

  lemma {:induction false} LambdasAlike(session: string, c: Core, c': Core, ns: set<string>)
    requires c.CLambda? && c'.CLambda?
    requires CoreShaped(session, c) && CoreShaped(session, c') && UsersIn(c, ns) && UsersIn(c', ns) && AllApart(session, ns)
    requires CoreText(session, c) == CoreText(session, c')
    ensures c == c'
    decreases c, 0
  {
    hide VarText, AllApart, CoreTexts, AllCoreShaped, AllUsersIn, ParseFormals, CoreFormals, VarIn;
    var f, f' := CoreFormals(session, c.params, c.rest), CoreFormals(session, c'.params, c'.rest);
    var xs, xs' := CoreTexts(session, c.body), CoreTexts(session, c'.body);
    FormParts("lambda", [f] + xs, [f'] + xs');
    assert ([f] + xs)[0] == ([f'] + xs')[0] && ([f] + xs)[1..] == xs && ([f'] + xs')[1..] == xs';
    AllTextsDetermine(session, c.body, c'.body, ns);
    FormalsAlike(session, c.params, c.rest, c'.params, c'.rest, ns);
  }

  lemma FormalsAlike(session: string, ps: seq<Var>, rest: Option<Var>, ps': seq<Var>, rest': Option<Var>, ns: set<string>)
    requires ParseFormals(CoreFormals(session, ps, rest)).Ok? && CoreFormals(session, ps, rest) == CoreFormals(session, ps', rest')
    requires forall i :: 0 <= i < |ps| ==> VarIn(ps[i], ns)
    requires forall i :: 0 <= i < |ps'| ==> VarIn(ps'[i], ns)
    requires (rest.Some? ==> VarIn(rest.value, ns)) && (rest'.Some? ==> VarIn(rest'.value, ns)) && AllApart(session, ns)
    ensures ps == ps' && rest == rest'
  {
    hide ParseFormals, FormalsText, VarText, VarIn, AllApart;
    var names, names' := VarTexts(session, ps), VarTexts(session, ps');
    var r := if rest.None? then None else Some(VarText(session, rest.value));
    var r' := if rest'.None? then None else Some(VarText(session, rest'.value));
    FormalsReadBack(names, r);
    FormalsReadBack(names', r');
    assert names == names' && r == r';
    forall i | 0 <= i < |ps| ensures ps[i] == ps'[i] {
      assert names[i] == VarText(session, ps[i]) && names'[i] == VarText(session, ps'[i]);
      VarsDiffer(session, ps[i], ps'[i], ns);
    }
    if rest.Some? {
      VarsDiffer(session, rest.value, rest'.value, ns);
    }
  }
}
