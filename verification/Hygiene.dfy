/**
 What becomes of the names a template introduces: one instantiation gives every introduced name one
 symbol, different names different symbols, and no symbol an earlier instantiation used
 (`instantiate_template` of eta/core/src/eta/reader/expander.cpp).
 */
module Hygiene {
  import opened Wrappers
  import opened SExprs
  import opened Numerals
  import opened SyntaxRules

  // ---- Filling a template by plain substitution ----

  /** Structural keywords, definition-site names and macros keep a meaning of their own. */
  predicate IsIntroduced(cx: Context, name: string) {
    !IsStructuralKeyword(name) && name !in cx.definitions && name !in cx.macros
  }

  /** The symbol that stands for a name, given the symbols of all introduced names at once. */
  function SymbolOf(cx: Context, name: string, symbols: map<string, string>): string {
    if IsIntroduced(cx, name) then if name in symbols then symbols[name] else name
    else if !IsStructuralKeyword(name) && name in cx.definitions then cx.definitions[name]
    else name
  }

  /** The value of a variable, outside any ellipsis. */
  function ValueOfVariable(env: MatchEnv, name: string): SExpr {
    if name in env && env[name].Single? then env[name].value else Nil
  }

  /** The template with its variables and its symbols replaced; nothing is counted or remembered. */
  function Filled(cx: Context, t: Template, env: MatchEnv, symbols: map<string, string>): SExpr
    decreases t, 0
  {
    match t
    case TmplVar(n) => ValueOfVariable(env, n)
    case TmplDatum(d) => d
    case TmplSymbol(n) => Sym(SymbolOf(cx, n, symbols))
    case TmplList(elems) => Proper(AllFilled(cx, elems, env, symbols))
    case TmplEllipsis(before, repeated, after) =>
      Proper(AllFilled(cx, before, env, symbols) + RepeatsFilled(cx, repeated, env, 0, RepeatCount(cx, env), symbols)
        + AllFilled(cx, after, env, symbols))
  }

  function AllFilled(cx: Context, ts: seq<Template>, env: MatchEnv, symbols: map<string, string>): seq<SExpr>
    decreases ts, 0
  {
    if ts == [] then []
    else [Filled(cx, ts[0], env, symbols)] + AllFilled(cx, ts[1..], env, symbols)
  }

  function RepeatsFilled(cx: Context, t: Template, env: MatchEnv, r: nat, n: nat, symbols: map<string, string>): seq<SExpr>
    requires r <= n
    decreases t, n - r + 1
  {
    if r == n then []
    else [Filled(cx, t, Repetition(env, r), symbols)] + RepeatsFilled(cx, t, env, r + 1, n, symbols)
  }

  /** The names an instantiation introduces; a part repeated no times introduces none. */
  function Introduced(cx: Context, t: Template, env: MatchEnv): set<string>
    decreases t, 0
  {
    match t
    case TmplSymbol(n) => if IsIntroduced(cx, n) then {n} else {}
    case TmplList(elems) => AllIntroduced(cx, elems, env)
    case TmplEllipsis(before, repeated, after) =>
      AllIntroduced(cx, before, env) + RepeatsIntroduced(cx, repeated, env, 0, RepeatCount(cx, env))
        + AllIntroduced(cx, after, env)
    case _ => {}
  }

  function AllIntroduced(cx: Context, ts: seq<Template>, env: MatchEnv): set<string>
    decreases ts, 0
  {
    if ts == [] then {} else Introduced(cx, ts[0], env) + AllIntroduced(cx, ts[1..], env)
  }

  function RepeatsIntroduced(cx: Context, t: Template, env: MatchEnv, r: nat, n: nat): set<string>
    requires r <= n
    decreases t, n - r + 1
  {
    if r == n then {} else Introduced(cx, t, Repetition(env, r)) + RepeatsIntroduced(cx, t, env, r + 1, n)
  }

  /** The first variable that cannot be filled in, reading the template from the left. */
  function Fault(cx: Context, t: Template, env: MatchEnv): Option<TemplateError>
    decreases t, 0
  {
    match t
    case TmplVar(n) =>
      if n !in env then Some(UnboundPatternVariable)
      else if env[n].Repeated? then Some(EllipsisVariableOutsideEllipsis)
      else None
    case TmplList(elems) => FirstFault(cx, elems, env)
    case TmplEllipsis(before, repeated, after) =>
      FirstOf(FirstFault(cx, before, env),
        FirstOf(RepeatsFault(cx, repeated, env, 0, RepeatCount(cx, env)), FirstFault(cx, after, env)))
    case _ => None
  }

  function FirstOf(a: Option<TemplateError>, b: Option<TemplateError>): Option<TemplateError> {
    if a.Some? then a else b
  }

  function FirstFault(cx: Context, ts: seq<Template>, env: MatchEnv): Option<TemplateError>
    decreases ts, 0
  {
    if ts == [] then None else FirstOf(Fault(cx, ts[0], env), FirstFault(cx, ts[1..], env))
  }

  function RepeatsFault(cx: Context, t: Template, env: MatchEnv, r: nat, n: nat): Option<TemplateError>
    requires r <= n
    decreases t, n - r + 1
  {
    if r == n then None else FirstOf(Fault(cx, t, Repetition(env, r)), RepeatsFault(cx, t, env, r + 1, n))
  }

  // ---- What an instantiation does to its renaming ----

  /** Every name keeps the symbol it has. */
  ghost predicate Keeps(names: map<string, string>, names': map<string, string>) {
    forall n :: n in names ==> n in names' && names'[n] == names[n]
  }

  /** Symbols handed out between two values of the gensym counter. */
  ghost predicate IsGensymBetween(session: string, name: string, symbol: string, low: nat, high: nat) {
    exists k: nat :: low <= k < high && symbol == Gensym(name, session, k)
  }

  ghost predicate NewAreGensyms(session: string, rn: Renaming, rn': Renaming) {
    forall n :: n in rn'.names && n !in rn.names ==> IsGensymBetween(session, n, rn'.names[n], rn.counter, rn'.counter)
  }

  /** Names given a symbol on the way have symbols of their own. */
  ghost predicate NewAreDistinct(rn: Renaming, rn': Renaming) {
    forall m, n ::
      m in rn'.names && n in rn'.names && m !in rn.names && n !in rn.names && rn'.names[m] == rn'.names[n] ==> m == n
  }

  /** From `rn` to `rn'`, exactly `wanted` is given a symbol, each name once. */
  ghost predicate Introduces(session: string, rn: Renaming, rn': Renaming, wanted: set<string>) {
    && Keeps(rn.names, rn'.names)
    && rn'.names.Keys == rn.names.Keys + wanted
    && rn'.counter == rn.counter + |wanted - rn.names.Keys|
    && NewAreGensyms(session, rn, rn')
    && NewAreDistinct(rn, rn')
  }

  /** The last number of a gensym. */
  function AfterLastColon(s: string): string {
    if s == [] || s[|s| - 1] == ':' then []
    else AfterLastColon(s[..|s| - 1]) + [s[|s| - 1]]
  }

  lemma {:induction false} LastColonFound(a: string, b: string)
    requires ':' !in b
    ensures AfterLastColon(a + ":" + b) == b
  {
    var s := a + ":" + b;
    if b != [] {
      var shorter := b[..|b| - 1];
      assert s[..|s| - 1] == a + ":" + shorter;
      LastColonFound(a, shorter);
      assert b == shorter + [b[|b| - 1]];
    } else {
      assert s[|s| - 1] == ':';
    }
  }

  /** Gensyms of different counters differ, whatever their hints. */
  lemma CountersTell(session: string, hint: string, k: nat, hint': string, k': nat)
    requires Gensym(hint, session, k) == Gensym(hint', session, k')
    ensures k == k'
  {
    hide Decimal, AfterLastColon;
    var d, d' := Decimal(k + 1), Decimal(k' + 1);
    NoColon(d);
    NoColon(d');
    LastColonFound(hint + ":" + session, d);
    LastColonFound(hint' + ":" + session, d');
    DecimalInjective(k + 1, k' + 1);
  }

  lemma NoColon(s: string)
    requires IsNumeral(s, 10)
    ensures ':' !in s
  {
    assert !IsDigitIn(':', 10);
  }

  /** Two stretches of an instantiation make one. */
  lemma IntroducesInTurn(session: string, rn: Renaming, mid: Renaming, rn': Renaming, ns: set<string>, ns': set<string>)
    requires Introduces(session, rn, mid, ns) && Introduces(session, mid, rn', ns')
    ensures Introduces(session, rn, rn', ns + ns')
  {
    hide NewAreGensyms, NewAreDistinct, Keeps;
    KeepsInTurn(rn.names, mid.names, rn'.names);
    CountsAdd(rn.names.Keys, mid.names.Keys, ns, ns');
    GensymsInTurn(session, rn, mid, rn');
    DistinctInTurn(session, rn, mid, rn');
  }

  lemma KeepsInTurn(names: map<string, string>, mid: map<string, string>, names': map<string, string>)
    requires Keeps(names, mid) && Keeps(mid, names')
    ensures Keeps(names, names')
  {
  }

  lemma CountsAdd(known: set<string>, later: set<string>, ns: set<string>, ns': set<string>)
    requires later == known + ns
    ensures |(ns + ns') - known| == |ns - known| + |ns' - later|
  {
    assert (ns + ns') - known == (ns - known) + (ns' - later) && (ns - known) !! (ns' - later);
  }

  lemma GensymsInTurn(session: string, rn: Renaming, mid: Renaming, rn': Renaming)
    requires Keeps(mid.names, rn'.names) && rn.counter <= mid.counter <= rn'.counter
    requires NewAreGensyms(session, rn, mid) && NewAreGensyms(session, mid, rn')
    ensures NewAreGensyms(session, rn, rn')
  {
    hide IsGensymBetween;
    forall n | n in rn'.names && n !in rn.names
      ensures IsGensymBetween(session, n, rn'.names[n], rn.counter, rn'.counter)
    {
      if n in mid.names {
        GensymLater(session, n, rn'.names[n], rn.counter, mid.counter, rn.counter, rn'.counter);
      } else {
        GensymLater(session, n, rn'.names[n], mid.counter, rn'.counter, rn.counter, rn'.counter);
      }
    }
  }

  lemma DistinctInTurn(session: string, rn: Renaming, mid: Renaming, rn': Renaming)
    requires Keeps(mid.names, rn'.names)
    requires NewAreGensyms(session, rn, mid) && NewAreGensyms(session, mid, rn')
    requires NewAreDistinct(rn, mid) && NewAreDistinct(mid, rn')
    ensures NewAreDistinct(rn, rn')
  {
    hide IsGensymBetween;
    forall m, n | m in rn'.names && n in rn'.names && m !in rn.names && n !in rn.names && rn'.names[m] == rn'.names[n]
      ensures m == n
    {
      if m in mid.names && n !in mid.names {
        GensymsApart(session, m, n, rn'.names[m], rn.counter, mid.counter, mid.counter, rn'.counter);
      } else if n in mid.names && m !in mid.names {
        GensymsApart(session, n, m, rn'.names[m], rn.counter, mid.counter, mid.counter, rn'.counter);
      }
    }
  }

  lemma GensymLater(session: string, name: string, symbol: string, low: nat, high: nat, low': nat, high': nat)
    requires IsGensymBetween(session, name, symbol, low, high) && low' <= low && high <= high'
    ensures IsGensymBetween(session, name, symbol, low', high')
  {
    hide Gensym;
    var k: nat :| low <= k < high && symbol == Gensym(name, session, k);
    assert low' <= k < high';
  }

  /** One symbol was not handed out twice. */
  lemma GensymsApart(session: string, m: string, n: string, symbol: string, low: nat, high: nat, low': nat, high': nat)
    requires IsGensymBetween(session, m, symbol, low, high) && IsGensymBetween(session, n, symbol, low', high')
    ensures low' < high
  {
    hide Gensym;
    var k: nat :| low <= k < high && symbol == Gensym(m, session, k);
    var k': nat :| low' <= k' < high' && symbol == Gensym(n, session, k');
    CountersTell(session, m, k, n, k');
  }

  lemma IntroducesNothing(session: string, rn: Renaming)
    ensures Introduces(session, rn, rn, {})
  {
    assert {} - rn.names.Keys == {};
  }

  lemma SymbolIntroduces(cx: Context, n: string, rn: Renaming)
    ensures Introduces(cx.session, rn, SymbolFor(cx, n, rn).renaming, if IsIntroduced(cx, n) then {n} else {})
    ensures SymbolFor(cx, n, rn).value == Sym(SymbolOf(cx, n, SymbolFor(cx, n, rn).renaming.names))
    ensures IsIntroduced(cx, n) ==> n in SymbolFor(cx, n, rn).renaming.names
  {
    hide Introduces, Gensym, IsStructuralKeyword;
    IntroducesNothing(cx.session, rn);
    if IsIntroduced(cx, n) {
      if n in rn.names {
        KnownIntroducesNothing(cx.session, rn, n);
      } else {
        NewIntroducesOne(cx.session, rn, n);
      }
    }
  }

  lemma KnownIntroducesNothing(session: string, rn: Renaming, n: string)
    requires n in rn.names
    ensures Introduces(session, rn, rn, {n})
  {
    assert {n} - rn.names.Keys == {};
  }

  lemma NewIntroducesOne(session: string, rn: Renaming, n: string)
    requires n !in rn.names
    ensures Introduces(session, rn, Renaming(rn.names[n := Gensym(n, session, rn.counter)], rn.counter + 1), {n})
  {
    hide Gensym;
    var rn' := Renaming(rn.names[n := Gensym(n, session, rn.counter)], rn.counter + 1);
    assert {n} - rn.names.Keys == {n};
    assert IsGensymBetween(session, n, rn'.names[n], rn.counter, rn'.counter);
  }

  // ---- Every instantiation ----

  /** An outcome without fault, and the names it introduces; or the fault. */
  ghost predicate Outcome<T>(
    cx: Context, rn: Renaming, r: Result<Instance<T>, TemplateError>, fault: Option<TemplateError>, wanted: set<string>)
  {
    match fault
    case Some(e) => r == Err(e)
    case None => r.Ok? && Introduces(cx.session, rn, r.value.renaming, wanted)
  }

  lemma {:induction false} Instantiates(cx: Context, t: Template, env: MatchEnv, rn: Renaming)
    ensures Outcome(cx, rn, Instantiate(cx, t, env, rn), Fault(cx, t, env), Introduced(cx, t, env))
    decreases t, 0
  {
    hide Introduces, SymbolFor, Repetition, RepeatCount;
    match t {
      case TmplSymbol(n) =>
        SymbolIntroduces(cx, n, rn);
      case TmplList(elems) =>
        AllInstantiate(cx, elems, env, rn);
      case TmplEllipsis(before, repeated, after) =>
        AllInstantiate(cx, before, env, rn);
        var b := InstantiateAll(cx, before, env, rn);
        if b.Ok? {
          var rn1 := b.value.renaming;
          RepeatsInstantiate(cx, repeated, env, 0, RepeatCount(cx, env), rn1);
          var m := InstantiateRepeats(cx, repeated, env, 0, RepeatCount(cx, env), rn1);
          if m.Ok? {
            var rn2 := m.value.renaming;
            AllInstantiate(cx, after, env, rn2);
            var wanted := RepeatsIntroduced(cx, repeated, env, 0, RepeatCount(cx, env));
            IntroducesInTurn(cx.session, rn, rn1, rn2, AllIntroduced(cx, before, env), wanted);
            var a := InstantiateAll(cx, after, env, rn2);
            if a.Ok? {
              IntroducesInTurn(cx.session, rn, rn2, a.value.renaming,
                AllIntroduced(cx, before, env) + wanted, AllIntroduced(cx, after, env));
            }
          }
        }
      case _ =>
        IntroducesNothing(cx.session, rn);
    }
  }

  lemma {:induction false} AllInstantiate(cx: Context, ts: seq<Template>, env: MatchEnv, rn: Renaming)
    ensures Outcome(cx, rn, InstantiateAll(cx, ts, env, rn), FirstFault(cx, ts, env), AllIntroduced(cx, ts, env))
    decreases ts, 0
  {
    hide Introduces, Instantiate, Fault, Introduced;
    if ts == [] {
      IntroducesNothing(cx.session, rn);
    } else {
      Instantiates(cx, ts[0], env, rn);
      var x := Instantiate(cx, ts[0], env, rn);
      if x.Ok? {
        var mid := x.value.renaming;
        AllInstantiate(cx, ts[1..], env, mid);
        var xs := InstantiateAll(cx, ts[1..], env, mid);
        if xs.Ok? {
          IntroducesInTurn(cx.session, rn, mid, xs.value.renaming,
            Introduced(cx, ts[0], env), AllIntroduced(cx, ts[1..], env));
        }
      }
    }
  }

  lemma {:induction false} RepeatsInstantiate(cx: Context, t: Template, env: MatchEnv, r: nat, n: nat, rn: Renaming)
    requires r <= n
    ensures Outcome(cx, rn, InstantiateRepeats(cx, t, env, r, n, rn), RepeatsFault(cx, t, env, r, n),
      RepeatsIntroduced(cx, t, env, r, n))
    decreases t, n - r + 1
  {
    hide Introduces, Instantiate, Fault, Introduced, Repetition;
    if r == n {
      IntroducesNothing(cx.session, rn);
    } else {
      Instantiates(cx, t, Repetition(env, r), rn);
      var x := Instantiate(cx, t, Repetition(env, r), rn);
      if x.Ok? {
        var mid := x.value.renaming;
        RepeatsInstantiate(cx, t, env, r + 1, n, mid);
        var xs := InstantiateRepeats(cx, t, env, r + 1, n, mid);
        if xs.Ok? {
          IntroducesInTurn(cx.session, rn, mid, xs.value.renaming,
            Introduced(cx, t, Repetition(env, r)), RepeatsIntroduced(cx, t, env, r + 1, n));
        }
      }
    }
  }

  /** Whatever symbols extend those at the end, the outcome is the template filled with them. */
  lemma {:induction false} Fills(cx: Context, t: Template, env: MatchEnv, rn: Renaming, symbols: map<string, string>)
    requires Instantiate(cx, t, env, rn).Ok?
    requires Keeps(Instantiate(cx, t, env, rn).value.renaming.names, symbols)
    ensures Instantiate(cx, t, env, rn).value.value == Filled(cx, t, env, symbols)
    decreases t, 0
  {
    hide SymbolFor, SymbolOf, Repetition, RepeatCount, Keeps;
    match t {
      case TmplSymbol(n) =>
        SymbolIntroduces(cx, n, rn);
        SymbolStays(cx, n, SymbolFor(cx, n, rn).renaming.names, symbols);
      case TmplList(elems) =>
        AllFill(cx, elems, env, rn, symbols);
      case TmplEllipsis(before, repeated, after) =>
        var b := InstantiateAll(cx, before, env, rn).value;
        var m := InstantiateRepeats(cx, repeated, env, 0, RepeatCount(cx, env), b.renaming).value;
        KeptByAll(cx, after, env, m.renaming, symbols);
        AllFill(cx, after, env, m.renaming, symbols);
        KeptByRepeats(cx, repeated, env, 0, RepeatCount(cx, env), b.renaming, symbols);
        RepeatsFill(cx, repeated, env, 0, RepeatCount(cx, env), b.renaming, symbols);
        AllFill(cx, before, env, rn, symbols);
      case _ =>
    }
  }

  lemma SymbolStays(cx: Context, n: string, names: map<string, string>, symbols: map<string, string>)
    requires Keeps(names, symbols) && (IsIntroduced(cx, n) ==> n in names)
    ensures SymbolOf(cx, n, symbols) == SymbolOf(cx, n, names)
  {
    hide IsIntroduced;
  }

  lemma KeptByAll(cx: Context, ts: seq<Template>, env: MatchEnv, rn: Renaming, symbols: map<string, string>)
    requires InstantiateAll(cx, ts, env, rn).Ok? && Keeps(InstantiateAll(cx, ts, env, rn).value.renaming.names, symbols)
    ensures Keeps(rn.names, symbols)
  {
    hide InstantiateAll, Keeps;
    AllInstantiate(cx, ts, env, rn);
    KeepsInTurn(rn.names, InstantiateAll(cx, ts, env, rn).value.renaming.names, symbols);
  }

  lemma KeptByRepeats(
    cx: Context, t: Template, env: MatchEnv, r: nat, n: nat, rn: Renaming, symbols: map<string, string>)
    requires r <= n && InstantiateRepeats(cx, t, env, r, n, rn).Ok?
    requires Keeps(InstantiateRepeats(cx, t, env, r, n, rn).value.renaming.names, symbols)
    ensures Keeps(rn.names, symbols)
  {
    hide InstantiateRepeats, Keeps;
    RepeatsInstantiate(cx, t, env, r, n, rn);
    KeepsInTurn(rn.names, InstantiateRepeats(cx, t, env, r, n, rn).value.renaming.names, symbols);
  }

  lemma {:induction false} AllFill(cx: Context, ts: seq<Template>, env: MatchEnv, rn: Renaming, symbols: map<string, string>)
    requires InstantiateAll(cx, ts, env, rn).Ok? && Keeps(InstantiateAll(cx, ts, env, rn).value.renaming.names, symbols)
    ensures InstantiateAll(cx, ts, env, rn).value.value == AllFilled(cx, ts, env, symbols)
    decreases ts, 0
  {
    hide Instantiate, Filled, Keeps;
    if ts != [] {
      var mid := Instantiate(cx, ts[0], env, rn).value.renaming;
      AllFill(cx, ts[1..], env, mid, symbols);
      KeptByAll(cx, ts[1..], env, mid, symbols);
      Fills(cx, ts[0], env, rn, symbols);
    }
  }

  lemma {:induction false} RepeatsFill(
    cx: Context, t: Template, env: MatchEnv, r: nat, n: nat, rn: Renaming, symbols: map<string, string>)
    requires r <= n && InstantiateRepeats(cx, t, env, r, n, rn).Ok?
    requires Keeps(InstantiateRepeats(cx, t, env, r, n, rn).value.renaming.names, symbols)
    ensures InstantiateRepeats(cx, t, env, r, n, rn).value.value == RepeatsFilled(cx, t, env, r, n, symbols)
    decreases t, n - r + 1
  {
    hide Instantiate, Filled, Keeps, Repetition;
    if r < n {
      var mid := Instantiate(cx, t, Repetition(env, r), rn).value.renaming;
      RepeatsFill(cx, t, env, r + 1, n, mid, symbols);
      KeptByRepeats(cx, t, env, r + 1, n, mid, symbols);
      Fills(cx, t, Repetition(env, r), rn, symbols);
    }
  }

  // ---- The law of introduced names ----

  /**
   An instantiation fails with the template's first fault, or gives each name it introduces one
   symbol: its outcome is the template filled with the symbols known at the end, names known
   before keep theirs, and new ones get gensyms that no two names share.
   */
  lemma NamesAreIntroducedOnce(cx: Context, t: Template, env: MatchEnv, rn: Renaming)
    ensures Instantiate(cx, t, env, rn).Err? <==> Fault(cx, t, env).Some?
    ensures Fault(cx, t, env).Some? ==> Instantiate(cx, t, env, rn) == Err(Fault(cx, t, env).value)
    ensures Fault(cx, t, env).None? ==>
      var i := Instantiate(cx, t, env, rn).value;
      && i.value == Filled(cx, t, env, i.renaming.names)
      && Introduces(cx.session, rn, i.renaming, Introduced(cx, t, env))
  {
    hide Instantiate, Fault, Introduced, Filled, Introduces;
    Instantiates(cx, t, env, rn);
    if Fault(cx, t, env).None? {
      Fills(cx, t, env, rn, Instantiate(cx, t, env, rn).value.renaming.names);
    }
  }

  /**
   Two uses of macros, each starting without renamed names: no symbol one of them introduces is
   introduced by the other.
   */
  lemma UsesDoNotMeet(
    cx: Context, t: Template, env: MatchEnv, c: nat, i: Instance<SExpr>, t': Template, env': MatchEnv, i': Instance<SExpr>)
    requires Instantiate(cx, t, env, Renaming(map[], c)) == Ok(i)
    requires Instantiate(cx, t', env', Renaming(map[], i.renaming.counter)) == Ok(i')
    ensures i.renaming.names.Keys == Introduced(cx, t, env) && i'.renaming.names.Keys == Introduced(cx, t', env')
    ensures i.renaming.names.Values !! i'.renaming.names.Values
  {
    hide Instantiate, Fault, Introduced, Gensym, Filled, IsGensymBetween, NewAreDistinct;
    var session, none := cx.session, Renaming(map[], c);
    NamesAreIntroducedOnce(cx, t, env, none);
    var middle := Renaming(map[], i.renaming.counter);
    NamesAreIntroducedOnce(cx, t', env', middle);
    var first, second := i.renaming, i'.renaming;
    forall m, n | m in first.names && n in second.names
      ensures first.names[m] != second.names[n]
    {
      if first.names[m] == second.names[n] {
        GensymsApart(session, m, n, first.names[m], none.counter, first.counter, first.counter, second.counter);
      }
    }
  }

  // ---- Repetitions of several variables ----

  /** Each value with the value at its place in the other list, or with nothing. */
  function Zipped(xs: seq<SExpr>, ys: seq<SExpr>, r: nat): seq<SExpr>
    requires r <= |xs|
    decreases |xs| - r
  {
    if r == |xs| then [] else [Proper([xs[r], if r < |ys| then ys[r] else Nil])] + Zipped(xs, ys, r + 1)
  }

  /** `((a b) ...)` repeats as often as the variable met first has values; the other is cut or filled up. */
  lemma PairsAreZipped(cx: Context, xs: seq<SExpr>, ys: seq<SExpr>, rn: Renaming)
    requires cx.first(map["a" := Repeated(xs), "b" := Repeated(ys)]) == "a"
    ensures Instantiate(cx, TmplEllipsis([], TmplList([TmplVar("a"), TmplVar("b")]), []),
      map["a" := Repeated(xs), "b" := Repeated(ys)], rn) == Ok(Instance(Proper(Zipped(xs, ys, 0)), rn))
  {
    var env: MatchEnv := map["a" := Repeated(xs), "b" := Repeated(ys)];
    PairsRepeat(cx, xs, ys, env, 0, rn);
    assert RepeatCount(cx, env) == |xs|;
    hide InstantiateRepeats;
    assert [] + Zipped(xs, ys, 0) + [] == Zipped(xs, ys, 0);
  }

  lemma {:induction false} PairsRepeat(cx: Context, xs: seq<SExpr>, ys: seq<SExpr>, env: MatchEnv, r: nat, rn: Renaming)
    requires env == map["a" := Repeated(xs), "b" := Repeated(ys)] && r <= |xs|
    ensures InstantiateRepeats(cx, TmplList([TmplVar("a"), TmplVar("b")]), env, r, |xs|, rn)
      == Ok(Instance(Zipped(xs, ys, r), rn))
    decreases |xs| - r
  {
    if r < |xs| {
      var env' := Repetition(env, r);
      assert env'["a"] == Single(xs[r]) && env'["b"] == Single(if r < |ys| then ys[r] else Nil);
      TwoVariables(cx, env', "a", "b", rn);
      PairsRepeat(cx, xs, ys, env, r + 1, rn);
      hide InstantiateAll, Repetition;
    }
  }

  lemma TwoVariables(cx: Context, env: MatchEnv, m: string, n: string, rn: Renaming)
    requires m in env && n in env && env[m].Single? && env[n].Single?
    ensures InstantiateAll(cx, [TmplVar(m), TmplVar(n)], env, rn) == Ok(Instance([env[m].value, env[n].value], rn))
  {
    var t := [TmplVar(m), TmplVar(n)];
    var x, y := env[m].value, env[n].value;
    assert t[1..] == [TmplVar(n)] && t[1..][1..] == [];
    assert InstantiateAll(cx, t[1..][1..], env, rn) == Ok(Instance([], rn));
    assert Instantiate(cx, t[1], env, rn) == Ok(Instance(y, rn));
    assert [y] + [] == [y] && [x] + [y] == [x, y];
    assert InstantiateAll(cx, t[1..], env, rn) == Ok(Instance([y], rn));
  }
}
