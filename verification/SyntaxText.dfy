/**
 From text to patterns and templates: `parse_syntax_pattern` and `parse_syntax_template` of
 eta/core/src/eta/reader/expander.cpp. The same text read both ways gives a pattern and the
 template that undoes it.
 */
module SyntaxText {
  import opened Wrappers
  import opened SExprs
  import opened SyntaxRules
  import opened SyntaxRulesInversion

  datatype SyntaxError = MultipleEllipses | EllipsisWithoutPrecedingItem

  /** The items of a list so far; after an ellipsis the one before it is set apart. */
  datatype Parts<P> = Parts(before: seq<P>, repeated: Option<P>, after: seq<P>) {
    function Pushed(item: P): Parts<P> {
      if repeated.None? then Parts(before + [item], repeated, after) else Parts(before, repeated, after + [item])
    }

    function Split(): Result<Parts<P>, SyntaxError> {
      if repeated.Some? then Err(MultipleEllipses)
      else if before == [] then Err(EllipsisWithoutPrecedingItem)
      else Ok(Parts(before[..|before| - 1], Some(before[|before| - 1]), []))
    }
  }

  predicate IsEllipsis(x: SExpr) {
    IsSymbolNamed(x, "...")
  }

  // ---- Patterns ----

  function SymbolPattern(name: string, literals: map<string, string>): Pattern {
    if name == "_" then PatUnderscore
    else if name in literals then PatLiteral(literals[name])
    else PatVar(name)
  }

  function ListPattern(parts: Parts<Pattern>): Pattern {
    if parts.repeated.None? then PatList(parts.before)
    else PatEllipsis(parts.before, parts.repeated.value, parts.after)
  }

  /** A dotted tail is dropped. */
  function PatternOf(x: SExpr, literals: map<string, string>): Result<Pattern, SyntaxError> {
    match x
    case Sym(name) => Ok(SymbolPattern(name, literals))
    case List(elems, _) =>
      (match PatternParts(elems, literals, Parts([], None, []))
       case Err(e) => Err(e)
       case Ok(parts) => Ok(ListPattern(parts)))
    case _ => Ok(PatDatum(x))
  }

  function PatternParts(xs: seq<SExpr>, literals: map<string, string>, parts: Parts<Pattern>): Result<Parts<Pattern>, SyntaxError> {
    if xs == [] then Ok(parts)
    else if IsEllipsis(xs[0]) then
      match parts.Split()
      case Err(e) => Err(e)
      case Ok(split) => PatternParts(xs[1..], literals, split)
    else
      match PatternOf(xs[0], literals)
      case Err(e) => Err(e)
      case Ok(p) => PatternParts(xs[1..], literals, parts.Pushed(p))
  }

  method ParseSyntaxPattern(x: SExpr, literals: map<string, string>) returns (r: Result<Pattern, SyntaxError>)
    ensures r == PatternOf(x, literals)
    decreases x
  {
    match x {
      case Sym(name) => r := Ok(SymbolPattern(name, literals));
      case List(elems, _) =>
        var parts: Parts<Pattern> := Parts([], None, []);
        ghost var whole := PatternParts(elems, literals, parts);
        assert elems[0..] == elems;
        for i := 0 to |elems|
          invariant whole == PatternParts(elems[i..], literals, parts)
        {
          assert elems[i..][1..] == elems[i + 1..];
          if IsEllipsis(elems[i]) {
            var split := parts.Split();
            if split.Err? {
              return Err(split.error);
            }
            parts := split.value;
          } else {
            var p := ParseSyntaxPattern(elems[i], literals);
            if p.Err? {
              return p;
            }
            parts := parts.Pushed(p.value);
          }
        }
        r := Ok(ListPattern(parts));
      case _ => r := Ok(PatDatum(x));
    }
  }

  // ---- Templates ----

  function SymbolTemplate(name: string, vars: set<string>): Template {
    if name in vars then TmplVar(name) else TmplSymbol(name)
  }

  function ListTemplate(parts: Parts<Template>): Template {
    if parts.repeated.None? then TmplList(parts.before)
    else TmplEllipsis(parts.before, parts.repeated.value, parts.after)
  }

  function TemplateOf(x: SExpr, vars: set<string>): Result<Template, SyntaxError> {
    match x
    case Sym(name) => Ok(SymbolTemplate(name, vars))
    case List(elems, _) =>
      (match TemplateParts(elems, vars, Parts([], None, []))
       case Err(e) => Err(e)
       case Ok(parts) => Ok(ListTemplate(parts)))
    case _ => Ok(TmplDatum(x))
  }

  function TemplateParts(xs: seq<SExpr>, vars: set<string>, parts: Parts<Template>): Result<Parts<Template>, SyntaxError> {
    if xs == [] then Ok(parts)
    else if IsEllipsis(xs[0]) then
      match parts.Split()
      case Err(e) => Err(e)
      case Ok(split) => TemplateParts(xs[1..], vars, split)
    else
      match TemplateOf(xs[0], vars)
      case Err(e) => Err(e)
      case Ok(t) => TemplateParts(xs[1..], vars, parts.Pushed(t))
  }

  method ParseSyntaxTemplate(x: SExpr, vars: set<string>) returns (r: Result<Template, SyntaxError>)
    ensures r == TemplateOf(x, vars)
    decreases x
  {
    match x {
      case Sym(name) => r := Ok(SymbolTemplate(name, vars));
      case List(elems, _) =>
        var parts: Parts<Template> := Parts([], None, []);
        ghost var whole := TemplateParts(elems, vars, parts);
        assert elems[0..] == elems;
        for i := 0 to |elems|
          invariant whole == TemplateParts(elems[i..], vars, parts)
        {
          assert elems[i..][1..] == elems[i + 1..];
          if IsEllipsis(elems[i]) {
            var split := parts.Split();
            if split.Err? {
              return Err(split.error);
            }
            parts := split.value;
          } else {
            var t := ParseSyntaxTemplate(elems[i], vars);
            if t.Err? {
              return t;
            }
            parts := parts.Pushed(t.value);
          }
        }
        r := Ok(ListTemplate(parts));
      case _ => r := Ok(TmplDatum(x));
    }
  }

  // ---- One text, read both ways ----

  predicate SimpleItems(parts: Parts<Pattern>) {
    && AllSimple(parts.before) && AllSimple(parts.after)
    && (parts.repeated.Some? ==> IsSimple(parts.repeated.value))
  }

  function ItemVars(parts: Parts<Pattern>): set<string> {
    AllVars(parts.before) + AllVars(parts.after) + (if parts.repeated.Some? then PatternVars(parts.repeated.value) else {})
  }

  function AsTemplateItems(parts: Parts<Pattern>): Parts<Template>
    requires SimpleItems(parts)
  {
    Parts(AsTemplates(parts.before), if parts.repeated.None? then None else Some(AsTemplate(parts.repeated.value)),
      AsTemplates(parts.after))
  }

  lemma {:induction false} ConcatItems(ps: seq<Pattern>, qs: seq<Pattern>)
    ensures AllSimple(ps + qs) <==> AllSimple(ps) && AllSimple(qs)
    ensures AllVars(ps + qs) == AllVars(ps) + AllVars(qs)
    ensures AllSimple(ps + qs) ==> AsTemplates(ps + qs) == AsTemplates(ps) + AsTemplates(qs)
  {
    if ps == [] {
      assert ps + qs == qs;
    } else {
      assert (ps + qs)[1..] == ps[1..] + qs;
      ConcatItems(ps[1..], qs);
    }
  }

  lemma OneItem(p: Pattern)
    ensures AllSimple([p]) <==> IsSimple(p)
    ensures AllVars([p]) == PatternVars(p) && (IsSimple(p) ==> AsTemplates([p]) == [AsTemplate(p)])
  {
    assert [p][1..] == [];
  }

  /** Adding an item, as pattern and as template. */
  lemma PushAgrees(parts: Parts<Pattern>, p: Pattern)
    ensures SimpleItems(parts.Pushed(p)) <==> SimpleItems(parts) && IsSimple(p)
    ensures ItemVars(parts.Pushed(p)) == ItemVars(parts) + PatternVars(p)
    ensures SimpleItems(parts.Pushed(p)) ==>
      AsTemplateItems(parts.Pushed(p)) == AsTemplateItems(parts).Pushed(AsTemplate(p))
  {
    OneItem(p);
    ConcatItems(parts.before, [p]);
    ConcatItems(parts.after, [p]);
  }

  /** Meeting an ellipsis, as pattern and as template. */
  lemma SplitAgrees(parts: Parts<Pattern>)
    requires parts.Split().Ok? && parts.after == []
    ensures SimpleItems(parts.Split().value) ==> SimpleItems(parts)
    ensures ItemVars(parts.Split().value) == ItemVars(parts)
    ensures SimpleItems(parts.Split().value) ==>
      AsTemplateItems(parts).Split() == Ok(AsTemplateItems(parts.Split().value))
  {
    var n := |parts.before| - 1;
    var init, last := parts.before[..n], parts.before[n];
    assert parts.before == init + [last];
    OneItem(last);
    ConcatItems(init, [last]);
    if SimpleItems(parts.Split().value) {
      var ts := AsTemplates(parts.before);
      assert ts == AsTemplates(init) + [AsTemplate(last)];
      assert ts[..n] == AsTemplates(init) && ts[n] == AsTemplate(last);
    }
  }

  /** Nothing comes after an ellipsis that was not met. */
  lemma {:induction false} AfterNeedsEllipsis(xs: seq<SExpr>, parts: Parts<Pattern>)
    requires (parts.repeated.None? ==> parts.after == []) && PatternParts(xs, map[], parts).Ok?
    ensures PatternParts(xs, map[], parts).value.repeated.None? ==> PatternParts(xs, map[], parts).value.after == []
    decreases xs
  {
    if xs != [] {
      AfterNeedsEllipsis(xs[1..], if IsEllipsis(xs[0]) then parts.Split().value else parts.Pushed(PatternOf(xs[0], map[]).value));
    }
  }

  /** What was read stays part of the pattern. */
  lemma {:induction false} ItemsStay(xs: seq<SExpr>, parts: Parts<Pattern>)
    requires parts.repeated.None? ==> parts.after == []
    requires PatternParts(xs, map[], parts).Ok? && SimpleItems(PatternParts(xs, map[], parts).value)
    ensures SimpleItems(parts) && ItemVars(parts) <= ItemVars(PatternParts(xs, map[], parts).value)
    decreases xs
  {
    if xs != [] {
      if IsEllipsis(xs[0]) {
        ItemsStay(xs[1..], parts.Split().value);
        SplitAgrees(parts);
      } else {
        var p := PatternOf(xs[0], map[]).value;
        ItemsStay(xs[1..], parts.Pushed(p));
        PushAgrees(parts, p);
      }
    }
  }

  lemma {:induction false} ItemsAgree(xs: seq<SExpr>, parts: Parts<Pattern>, vars: set<string>)
    requires parts.repeated.None? ==> parts.after == []
    requires PatternParts(xs, map[], parts).Ok? && SimpleItems(PatternParts(xs, map[], parts).value)
    requires ItemVars(PatternParts(xs, map[], parts).value) <= vars
    ensures SimpleItems(parts)
    ensures TemplateParts(xs, vars, AsTemplateItems(parts)) == Ok(AsTemplateItems(PatternParts(xs, map[], parts).value))
    decreases xs, 0
  {
    hide SimpleItems, AsTemplateItems, ItemVars;
    ItemsStay(xs, parts);
    if xs != [] {
      if IsEllipsis(xs[0]) {
        var split := parts.Split().value;
        SplitAgrees(parts);
        ItemsStay(xs[1..], split);
        ItemsAgree(xs[1..], split, vars);
      } else {
        var p := PatternOf(xs[0], map[]).value;
        PushAgrees(parts, p);
        ItemsStay(xs[1..], parts.Pushed(p));
        ReadsAlike(xs[0], p, vars);
        ItemsAgree(xs[1..], parts.Pushed(p), vars);
      }
    }
  }

  lemma {:induction false} ReadsAlike(x: SExpr, p: Pattern, vars: set<string>)
    requires PatternOf(x, map[]) == Ok(p) && IsSimple(p) && PatternVars(p) <= vars
    ensures TemplateOf(x, vars) == Ok(AsTemplate(p))
    decreases x, 1
  {
    if x.List? {
      var start: Parts<Pattern> := Parts([], None, []);
      var parts := PatternParts(x.elems, map[], start).value;
      AfterNeedsEllipsis(x.elems, start);
      ListParts(parts, p);
      ItemsAgree(x.elems, start, vars);
      assert AsTemplateItems(start) == Parts([], None, []);
    }
  }

  lemma ListParts(parts: Parts<Pattern>, p: Pattern)
    requires p == ListPattern(parts) && IsSimple(p) && (parts.repeated.None? ==> parts.after == [])
    ensures SimpleItems(parts) && ItemVars(parts) == PatternVars(p) && ListTemplate(AsTemplateItems(parts)) == AsTemplate(p)
  {
  }

  /**
   A pattern's text, read as a template over its own variables: matching an input and instantiating
   gives the input back exactly when it survives.
   */
  lemma TextUndoesItself(mt: Matcher, cx: Context, text: SExpr, p: Pattern, x: SExpr, rn: Renaming) returns (y: SExpr)
    requires PatternOf(text, map[]) == Ok(p) && IsSimple(p) && IsLinear(p)
    requires IsOrder(cx.first) && Match(mt, p, x, map[]).Some?
    ensures TemplateOf(text, PatternVars(p)).Ok?
    ensures Instantiate(cx, TemplateOf(text, PatternVars(p)).value, Match(mt, p, x, map[]).value, rn) == Ok(Instance(y, rn))
    ensures Alike(mt, y, x) <==> Survives(p, x)
  {
    hide Match, Instantiate, PatternOf, TemplateOf, PatternVars, IsSimple, Alike, Survives, AsTemplate;
    ReadsAlike(text, p, PatternVars(p));
    y := RoundTripIffSurvives(mt, cx, p, x, rn);
  }
}
