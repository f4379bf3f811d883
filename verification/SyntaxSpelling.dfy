/**
 Which texts spell which patterns and templates: a relation on data alone, and the proof that
 `parse_syntax_pattern` and `parse_syntax_template` of eta/core/src/eta/reader/expander.cpp read
 exactly what is spelled.
 */
module SyntaxSpelling {
  import opened Wrappers
  import opened SExprs
  import opened SyntaxRules
  import opened SyntaxText

  // ---- Lists with an ellipsis, whatever their items are read as ----

  /** The item loop for any reading of the items. */
  function ItemsWith<P>(xs: seq<SExpr>, read: SExpr -> Result<P, SyntaxError>, parts: Parts<P>): Result<Parts<P>, SyntaxError> {
    if xs == [] then Ok(parts)
    else if IsEllipsis(xs[0]) then
      match parts.Split()
      case Err(e) => Err(e)
      case Ok(split) => ItemsWith(xs[1..], read, split)
    else
      match read(xs[0])
      case Err(e) => Err(e)
      case Ok(p) => ItemsWith(xs[1..], read, parts.Pushed(p))
  }

  ghost predicate EachReads<P>(xs: seq<SExpr>, read: SExpr -> Result<P, SyntaxError>, ps: seq<P>) {
    |xs| == |ps| && forall i :: 0 <= i < |xs| ==> !IsEllipsis(xs[i]) && read(xs[i]) == Ok(ps[i])
  }

  /** Items without an ellipsis, or with one right after the item it repeats. */
  ghost predicate ReadsAs<P>(xs: seq<SExpr>, read: SExpr -> Result<P, SyntaxError>, q: Parts<P>) {
    match q.repeated
    case None => q.after == [] && EachReads(xs, read, q.before)
    case Some(r) =>
      && |xs| == |q.before| + 2 + |q.after|
      && EachReads(xs[..|q.before| + 1], read, q.before + [r])
      && IsEllipsis(xs[|q.before| + 1])
      && EachReads(xs[|q.before| + 2..], read, q.after)
  }

  lemma {:induction false} PlainItems<P>(xs: seq<SExpr>, read: SExpr -> Result<P, SyntaxError>, parts: Parts<P>, ps: seq<P>)
    requires EachReads(xs, read, ps)
    ensures ItemsWith(xs, read, parts) == Ok(PushedAll(parts, ps))
    decreases xs
  {
    if xs == [] {
      assert ps == [];
      NothingPushed(parts);
    } else {
      assert EachReads(xs[1..], read, ps[1..]);
      PlainItems(xs[1..], read, parts.Pushed(ps[0]), ps[1..]);
      PushedInTurn(parts, ps);
    }
  }

  function PushedAll<P>(parts: Parts<P>, ps: seq<P>): Parts<P> {
    if parts.repeated.None? then Parts(parts.before + ps, None, parts.after)
    else Parts(parts.before, parts.repeated, parts.after + ps)
  }

  lemma NothingPushed<P>(parts: Parts<P>)
    ensures PushedAll(parts, []) == parts
  {
    assert parts.before + [] == parts.before && parts.after + [] == parts.after;
  }

  lemma PushedInTurn<P>(parts: Parts<P>, ps: seq<P>)
    requires ps != []
    ensures PushedAll(parts.Pushed(ps[0]), ps[1..]) == PushedAll(parts, ps)
  {
    assert parts.before + ps == (parts.before + [ps[0]]) + ps[1..];
    assert parts.after + ps == (parts.after + [ps[0]]) + ps[1..];
  }

  lemma {:induction false} ItemsInTurn<P>(
    xs: seq<SExpr>, ys: seq<SExpr>, read: SExpr -> Result<P, SyntaxError>, parts: Parts<P>, ps: seq<P>)
    requires EachReads(xs, read, ps)
    ensures ItemsWith(xs + ys, read, parts) == ItemsWith(ys, read, PushedAll(parts, ps))
    decreases xs
  {
    if xs == [] {
      assert ps == [] && xs + ys == ys;
      NothingPushed(parts);
    } else {
      assert (xs + ys)[1..] == xs[1..] + ys && (xs + ys)[0] == xs[0];
      assert EachReads(xs[1..], read, ps[1..]);
      ItemsInTurn(xs[1..], ys, read, parts.Pushed(ps[0]), ps[1..]);
      PushedInTurn(parts, ps);
    }
  }

  function Start<P>(): Parts<P> {
    Parts([], None, [])
  }

  lemma ReadItems<P>(xs: seq<SExpr>, read: SExpr -> Result<P, SyntaxError>, q: Parts<P>)
    requires ReadsAs(xs, read, q)
    ensures ItemsWith(xs, read, Start()) == Ok(q)
  {
    if q.repeated.None? {
      PlainItems(xs, read, Start(), q.before);
      assert [] + q.before == q.before;
    } else {
      var k := |q.before|;
      var firsts, rest := xs[..k + 1], xs[k + 2..];
      assert xs == firsts + ([xs[k + 1]] + rest);
      ItemsInTurn(firsts, [xs[k + 1]] + rest, read, Start(), q.before + [q.repeated.value]);
      var parts := Parts([] + (q.before + [q.repeated.value]), None, []);
      assert parts.before[..k] == q.before && parts.before[k] == q.repeated.value;
      assert parts.Split() == Ok(Parts(q.before, q.repeated, []));
      PlainItems(rest, read, Parts(q.before, q.repeated, []), q.after);
      assert [] + q.after == q.after;
    }
  }

  /** What has been read of a list so far is kept in the result. */
  lemma {:induction false} ItemsRead<P>(
    done: seq<SExpr>, xs: seq<SExpr>, read: SExpr -> Result<P, SyntaxError>, parts: Parts<P>)
    requires ReadsAs(done, read, parts) && ItemsWith(xs, read, parts).Ok?
    ensures ReadsAs(done + xs, read, ItemsWith(xs, read, parts).value)
    decreases xs
  {
    if xs == [] {
      assert done + xs == done;
    } else {
      assert done + xs == (done + [xs[0]]) + xs[1..];
      if IsEllipsis(xs[0]) {
        SplitRead(done, xs[0], read, parts);
        ItemsRead(done + [xs[0]], xs[1..], read, parts.Split().value);
      } else {
        PushRead(done, xs[0], read, parts);
        ItemsRead(done + [xs[0]], xs[1..], read, parts.Pushed(read(xs[0]).value));
      }
    }
  }

  lemma SplitRead<P>(done: seq<SExpr>, x: SExpr, read: SExpr -> Result<P, SyntaxError>, parts: Parts<P>)
    requires ReadsAs(done, read, parts) && IsEllipsis(x) && parts.Split().Ok?
    ensures ReadsAs(done + [x], read, parts.Split().value)
  {
    var k := |parts.before| - 1;
    var xs := done + [x];
    assert parts.before[..k] + [parts.before[k]] == parts.before;
    assert xs[..k + 1] == done && xs[k + 2..] == [];
  }

  lemma PushRead<P>(done: seq<SExpr>, x: SExpr, read: SExpr -> Result<P, SyntaxError>, parts: Parts<P>)
    requires ReadsAs(done, read, parts) && !IsEllipsis(x) && read(x).Ok?
    ensures ReadsAs(done + [x], read, parts.Pushed(read(x).value))
  {
    var xs := done + [x];
    if parts.repeated.None? {
      assert EachReads(xs, read, parts.before + [read(x).value]);
    } else {
      var k := |parts.before|;
      assert xs[..k + 1] == done[..k + 1] && xs[k + 2..] == done[k + 2..] + [x];
      assert EachReads(xs[k + 2..], read, parts.after + [read(x).value]);
    }
  }

  /** The loop reads exactly the lists of items with at most one ellipsis, after an item. */
  lemma ItemsIff<P>(xs: seq<SExpr>, read: SExpr -> Result<P, SyntaxError>, q: Parts<P>)
    ensures ItemsWith(xs, read, Start()) == Ok(q) <==> ReadsAs(xs, read, q)
  {
    if ReadsAs(xs, read, q) {
      ReadItems(xs, read, q);
    }
    if ItemsWith(xs, read, Start()) == Ok(q) {
      assert EachReads([], read, []);
      ItemsRead([], xs, read, Start());
      assert [] + xs == xs;
    }
  }

  /** An ellipsis first in the list, or a second one, is an error; so is what is wrong with an item. */
  lemma ItemsFail<P>(
    xs: seq<SExpr>, ps: seq<P>, x: SExpr, ys: seq<SExpr>, qs: seq<P>, y: SExpr, rest: seq<SExpr>,
    read: SExpr -> Result<P, SyntaxError>)
    requires EachReads(xs, read, ps) && EachReads(ys, read, qs) && IsEllipsis(x) && IsEllipsis(y)
    ensures xs == [] ==> ItemsWith([x] + rest, read, Start()) == Err(EllipsisWithoutPrecedingItem)
    ensures xs != [] ==> ItemsWith(xs + ([x] + (ys + ([y] + rest))), read, Start()) == Err(MultipleEllipses)
  {
    if xs != [] {
      ItemsInTurn(xs, [x] + (ys + ([y] + rest)), read, Start(), ps);
      var parts := PushedAll(Start(), ps);
      assert parts.before == ps;
      var split := parts.Split().value;
      ItemsInTurn(ys, [y] + rest, read, split, qs);
    }
  }

  lemma ItemFails<P>(xs: seq<SExpr>, ps: seq<P>, x: SExpr, rest: seq<SExpr>, read: SExpr -> Result<P, SyntaxError>)
    requires EachReads(xs, read, ps) && !IsEllipsis(x) && read(x).Err?
    ensures ItemsWith(xs + ([x] + rest), read, Start()) == Err(read(x).error)
  {
    ItemsInTurn(xs, [x] + rest, read, Start(), ps);
  }

  // ---- Patterns ----

  /** `x` is a text of the pattern: `_`, a literal, a variable, a list with at most one ellipsis, or a datum that stands for itself. */
  ghost predicate SpellsPattern(x: SExpr, p: Pattern, literals: map<string, string>)
    decreases x
  {
    match x
    case Sym(name) =>
      (match p
       case PatUnderscore => name == "_"
       case PatLiteral(identity) => name != "_" && name in literals && identity == literals[name]
       case PatVar(n) => name != "_" && name !in literals && n == name
       case _ => false)
    case List(xs, _) =>
      (match p
       case PatList(ps) => SpellPatterns(xs, ps, literals)
       case PatEllipsis(before, repeated, after) =>
         && |xs| == |before| + 2 + |after| && xs[|before| + 1] == Sym("...")
         && SpellPatterns(xs[..|before| + 1], before + [repeated], literals)
         && SpellPatterns(xs[|before| + 2..], after, literals)
       case _ => false)
    case _ => p == PatDatum(x)
  }

  ghost predicate SpellPatterns(xs: seq<SExpr>, ps: seq<Pattern>, literals: map<string, string>)
    decreases xs
  {
    |xs| == |ps| && forall i :: 0 <= i < |xs| ==> xs[i] != Sym("...") && SpellsPattern(xs[i], ps[i], literals)
  }

  lemma {:induction false} PatternItemsAre(xs: seq<SExpr>, literals: map<string, string>, parts: Parts<Pattern>)
    ensures PatternParts(xs, literals, parts) == ItemsWith(xs, (y: SExpr) => PatternOf(y, literals), parts)
    decreases xs
  {
    var read := (y: SExpr) => PatternOf(y, literals);
    if xs != [] {
      if IsEllipsis(xs[0]) {
        if parts.Split().Ok? {
          PatternItemsAre(xs[1..], literals, parts.Split().value);
        }
      } else {
        assert read(xs[0]) == PatternOf(xs[0], literals);
        if read(xs[0]).Ok? {
          PatternItemsAre(xs[1..], literals, parts.Pushed(read(xs[0]).value));
        }
      }
    }
  }

  lemma PatternOfList(x: SExpr, literals: map<string, string>, q: Parts<Pattern>)
    requires x.List?
    ensures (PatternParts(x.elems, literals, Start()) == Ok(q)) <==> ReadsAs(x.elems, (y: SExpr) => PatternOf(y, literals), q)
    ensures PatternParts(x.elems, literals, Start()) == Ok(q) ==> PatternOf(x, literals) == Ok(ListPattern(q))
  {
    PatternItemsAre(x.elems, literals, Start());
    ItemsIff(x.elems, (y: SExpr) => PatternOf(y, literals), q);
    hide PatternParts, ItemsWith, ReadsAs;
    assert Start<Pattern>() == Parts([], None, []);
  }

  /** A text is read as a pattern exactly when it spells it. */
  lemma {:induction false} PatternIsSpelled(x: SExpr, p: Pattern, literals: map<string, string>)
    ensures PatternOf(x, literals) == Ok(p) <==> SpellsPattern(x, p, literals)
    decreases x, 1
  {
    hide PatternParts, ReadsAs;
    if x.List? {
      PatternListIsSpelled(x, p, literals);
    }
  }

  lemma {:induction false} PatternsAreSpelled(xs: seq<SExpr>, ps: seq<Pattern>, literals: map<string, string>)
    ensures EachReads(xs, (y: SExpr) => PatternOf(y, literals), ps) <==> SpellPatterns(xs, ps, literals)
    decreases xs, 0
  {
    hide PatternOf, SpellsPattern;
    var read := (y: SExpr) => PatternOf(y, literals);
    if |xs| == |ps| {
      forall i | 0 <= i < |xs| ensures read(xs[i]) == Ok(ps[i]) <==> SpellsPattern(xs[i], ps[i], literals) {
        PatternIsSpelled(xs[i], ps[i], literals);
      }
    }
  }

  lemma {:induction false} PatternListIsSpelled(x: SExpr, p: Pattern, literals: map<string, string>)
    requires x.List?
    ensures PatternOf(x, literals) == Ok(p) <==> SpellsPattern(x, p, literals)
    decreases x, 0
  {
    hide PatternParts, EachReads, SpellPatterns;
    var xs := x.elems;
    if PatternOf(x, literals) == Ok(p) {
      var q := PatternParts(xs, literals, Parts([], None, [])).value;
      assert Start<Pattern>() == Parts([], None, []);
      PatternOfList(x, literals, q);
      if q.repeated.None? {
        PatternsAreSpelled(xs, q.before, literals);
      } else {
        PatternsAreSpelled(xs[..|q.before| + 1], q.before + [q.repeated.value], literals);
        PatternsAreSpelled(xs[|q.before| + 2..], q.after, literals);
      }
    }
    if SpellsPattern(x, p, literals) {
      var q := if p.PatList? then Parts(p.elems, None, []) else Parts(p.before, Some(p.repeated), p.after);
      if p.PatList? {
        PatternsAreSpelled(xs, p.elems, literals);
      } else {
        PatternsAreSpelled(xs[..|p.before| + 1], p.before + [p.repeated], literals);
        PatternsAreSpelled(xs[|p.before| + 2..], p.after, literals);
      }
      PatternOfList(x, literals, q);
    }
  }

  // ---- Templates ----

  /** `x` is a text of the template: a variable, a symbol, a list with at most one ellipsis, or a datum that stands for itself. */
  ghost predicate SpellsTemplate(x: SExpr, p: Template, vars: set<string>)
    decreases x
  {
    match x
    case Sym(name) =>
      (match p
       case TmplVar(n) => name in vars && n == name
       case TmplSymbol(n) => name !in vars && n == name
       case _ => false)
    case List(xs, _) =>
      (match p
       case TmplList(ps) => SpellTemplates(xs, ps, vars)
       case TmplEllipsis(before, repeated, after) =>
         && |xs| == |before| + 2 + |after| && xs[|before| + 1] == Sym("...")
         && SpellTemplates(xs[..|before| + 1], before + [repeated], vars)
         && SpellTemplates(xs[|before| + 2..], after, vars)
       case _ => false)
    case _ => p == TmplDatum(x)
  }

  ghost predicate SpellTemplates(xs: seq<SExpr>, ps: seq<Template>, vars: set<string>)
    decreases xs
  {
    |xs| == |ps| && forall i :: 0 <= i < |xs| ==> xs[i] != Sym("...") && SpellsTemplate(xs[i], ps[i], vars)
  }

  lemma {:induction false} TemplateItemsAre(xs: seq<SExpr>, vars: set<string>, parts: Parts<Template>)
    ensures TemplateParts(xs, vars, parts) == ItemsWith(xs, (y: SExpr) => TemplateOf(y, vars), parts)
    decreases xs
  {
    var read := (y: SExpr) => TemplateOf(y, vars);
    if xs != [] {
      if IsEllipsis(xs[0]) {
        if parts.Split().Ok? {
          TemplateItemsAre(xs[1..], vars, parts.Split().value);
        }
      } else {
        assert read(xs[0]) == TemplateOf(xs[0], vars);
        if read(xs[0]).Ok? {
          TemplateItemsAre(xs[1..], vars, parts.Pushed(read(xs[0]).value));
        }
      }
    }
  }

  lemma TemplateOfList(x: SExpr, vars: set<string>, q: Parts<Template>)
    requires x.List?
    ensures (TemplateParts(x.elems, vars, Start()) == Ok(q)) <==> ReadsAs(x.elems, (y: SExpr) => TemplateOf(y, vars), q)
    ensures TemplateParts(x.elems, vars, Start()) == Ok(q) ==> TemplateOf(x, vars) == Ok(ListTemplate(q))
  {
    TemplateItemsAre(x.elems, vars, Start());
    ItemsIff(x.elems, (y: SExpr) => TemplateOf(y, vars), q);
    hide TemplateParts, ItemsWith, ReadsAs;
    assert Start<Template>() == Parts([], None, []);
  }

  /** A text is read as a template exactly when it spells it. */
  lemma {:induction false} TemplateIsSpelled(x: SExpr, p: Template, vars: set<string>)
    ensures TemplateOf(x, vars) == Ok(p) <==> SpellsTemplate(x, p, vars)
    decreases x, 1
  {
    hide TemplateParts, ReadsAs;
    if x.List? {
      TemplateListIsSpelled(x, p, vars);
    }
  }

  lemma {:induction false} TemplatesAreSpelled(xs: seq<SExpr>, ps: seq<Template>, vars: set<string>)
    ensures EachReads(xs, (y: SExpr) => TemplateOf(y, vars), ps) <==> SpellTemplates(xs, ps, vars)
    decreases xs, 0
  {
    hide TemplateOf, SpellsTemplate;
    var read := (y: SExpr) => TemplateOf(y, vars);
    if |xs| == |ps| {
      forall i | 0 <= i < |xs| ensures read(xs[i]) == Ok(ps[i]) <==> SpellsTemplate(xs[i], ps[i], vars) {
        TemplateIsSpelled(xs[i], ps[i], vars);
      }
    }
  }

  lemma {:induction false} TemplateListIsSpelled(x: SExpr, p: Template, vars: set<string>)
    requires x.List?
    ensures TemplateOf(x, vars) == Ok(p) <==> SpellsTemplate(x, p, vars)
    decreases x, 0
  {
    hide TemplateParts, EachReads, SpellTemplates;
    var xs := x.elems;
    if TemplateOf(x, vars) == Ok(p) {
      var q := TemplateParts(xs, vars, Parts([], None, [])).value;
      assert Start<Template>() == Parts([], None, []);
      TemplateOfList(x, vars, q);
      if q.repeated.None? {
        TemplatesAreSpelled(xs, q.before, vars);
      } else {
        TemplatesAreSpelled(xs[..|q.before| + 1], q.before + [q.repeated.value], vars);
        TemplatesAreSpelled(xs[|q.before| + 2..], q.after, vars);
      }
    }
    if SpellsTemplate(x, p, vars) {
      var q := if p.TmplList? then Parts(p.elems, None, []) else Parts(p.before, Some(p.repeated), p.after);
      if p.TmplList? {
        TemplatesAreSpelled(xs, p.elems, vars);
      } else {
        TemplatesAreSpelled(xs[..|p.before| + 1], p.before + [p.repeated], vars);
        TemplatesAreSpelled(xs[|p.before| + 2..], p.after, vars);
      }
      TemplateOfList(x, vars, q);
    }
  }

  /** An ellipsis at the start of a list, and a second ellipsis in it, are errors; an item's error is the list's. */
  lemma PatternFails(
    xs: seq<SExpr>, ps: seq<Pattern>, x: SExpr, ys: seq<SExpr>, qs: seq<Pattern>, y: SExpr, bad: SExpr, rest: seq<SExpr>,
    tail: Option<SExpr>, literals: map<string, string>)
    requires SpellPatterns(xs, ps, literals) && SpellPatterns(ys, qs, literals) && IsEllipsis(x) && IsEllipsis(y)
    ensures PatternOf(List([x] + rest, tail), literals) == Err(EllipsisWithoutPrecedingItem)
    ensures xs != [] ==> PatternOf(List(xs + ([x] + (ys + ([y] + rest))), tail), literals) == Err(MultipleEllipses)
    ensures !IsEllipsis(bad) && PatternOf(bad, literals).Err? ==>
      PatternOf(List(xs + ([bad] + rest), tail), literals) == Err(PatternOf(bad, literals).error)
  {
    hide PatternParts, ItemsWith, EachReads, SpellPatterns;
    var read := (y: SExpr) => PatternOf(y, literals);
    PatternsAreSpelled(xs, ps, literals);
    PatternsAreSpelled(ys, qs, literals);
    NothingReads(read);
    ItemsFail([], [], x, ys, qs, y, rest, read);
    ItemsFail(xs, ps, x, ys, qs, y, rest, read);
    PatternItemsAre([x] + rest, literals, Start());
    PatternItemsAre(xs + ([x] + (ys + ([y] + rest))), literals, Start());
    PatternItemsAre(xs + ([bad] + rest), literals, Start());
    if !IsEllipsis(bad) && PatternOf(bad, literals).Err? {
      ItemFails(xs, ps, bad, rest, read);
    }
    assert Start<Pattern>() == Parts([], None, []);
  }

  /** An ellipsis at the start of a list, and a second ellipsis in it, are errors; an item's error is the list's. */
  lemma TemplateFails(
    xs: seq<SExpr>, ps: seq<Template>, x: SExpr, ys: seq<SExpr>, qs: seq<Template>, y: SExpr, bad: SExpr, rest: seq<SExpr>,
    tail: Option<SExpr>, vars: set<string>)
    requires SpellTemplates(xs, ps, vars) && SpellTemplates(ys, qs, vars) && IsEllipsis(x) && IsEllipsis(y)
    ensures TemplateOf(List([x] + rest, tail), vars) == Err(EllipsisWithoutPrecedingItem)
    ensures xs != [] ==> TemplateOf(List(xs + ([x] + (ys + ([y] + rest))), tail), vars) == Err(MultipleEllipses)
    ensures !IsEllipsis(bad) && TemplateOf(bad, vars).Err? ==>
      TemplateOf(List(xs + ([bad] + rest), tail), vars) == Err(TemplateOf(bad, vars).error)
  {
    hide TemplateParts, ItemsWith, EachReads, SpellTemplates;
    var read := (y: SExpr) => TemplateOf(y, vars);
    TemplatesAreSpelled(xs, ps, vars);
    TemplatesAreSpelled(ys, qs, vars);
    NothingReads(read);
    ItemsFail([], [], x, ys, qs, y, rest, read);
    ItemsFail(xs, ps, x, ys, qs, y, rest, read);
    TemplateItemsAre([x] + rest, vars, Start());
    TemplateItemsAre(xs + ([x] + (ys + ([y] + rest))), vars, Start());
    TemplateItemsAre(xs + ([bad] + rest), vars, Start());
    if !IsEllipsis(bad) && TemplateOf(bad, vars).Err? {
      ItemFails(xs, ps, bad, rest, read);
    }
    assert Start<Template>() == Parts([], None, []);
  }

  lemma NothingReads<P>(read: SExpr -> Result<P, SyntaxError>)
    ensures EachReads([], read, [])
  {
  }

  // ---- Data in patterns ----

  predicate IsFlonum(x: SExpr) {
    x.Num? && x.number.Flonum?
  }

  /** A datum pattern matches itself, floating-point numbers by their value; compound data never match. */
  lemma DatumsMatch(mt: Matcher, a: SExpr, b: SExpr)
    ensures DatumEqual(mt, a, b) <==>
      if IsFlonum(a) || IsFlonum(b) then IsFlonum(a) && IsFlonum(b) && mt.sameReal(a.number.text, b.number.text)
      else a == b && (a.Bool? || a.Num? || a.Char? || a.Str?)
  {
  }
}
