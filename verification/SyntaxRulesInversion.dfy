/**
 Matching and instantiating, for linear patterns with any ellipses: what a match means, and when the
 two undo each other.
 */
module SyntaxRulesInversion {
  import opened Wrappers
  import opened SExprs
  import opened SyntaxRules

  // ---- The patterns in question ----

  /** Variables, datums and lists only. */
  predicate IsSimple(p: Pattern) {
    match p
    case PatVar(_) => true
    case PatDatum(_) => true
    case PatList(elems) => AllSimple(elems)
    case PatEllipsis(before, repeated, after) => AllSimple(before) && IsSimple(repeated) && AllSimple(after)
    case _ => false
  }

  predicate AllSimple(ps: seq<Pattern>) {
    ps == [] || (IsSimple(ps[0]) && AllSimple(ps[1..]))
  }

  /** Every ellipsis repeats some variable. */
  predicate EllipsesBind(p: Pattern) {
    match p
    case PatList(elems) => AllEllipsesBind(elems)
    case PatEllipsis(before, repeated, after) =>
      AllEllipsesBind(before) && EllipsesBind(repeated) && AllEllipsesBind(after) && PatternVars(repeated) != {}
    case _ => true
  }

  predicate AllEllipsesBind(ps: seq<Pattern>) {
    ps == [] || (EllipsesBind(ps[0]) && AllEllipsesBind(ps[1..]))
  }

  /** No variable occurs twice. */
  predicate IsLinear(p: Pattern) {
    match p
    case PatList(elems) => AllLinear(elems)
    case PatEllipsis(before, repeated, after) =>
      && AllLinear(before) && IsLinear(repeated) && AllLinear(after)
      && AllVars(before) !! PatternVars(repeated) !! AllVars(after)
    case _ => true
  }

  predicate AllLinear(ps: seq<Pattern>) {
    ps == [] || (IsLinear(ps[0]) && AllLinear(ps[1..]) && PatternVars(ps[0]) !! AllVars(ps[1..]))
  }

  function Ellipses(p: Pattern): nat {
    match p
    case PatList(elems) => AllEllipses(elems)
    case PatEllipsis(before, repeated, after) => AllEllipses(before) + 1 + Ellipses(repeated) + AllEllipses(after)
    case _ => 0
  }

  function AllEllipses(ps: seq<Pattern>): nat {
    if ps == [] then 0 else Ellipses(ps[0]) + AllEllipses(ps[1..])
  }

  /** The variables under an ellipsis. */
  function EllipsisVars(p: Pattern): set<string> {
    match p
    case PatList(elems) => AllEllipsisVars(elems)
    case PatEllipsis(before, repeated, after) =>
      AllEllipsisVars(before) + PatternVars(repeated) + AllEllipsisVars(after)
    case _ => {}
  }

  function AllEllipsisVars(ps: seq<Pattern>): set<string> {
    if ps == [] then {} else EllipsisVars(ps[0]) + AllEllipsisVars(ps[1..])
  }

  /** The pattern read as a template. */
  function AsTemplate(p: Pattern): Template
    requires IsSimple(p)
  {
    match p
    case PatVar(n) => TmplVar(n)
    case PatDatum(d) => TmplDatum(d)
    case PatList(elems) => TmplList(AsTemplates(elems))
    case PatEllipsis(before, repeated, after) =>
      TmplEllipsis(AsTemplates(before), AsTemplate(repeated), AsTemplates(after))
  }

  function AsTemplates(ps: seq<Pattern>): (ts: seq<Template>)
    requires AllSimple(ps)
    ensures |ts| == |ps|
  {
    if ps == [] then [] else [AsTemplate(ps[0])] + AsTemplates(ps[1..])
  }

  // ---- What a match means ----

  /** The input is the pattern with its variables filled in from `env`. */
  ghost predicate Matches(mt: Matcher, p: Pattern, x: SExpr, env: MatchEnv)
    decreases p, 0
  {
    match p
    case PatVar(n) => n in env && env[n] == Single(x)
    case PatUnderscore => true
    case PatLiteral(identity) => x.Sym? && mt.identity(x.name) == identity
    case PatDatum(d) => DatumEqual(mt, d, x)
    case PatList(elems) => x.List? && x.tail.None? && AllMatch(mt, elems, x.elems, env)
    case PatEllipsis(before, repeated, after) =>
      && x.List? && x.tail.None? && |x.elems| >= |before| + |after|
      && var end := |x.elems| - |after|;
      && AllMatch(mt, before, x.elems[..|before|], env)
      && RepeatsMatch(mt, repeated, x.elems[|before|..end], env, 0)
      && (forall n :: n in PatternVars(repeated) ==>
            n in env && env[n].Repeated? && |env[n].values| == end - |before|)
      && AllMatch(mt, after, x.elems[end..], env)
  }

  ghost predicate AllMatch(mt: Matcher, ps: seq<Pattern>, xs: seq<SExpr>, env: MatchEnv)
    decreases ps, 0
  {
    |ps| == |xs| && (ps == [] || (Matches(mt, ps[0], xs[0], env) && AllMatch(mt, ps[1..], xs[1..], env)))
  }

  /** The elements match in the repetitions from `r` on. */
  ghost predicate RepeatsMatch(mt: Matcher, p: Pattern, xs: seq<SExpr>, env: MatchEnv, r: nat)
    decreases p, |xs| + 1
  {
    xs == [] || (Matches(mt, p, xs[0], Repetition(env, r)) && RepeatsMatch(mt, p, xs[1..], env, r + 1))
  }

  /** No variable is under an ellipsis that is itself repeated. */
  predicate Unnested(p: Pattern, x: SExpr) {
    match p
    case PatList(elems) => x.List? && |x.elems| == |elems| ==> AllUnnested(elems, x.elems)
    case PatEllipsis(before, repeated, after) =>
      x.List? && |x.elems| >= |before| + |after| ==>
        && AllUnnested(before, x.elems[..|before|]) && AllUnnested(after, x.elems[|x.elems| - |after|..])
        && (|x.elems| == |before| + |after| || EllipsisVars(repeated) == {})
    case _ => true
  }

  predicate AllUnnested(ps: seq<Pattern>, xs: seq<SExpr>)
    requires |ps| == |xs|
  {
    ps == [] || (Unnested(ps[0], xs[0]) && AllUnnested(ps[1..], xs[1..]))
  }

  /**
   What every match achieves: as `Matches`, but below an ellipsis (`deep`) the variables of further
   ellipses are left open, because their values are not kept.
   */
  ghost predicate Fits(mt: Matcher, p: Pattern, x: SExpr, env: MatchEnv, deep: bool)
    decreases p, 0
  {
    match p
    case PatVar(n) => n in env && env[n] == Single(x)
    case PatUnderscore => true
    case PatLiteral(identity) => x.Sym? && mt.identity(x.name) == identity
    case PatDatum(d) => DatumEqual(mt, d, x)
    case PatList(elems) => x.List? && x.tail.None? && AllFit(mt, elems, x.elems, env, deep)
    case PatEllipsis(before, repeated, after) =>
      && x.List? && x.tail.None? && |x.elems| >= |before| + |after|
      && var end := |x.elems| - |after|;
      && AllFit(mt, before, x.elems[..|before|], env, deep)
      && ((deep && PatternVars(repeated) != {})
          || (RepeatsFit(mt, repeated, x.elems[|before|..end], env, 0)
              && AllRepeated(env, PatternVars(repeated), end - |before|)))
      && AllFit(mt, after, x.elems[end..], env, deep)
  }

  ghost predicate AllFit(mt: Matcher, ps: seq<Pattern>, xs: seq<SExpr>, env: MatchEnv, deep: bool)
    decreases ps, 0
  {
    |ps| == |xs| && (ps == [] || (Fits(mt, ps[0], xs[0], env, deep) && AllFit(mt, ps[1..], xs[1..], env, deep)))
  }

  ghost predicate RepeatsFit(mt: Matcher, p: Pattern, xs: seq<SExpr>, env: MatchEnv, r: nat)
    decreases p, |xs| + 1
  {
    xs == [] || (Fits(mt, p, xs[0], Repetition(env, r), true) && RepeatsFit(mt, p, xs[1..], env, r + 1))
  }

  ghost predicate AllRepeated(env: MatchEnv, vars: set<string>, count: nat) {
    forall n :: n in vars ==> n in env && env[n].Repeated? && |env[n].values| == count
  }

  ghost predicate Agree(env: MatchEnv, env': MatchEnv, vars: set<string>) {
    forall n :: n in vars ==> (n in env <==> n in env') && (n in env ==> env[n] == env'[n])
  }

  /** The variables that fitting looks at. */
  function Needed(p: Pattern, deep: bool): set<string> {
    if deep then PatternVars(p) - EllipsisVars(p) else PatternVars(p)
  }

  function AllNeeded(ps: seq<Pattern>, deep: bool): set<string> {
    if deep then AllVars(ps) - AllEllipsisVars(ps) else AllVars(ps)
  }

  /** Fitting carries over to an environment that agrees on what it looks at; below an ellipsis it looks at less. */
  lemma {:induction false} FitsAgree(mt: Matcher, p: Pattern, x: SExpr, env: MatchEnv, deep: bool, env': MatchEnv, deep': bool)
    requires IsLinear(p) && Fits(mt, p, x, env, deep) && (deep ==> deep') && Agree(env, env', Needed(p, deep'))
    ensures Fits(mt, p, x, env', deep')
    decreases p, 1
  {
    match p
    case PatList(elems) =>
      assert Needed(p, deep') == AllNeeded(elems, deep');
      AllFitAgree(mt, elems, x.elems, env, deep, env', deep');
    case PatEllipsis(_, _, _) => EllipsisFitsAgree(mt, p, x, env, deep, env', deep');
    case _ =>
  }

  lemma {:induction false} EllipsisFitsAgree(
    mt: Matcher, p: Pattern, x: SExpr, env: MatchEnv, deep: bool, env': MatchEnv, deep': bool)
    requires p.PatEllipsis? && IsLinear(p)
    requires Fits(mt, p, x, env, deep) && (deep ==> deep') && Agree(env, env', Needed(p, deep'))
    ensures Fits(mt, p, x, env', deep')
    decreases p, 0
  {
    hide *;
    FittingParts(mt, p, x, env, deep);
    var end := |x.elems| - |p.after|;
    var xs, ys, zs := x.elems[..|p.before|], x.elems[|p.before|..end], x.elems[end..];
    var vars := PatternVars(p.repeated);
    EllipsisParts(p);
    NeededParts(p, deep');
    AgreeOnFewer(env, env', Needed(p, deep'), AllNeeded(p.before, deep'));
    AgreeOnFewer(env, env', Needed(p, deep'), AllNeeded(p.after, deep'));
    AllFitAgree(mt, p.before, xs, env, deep, env', deep');
    AllFitAgree(mt, p.after, zs, env, deep, env', deep');
    if !(deep' && vars != {}) {
      AgreeOnFewer(env, env', Needed(p, deep'), vars);
      RepeatsFitAgree(mt, p.repeated, ys, env, env', 0);
      SameCounts(env, env', vars, |ys|);
    }
    PartsFit(mt, p, x, env', deep');
  }

  lemma FittingParts(mt: Matcher, p: Pattern, x: SExpr, env: MatchEnv, deep: bool)
    requires p.PatEllipsis? && Fits(mt, p, x, env, deep)
    ensures x.List? && x.tail.None? && |x.elems| >= |p.before| + |p.after|
    ensures var end := |x.elems| - |p.after|;
      && AllFit(mt, p.before, x.elems[..|p.before|], env, deep)
      && (!deep || PatternVars(p.repeated) == {} ==>
            RepeatsFit(mt, p.repeated, x.elems[|p.before|..end], env, 0)
            && AllRepeated(env, PatternVars(p.repeated), end - |p.before|))
      && AllFit(mt, p.after, x.elems[end..], env, deep)
  {
    hide AllFit, RepeatsFit, PatternVars, AllRepeated;
  }

  lemma PartsFit(mt: Matcher, p: Pattern, x: SExpr, env: MatchEnv, deep: bool)
    requires p.PatEllipsis? && x.List? && x.tail.None? && |x.elems| >= |p.before| + |p.after|
    requires var end := |x.elems| - |p.after|;
      && AllFit(mt, p.before, x.elems[..|p.before|], env, deep)
      && (!deep || PatternVars(p.repeated) == {} ==>
            RepeatsFit(mt, p.repeated, x.elems[|p.before|..end], env, 0)
            && AllRepeated(env, PatternVars(p.repeated), end - |p.before|))
      && AllFit(mt, p.after, x.elems[end..], env, deep)
    ensures Fits(mt, p, x, env, deep)
  {
    hide AllFit, RepeatsFit, PatternVars, AllRepeated;
  }

  lemma AgreeOnFewer(env: MatchEnv, env': MatchEnv, vars: set<string>, fewer: set<string>)
    requires Agree(env, env', vars) && fewer <= vars
    ensures Agree(env, env', fewer)
  {
  }

  lemma SameCounts(env: MatchEnv, env': MatchEnv, vars: set<string>, count: nat)
    requires Agree(env, env', vars) && AllRepeated(env, vars, count)
    ensures AllRepeated(env', vars, count)
  {
  }

  lemma {:induction false} AllFitAgree(
    mt: Matcher, ps: seq<Pattern>, xs: seq<SExpr>, env: MatchEnv, deep: bool, env': MatchEnv, deep': bool)
    requires AllLinear(ps) && AllFit(mt, ps, xs, env, deep) && (deep ==> deep') && Agree(env, env', AllNeeded(ps, deep'))
    ensures AllFit(mt, ps, xs, env', deep')
    decreases ps, 0
  {
    if ps != [] {
      hide Fits;
      EllipsisVarsAreVars(ps[0]);
      AllEllipsisVarsAreVars(ps[1..]);
      assert Needed(ps[0], deep') <= AllNeeded(ps, deep') && AllNeeded(ps[1..], deep') <= AllNeeded(ps, deep');
      FitsAgree(mt, ps[0], xs[0], env, deep, env', deep');
      AllFitAgree(mt, ps[1..], xs[1..], env, deep, env', deep');
    }
  }

  lemma {:induction false} RepeatsFitAgree(mt: Matcher, p: Pattern, xs: seq<SExpr>, env: MatchEnv, env': MatchEnv, r: nat)
    requires IsLinear(p) && RepeatsFit(mt, p, xs, env, r) && Agree(env, env', PatternVars(p))
    ensures RepeatsFit(mt, p, xs, env', r)
    decreases p, |xs| + 2
  {
    if xs != [] {
      hide Fits;
      FitsAgree(mt, p, xs[0], Repetition(env, r), true, Repetition(env', r), true);
      RepeatsFitAgree(mt, p, xs[1..], env, env', r + 1);
    }
  }

  lemma NeededParts(p: Pattern, deep: bool)
    requires p.PatEllipsis? && IsLinear(p)
    ensures AllNeeded(p.before, deep) <= Needed(p, deep) && AllNeeded(p.after, deep) <= Needed(p, deep)
    ensures !deep || PatternVars(p.repeated) == {} ==> PatternVars(p.repeated) <= Needed(p, deep)
  {
    EllipsisParts(p);
    AllEllipsisVarsAreVars(p.before);
    AllEllipsisVarsAreVars(p.after);
  }

  lemma EllipsisParts(p: Pattern)
    requires p.PatEllipsis?
    ensures PatternVars(p) == AllVars(p.before) + PatternVars(p.repeated) + AllVars(p.after)
    ensures IsLinear(p) ==>
      && AllLinear(p.before) && IsLinear(p.repeated) && AllLinear(p.after)
      && AllVars(p.before) !! PatternVars(p.repeated) !! AllVars(p.after)
  {
  }

  lemma {:induction false} EllipsisVarsAreVars(p: Pattern)
    ensures EllipsisVars(p) <= PatternVars(p)
  {
    match p
    case PatList(elems) => AllEllipsisVarsAreVars(elems);
    case PatEllipsis(before, _, after) =>
      AllEllipsisVarsAreVars(before);
      AllEllipsisVarsAreVars(after);
    case _ =>
  }

  lemma {:induction false} AllEllipsisVarsAreVars(ps: seq<Pattern>)
    ensures AllEllipsisVars(ps) <= AllVars(ps)
  {
    if ps != [] {
      EllipsisVarsAreVars(ps[0]);
      AllEllipsisVarsAreVars(ps[1..]);
    }
  }

  // ---- Matching achieves exactly that ----

  ghost function Only(env: MatchEnv, vars: set<string>): MatchEnv {
    map n | n in env && n in vars :: env[n]
  }

  /** A match adds bindings for the pattern's variables and changes nothing else. */
  ghost predicate Adds(env0: MatchEnv, env1: MatchEnv, vars: set<string>) {
    env1.Keys == env0.Keys + vars && forall n :: n in env0 && n !in vars ==> env1[n] == env0[n]
  }

  lemma {:induction false} MatchFits(mt: Matcher, p: Pattern, x: SExpr, env0: MatchEnv)
    requires IsLinear(p) && Match(mt, p, x, env0).Some?
    ensures Fits(mt, p, x, Match(mt, p, x, env0).value, false)
    ensures Adds(env0, Match(mt, p, x, env0).value, PatternVars(p))
    decreases p, 1
  {
    match p
    case PatList(elems) => MatchAllFits(mt, elems, x.elems, env0);
    case PatEllipsis(before, repeated, after) => EllipsisFits(mt, p, x, env0);
    case _ =>
  }

  lemma {:induction false} MatchAllFits(mt: Matcher, ps: seq<Pattern>, xs: seq<SExpr>, env0: MatchEnv)
    requires |ps| == |xs| && AllLinear(ps) && MatchAll(mt, ps, xs, env0).Some?
    ensures AllFit(mt, ps, xs, MatchAll(mt, ps, xs, env0).value, false)
    ensures Adds(env0, MatchAll(mt, ps, xs, env0).value, AllVars(ps))
    decreases ps, 0
  {
    if ps != [] {
      var env1 := Match(mt, ps[0], xs[0], env0).value;
      var env2 := MatchAll(mt, ps[1..], xs[1..], env1).value;
      MatchFits(mt, ps[0], xs[0], env0);
      MatchAllFits(mt, ps[1..], xs[1..], env1);
      hide Fits;
      FitsAgree(mt, ps[0], xs[0], env1, false, env2, false);
    }
  }

  lemma {:induction false} EllipsisFits(mt: Matcher, p: Pattern, x: SExpr, env0: MatchEnv)
    requires p.PatEllipsis? && IsLinear(p) && Match(mt, p, x, env0).Some?
    ensures Fits(mt, p, x, Match(mt, p, x, env0).value, false)
    ensures Adds(env0, Match(mt, p, x, env0).value, PatternVars(p))
    decreases p, 0
  {
    hide *;
    var vars := PatternVars(p.repeated);
    EllipsisParts(p);
    EllipsisSteps(mt, p, x, env0);
    var end := |x.elems| - |p.after|;
    var xs, ys, zs := x.elems[..|p.before|], x.elems[|p.before|..end], x.elems[end..];
    var env1 := MatchAll(mt, p.before, xs, env0).value;
    var mid := Emptied(env1, vars);
    NothingCollected(env1, vars);
    var env2 := MatchRepeats(mt, p.repeated, vars, ys, mid).value;
    var env3 := MatchAll(mt, p.after, zs, env2).value;
    MatchAllFits(mt, p.before, xs, env0);
    RepeatsAreFit(mt, p.repeated, ys, mid, 0);
    MatchAllFits(mt, p.after, zs, env2);
    AddedInTurn(env0, env1, mid, env2, env3, AllVars(p.before), vars, AllVars(p.after), |ys|);
    NothingNeededMore(p.before);
    AllFitAgree(mt, p.before, xs, env1, false, env3, false);
    RepeatsFitAgree(mt, p.repeated, ys, env2, env3, 0);
    PartsFit(mt, p, x, env3, false);
  }

  lemma NothingNeededMore(ps: seq<Pattern>)
    ensures AllNeeded(ps, false) == AllVars(ps)
  {
  }

  lemma EllipsisSteps(mt: Matcher, p: Pattern, x: SExpr, env0: MatchEnv)
    requires p.PatEllipsis? && Match(mt, p, x, env0).Some?
    ensures x.List? && x.tail.None? && |x.elems| >= |p.before| + |p.after|
    ensures var end := |x.elems| - |p.after|;
      var b := MatchAll(mt, p.before, x.elems[..|p.before|], env0);
      b.Some? && var mid := Emptied(b.value, PatternVars(p.repeated));
      var m := MatchRepeats(mt, p.repeated, PatternVars(p.repeated), x.elems[|p.before|..end], mid);
      m.Some? && Match(mt, p, x, env0) == MatchAll(mt, p.after, x.elems[end..], m.value)
  {
    hide MatchAll, MatchRepeats, PatternVars, Emptied;
  }

  lemma NothingCollected(env: MatchEnv, vars: set<string>)
    ensures AllRepeated(Emptied(env, vars), vars, 0) && Adds(env, Emptied(env, vars), vars)
  {
  }

  lemma AddedInTurn(
    env0: MatchEnv, env1: MatchEnv, mid: MatchEnv, env2: MatchEnv, env3: MatchEnv,
    b: set<string>, v: set<string>, a: set<string>, count: nat)
    requires b !! v !! a
    requires Adds(env0, env1, b) && Adds(env1, mid, v) && Adds(mid, env2, v) && Adds(env2, env3, a)
    requires AllRepeated(env2, v, count)
    ensures Adds(env0, env3, b + v + a) && Agree(env1, env3, b) && Agree(env2, env3, v) && AllRepeated(env3, v, count)
  {
  }

  /** The variables outside the ellipses of a pattern that fits are bound to one value each. */
  lemma {:induction false} OuterAreSingle(mt: Matcher, p: Pattern, x: SExpr, env: MatchEnv, deep: bool)
    requires Fits(mt, p, x, env, deep)
    ensures AllSingle(env, PatternVars(p) - EllipsisVars(p))
    decreases p, 1
  {
    match p
    case PatList(elems) => AllOuterAreSingle(mt, elems, x.elems, env, deep);
    case PatEllipsis(before, repeated, after) =>
      AllOuterAreSingle(mt, before, x.elems[..|before|], env, deep);
      AllOuterAreSingle(mt, after, x.elems[|x.elems| - |after|..], env, deep);
    case _ =>
  }

  lemma {:induction false} AllOuterAreSingle(mt: Matcher, ps: seq<Pattern>, xs: seq<SExpr>, env: MatchEnv, deep: bool)
    requires AllFit(mt, ps, xs, env, deep)
    ensures AllSingle(env, AllVars(ps) - AllEllipsisVars(ps))
    decreases ps, 0
  {
    if ps != [] {
      hide Fits;
      OuterAreSingle(mt, ps[0], xs[0], env, deep);
      AllOuterAreSingle(mt, ps[1..], xs[1..], env, deep);
    }
  }

  /** Repetitions only lengthen the repeated bindings, one value each per repetition. */
  lemma {:induction false} RepeatsAreFit(mt: Matcher, p: Pattern, xs: seq<SExpr>, env: MatchEnv, base: nat)
    requires IsLinear(p) && AllRepeated(env, PatternVars(p), base)
    requires MatchRepeats(mt, p, PatternVars(p), xs, env).Some?
    ensures var env2 := MatchRepeats(mt, p, PatternVars(p), xs, env).value;
      && RepeatsFit(mt, p, xs, env2, base)
      && Adds(env, env2, PatternVars(p)) && AllRepeated(env2, PatternVars(p), base + |xs|)
      && forall n :: n in PatternVars(p) ==> env[n].values <= env2[n].values
    decreases p, |xs| + 1
  {
    hide Fits, Collect, PatternVars, Repetition;
    var vars := PatternVars(p);
    if xs != [] {
      var sub := Match(mt, p, xs[0], map[]).value;
      var mid := Collect(env, sub, vars);
      var env2 := MatchRepeats(mt, p, vars, xs[1..], mid).value;
      MatchFits(mt, p, xs[0], map[]);
      OuterAreSingle(mt, p, xs[0], sub, false);
      CollectedOne(env, sub, vars, base);
      RepeatsAreFit(mt, p, xs[1..], mid, base + 1);
      hide Match, MatchRepeats, RepeatsFit, PatternVars, Collect, EllipsisVars;
      LastCollected(env, sub, mid, env2, vars, vars - EllipsisVars(p), base);
      FitsAgree(mt, p, xs[0], sub, false, Repetition(env2, base), true);
      assert RepeatsFit(mt, p, xs, env2, base) by { RepeatsFitFirst(mt, p, xs, env2, base); }
    }
  }

  lemma RepeatsFitFirst(mt: Matcher, p: Pattern, xs: seq<SExpr>, env: MatchEnv, r: nat)
    requires xs != [] && Fits(mt, p, xs[0], Repetition(env, r), true) && RepeatsFit(mt, p, xs[1..], env, r + 1)
    ensures RepeatsFit(mt, p, xs, env, r)
  {
  }

  ghost predicate AllSingle(env: MatchEnv, vars: set<string>) {
    forall n :: n in vars ==> n in env && env[n].Single?
  }

  lemma CollectedOne(env: MatchEnv, sub: MatchEnv, vars: set<string>, base: nat)
    requires AllRepeated(env, vars, base) && vars <= sub.Keys
    ensures var mid := Collect(env, sub, vars);
      && Adds(env, mid, vars) && AllRepeated(mid, vars, base + 1)
      && forall n :: n in vars ==> env[n].values <= mid[n].values && mid[n].values[base] == SingleOf(sub[n])
  {
  }

  lemma LastCollected(
    env: MatchEnv, sub: MatchEnv, mid: MatchEnv, env2: MatchEnv, vars: set<string>, outer: set<string>, base: nat)
    requires AllRepeated(mid, vars, base + 1) && outer <= vars && AllSingle(sub, outer)
    requires forall n :: n in vars ==> n in sub && mid[n].values[base] == SingleOf(sub[n])
    requires forall n :: n in vars ==> n in env2 && env2[n].Repeated? && mid[n].values <= env2[n].values
    ensures Agree(sub, Repetition(env2, base), outer)
  {
  }

  // ---- When a fit is a match ----

  /** Without variables under ellipses, fitting is matching. */
  lemma {:induction false} BareFitsMatch(mt: Matcher, p: Pattern, x: SExpr, env: MatchEnv, deep: bool)
    requires Fits(mt, p, x, env, deep) && EllipsisVars(p) == {}
    ensures Matches(mt, p, x, env)
    decreases p, 1
  {
    match p
    case PatList(elems) => AllBareFitsMatch(mt, elems, x.elems, env, deep);
    case PatEllipsis(before, repeated, after) =>
      EllipsisVarsAreVars(repeated);
      AllBareFitsMatch(mt, before, x.elems[..|before|], env, deep);
      AllBareFitsMatch(mt, after, x.elems[|x.elems| - |after|..], env, deep);
      BareRepeatsMatch(mt, repeated, x.elems[|before|..|x.elems| - |after|], env, 0);
    case _ =>
  }

  lemma {:induction false} AllBareFitsMatch(mt: Matcher, ps: seq<Pattern>, xs: seq<SExpr>, env: MatchEnv, deep: bool)
    requires AllFit(mt, ps, xs, env, deep) && AllEllipsisVars(ps) == {}
    ensures AllMatch(mt, ps, xs, env)
    decreases ps, 0
  {
    if ps != [] {
      BareFitsMatch(mt, ps[0], xs[0], env, deep);
      AllBareFitsMatch(mt, ps[1..], xs[1..], env, deep);
    }
  }

  lemma {:induction false} BareRepeatsMatch(mt: Matcher, p: Pattern, xs: seq<SExpr>, env: MatchEnv, r: nat)
    requires RepeatsFit(mt, p, xs, env, r) && EllipsisVars(p) == {}
    ensures RepeatsMatch(mt, p, xs, env, r)
    decreases p, |xs| + 2
  {
    if xs != [] {
      BareFitsMatch(mt, p, xs[0], Repetition(env, r), true);
      BareRepeatsMatch(mt, p, xs[1..], env, r + 1);
    }
  }

  lemma {:induction false} FitsMatch(mt: Matcher, p: Pattern, x: SExpr, env: MatchEnv)
    requires Fits(mt, p, x, env, false) && Unnested(p, x)
    ensures Matches(mt, p, x, env)
    decreases p, 1
  {
    match p
    case PatList(elems) => AllFitsMatch(mt, elems, x.elems, env);
    case PatEllipsis(before, repeated, after) =>
      var end := |x.elems| - |after|;
      AllFitsMatch(mt, before, x.elems[..|before|], env);
      AllFitsMatch(mt, after, x.elems[end..], env);
      if end > |before| {
        BareRepeatsMatch(mt, repeated, x.elems[|before|..end], env, 0);
      }
    case _ =>
  }

  lemma {:induction false} AllFitsMatch(mt: Matcher, ps: seq<Pattern>, xs: seq<SExpr>, env: MatchEnv)
    requires AllFit(mt, ps, xs, env, false) && |ps| == |xs| && AllUnnested(ps, xs)
    ensures AllMatch(mt, ps, xs, env)
    decreases ps, 0
  {
    if ps != [] {
      FitsMatch(mt, ps[0], xs[0], env);
      AllFitsMatch(mt, ps[1..], xs[1..], env);
    }
  }

  /** In a match the variables under ellipses are bound to lists of values. */
  lemma {:induction false} InnerAreRepeated(mt: Matcher, p: Pattern, x: SExpr, env: MatchEnv, n: string)
    requires Matches(mt, p, x, env) && n in EllipsisVars(p)
    ensures n in env && env[n].Repeated?
    decreases p, 1
  {
    match p
    case PatList(elems) => SomeInnerIsRepeated(mt, elems, x.elems, env, n);
    case PatEllipsis(before, repeated, after) =>
      if n in AllEllipsisVars(before) {
        SomeInnerIsRepeated(mt, before, x.elems[..|before|], env, n);
      } else if n in AllEllipsisVars(after) {
        SomeInnerIsRepeated(mt, after, x.elems[|x.elems| - |after|..], env, n);
      }
    case _ =>
  }

  lemma {:induction false} SomeInnerIsRepeated(mt: Matcher, ps: seq<Pattern>, xs: seq<SExpr>, env: MatchEnv, n: string)
    requires AllMatch(mt, ps, xs, env) && n in AllEllipsisVars(ps)
    ensures n in env && env[n].Repeated?
    decreases ps, 0
  {
    if n in EllipsisVars(ps[0]) {
      InnerAreRepeated(mt, ps[0], xs[0], env, n);
    } else {
      SomeInnerIsRepeated(mt, ps[1..], xs[1..], env, n);
    }
  }

  lemma {:induction false} MatchesAreUnnested(mt: Matcher, p: Pattern, x: SExpr, env: MatchEnv)
    requires Matches(mt, p, x, env)
    ensures Unnested(p, x)
    decreases p, 1
  {
    match p
    case PatList(elems) => AllMatchesAreUnnested(mt, elems, x.elems, env);
    case PatEllipsis(before, repeated, after) =>
      var end := |x.elems| - |after|;
      AllMatchesAreUnnested(mt, before, x.elems[..|before|], env);
      AllMatchesAreUnnested(mt, after, x.elems[end..], env);
      if end > |before| && EllipsisVars(repeated) != {} {
        var n :| n in EllipsisVars(repeated);
        InnerAreRepeated(mt, repeated, x.elems[|before|..end][0], Repetition(env, 0), n);
      }
    case _ =>
  }

  lemma {:induction false} AllMatchesAreUnnested(mt: Matcher, ps: seq<Pattern>, xs: seq<SExpr>, env: MatchEnv)
    requires AllMatch(mt, ps, xs, env)
    ensures |ps| == |xs| && AllUnnested(ps, xs)
    decreases ps, 0
  {
    if ps != [] {
      MatchesAreUnnested(mt, ps[0], xs[0], env);
      AllMatchesAreUnnested(mt, ps[1..], xs[1..], env);
    }
  }

  /** Whatever matches is matched, with the bindings it matches under. */
  lemma {:induction false} MatchIsComplete(mt: Matcher, p: Pattern, x: SExpr, env0: MatchEnv, env: MatchEnv)
    requires Matches(mt, p, x, env)
    ensures Match(mt, p, x, env0) == Some(env0 + Only(env, PatternVars(p)))
    decreases p, 1
  {
    match p
    case PatVar(n) =>
      assert Only(env, {n}) == map[n := env[n]];
      assert env0 + map[n := env[n]] == env0[n := Single(x)];
    case PatList(elems) => MatchAllIsComplete(mt, elems, x.elems, env0, env);
    case PatEllipsis(_, _, _) => EllipsisIsComplete(mt, p, x, env0, env);
    case _ =>
      assert env0 + Only(env, {}) == env0;
  }

  lemma {:induction false} MatchAllIsComplete(mt: Matcher, ps: seq<Pattern>, xs: seq<SExpr>, env0: MatchEnv, env: MatchEnv)
    requires AllMatch(mt, ps, xs, env)
    ensures MatchAll(mt, ps, xs, env0) == Some(env0 + Only(env, AllVars(ps)))
    decreases ps, 0
  {
    if ps == [] {
      assert env0 + Only(env, {}) == env0;
    } else {
      MatchIsComplete(mt, ps[0], xs[0], env0, env);
      var env1 := env0 + Only(env, PatternVars(ps[0]));
      MatchAllIsComplete(mt, ps[1..], xs[1..], env1, env);
      OnlyBoth(env0, env, PatternVars(ps[0]), AllVars(ps[1..]));
    }
  }

  lemma OnlyBoth(env0: MatchEnv, env: MatchEnv, v: set<string>, w: set<string>)
    ensures (env0 + Only(env, v)) + Only(env, w) == env0 + Only(env, v + w)
  {
  }

  lemma {:induction false} EllipsisIsComplete(mt: Matcher, p: Pattern, x: SExpr, env0: MatchEnv, env: MatchEnv)
    requires p.PatEllipsis? && Matches(mt, p, x, env)
    ensures Match(mt, p, x, env0) == Some(env0 + Only(env, PatternVars(p)))
    decreases p, 0
  {
    hide *;
    var b, v, a := AllVars(p.before), PatternVars(p.repeated), AllVars(p.after);
    EllipsisParts(p);
    MatchingParts(mt, p, x, env);
    var end := |x.elems| - |p.after|;
    var xs, ys, zs := x.elems[..|p.before|], x.elems[|p.before|..end], x.elems[end..];
    var env1 := env0 + Only(env, b);
    MatchAllIsComplete(mt, p.before, xs, env0, env);
    Prefixes(env, v, |ys|);
    EmptiedIsUpToZero(env1, env, v, |ys|);
    RepeatsAreComplete(mt, p.repeated, ys, env1, env, 0);
    MatchAllIsComplete(mt, p.after, zs, env1 + Only(env, v), env);
    OnlyBoth(env0, env, b, v);
    OnlyBoth(env0, env, b + v, a);
    MatchOfParts(mt, p, x, env0);
  }

  lemma MatchingParts(mt: Matcher, p: Pattern, x: SExpr, env: MatchEnv)
    requires p.PatEllipsis? && Matches(mt, p, x, env)
    ensures x.List? && x.tail.None? && |x.elems| >= |p.before| + |p.after|
    ensures var end := |x.elems| - |p.after|;
      && AllMatch(mt, p.before, x.elems[..|p.before|], env)
      && RepeatsMatch(mt, p.repeated, x.elems[|p.before|..end], env, 0)
      && AllRepeated(env, PatternVars(p.repeated), end - |p.before|)
      && AllMatch(mt, p.after, x.elems[end..], env)
  {
    hide AllMatch, RepeatsMatch, PatternVars;
  }

  lemma MatchOfParts(mt: Matcher, p: Pattern, x: SExpr, env0: MatchEnv)
    requires p.PatEllipsis? && x.List? && x.tail.None? && |x.elems| >= |p.before| + |p.after|
    ensures var end := |x.elems| - |p.after|;
      var b := MatchAll(mt, p.before, x.elems[..|p.before|], env0);
      b.Some? ==> var mid := Emptied(b.value, PatternVars(p.repeated));
      var m := MatchRepeats(mt, p.repeated, PatternVars(p.repeated), x.elems[|p.before|..end], mid);
      m.Some? ==> Match(mt, p, x, env0) == MatchAll(mt, p.after, x.elems[end..], m.value)
  {
    hide MatchAll, MatchRepeats, PatternVars, Emptied;
  }

  lemma EmptiedIsUpToZero(env1: MatchEnv, env: MatchEnv, vars: set<string>, count: nat)
    requires AllRepeated(env, vars, count)
    ensures Emptied(env1, vars) == env1 + UpTo(env, vars, 0)
  {
  }

  ghost predicate Longer(env: MatchEnv, vars: set<string>, r: nat) {
    forall n :: n in vars ==> n in env && env[n].Repeated? && r <= |env[n].values|
  }

  /** The repeated bindings after the first `r` repetitions. */
  ghost function UpTo(env: MatchEnv, vars: set<string>, r: nat): MatchEnv
    requires Longer(env, vars, r)
  {
    map n | n in vars :: Repeated(env[n].values[..r])
  }

  lemma Prefixes(env: MatchEnv, vars: set<string>, count: nat)
    requires AllRepeated(env, vars, count)
    ensures UpTo(env, vars, count) == Only(env, vars)
  {
    forall n | n in vars ensures Repeated(env[n].values[..count]) == env[n] {
      assert env[n].values[..count] == env[n].values;
    }
  }

  lemma {:induction false} RepeatsAreComplete(
    mt: Matcher, p: Pattern, xs: seq<SExpr>, env1: MatchEnv, env: MatchEnv, r: nat)
    requires RepeatsMatch(mt, p, xs, env, r) && AllRepeated(env, PatternVars(p), r + |xs|)
    ensures MatchRepeats(mt, p, PatternVars(p), xs, env1 + UpTo(env, PatternVars(p), r))
      == Some(env1 + UpTo(env, PatternVars(p), r + |xs|))
    decreases p, |xs| + 1
  {
    hide Match, MatchRepeats, PatternVars, Collect, Only, Repetition, UpTo, Matches;
    var vars := PatternVars(p);
    if xs == [] {
      NoRepetition(mt, p, env1 + UpTo(env, vars, r));
    } else {
      MatchIsComplete(mt, p, xs[0], map[], Repetition(env, r));
      RepeatsAreComplete(mt, p, xs[1..], env1, env, r + 1);
      CollectNext(env1, env, vars, r);
      OneRepetition(mt, p, xs, env1 + UpTo(env, vars, r));
    }
  }

  lemma NoRepetition(mt: Matcher, p: Pattern, env: MatchEnv)
    ensures MatchRepeats(mt, p, PatternVars(p), [], env) == Some(env)
  {
  }

  lemma OneRepetition(mt: Matcher, p: Pattern, xs: seq<SExpr>, env: MatchEnv)
    requires xs != [] && Match(mt, p, xs[0], map[]).Some?
    ensures MatchRepeats(mt, p, PatternVars(p), xs, env) ==
      MatchRepeats(mt, p, PatternVars(p), xs[1..], Collect(env, Match(mt, p, xs[0], map[]).value, PatternVars(p)))
  {
    hide Match;
  }

  lemma CollectNext(env1: MatchEnv, env: MatchEnv, vars: set<string>, r: nat)
    requires Longer(env, vars, r + 1)
    ensures Collect(env1 + UpTo(env, vars, r), map[] + Only(Repetition(env, r), vars), vars) == env1 + UpTo(env, vars, r + 1)
  {
    forall n | n in vars ensures env[n].values[..r] + [env[n].values[r]] == env[n].values[..r + 1] {
    }
  }

  /**
   For every linear pattern: what is matched without nesting is exactly what the pattern describes,
   with exactly those bindings.
   */
  lemma MatchIsExact(mt: Matcher, p: Pattern, x: SExpr, env: MatchEnv)
    requires IsLinear(p)
    ensures Match(mt, p, x, map[]) == Some(env) && Unnested(p, x) <==> Matches(mt, p, x, env) && env.Keys == PatternVars(p)
  {
    hide Match, Matches, Fits, Unnested;
    if Match(mt, p, x, map[]) == Some(env) && Unnested(p, x) {
      MatchFits(mt, p, x, map[]);
      FitsMatch(mt, p, x, env);
    }
    if Matches(mt, p, x, env) && env.Keys == PatternVars(p) {
      MatchesAreUnnested(mt, p, x, env);
      MatchIsComplete(mt, p, x, map[], env);
      assert map[] + Only(env, PatternVars(p)) == env;
    }
  }

  // ---- Instantiating what was matched ----

  /** Equal up to datums that the matcher takes for equal. */
  ghost predicate Alike(mt: Matcher, y: SExpr, x: SExpr) {
    || y == x
    || DatumEqual(mt, y, x)
    || (y.List? && x.List? && y.tail.None? && x.tail.None? && AllAlike(mt, y.elems, x.elems))
  }

  ghost predicate AllAlike(mt: Matcher, ys: seq<SExpr>, xs: seq<SExpr>) {
    |ys| == |xs| && (ys == [] || (Alike(mt, ys[0], xs[0]) && AllAlike(mt, ys[1..], xs[1..])))
  }

  /**
   Every ellipsis met outside others took `count` elements, and the ellipses below it took none;
   this can be read off the pattern and the input.
   */
  predicate Evenly(p: Pattern, x: SExpr, count: nat)
    decreases p, 0
  {
    match p
    case PatList(elems) => x.List? && |x.elems| == |elems| && AllEvenly(elems, x.elems, count)
    case PatEllipsis(before, repeated, after) =>
      && x.List? && |x.elems| == |before| + count + |after|
      && AllEvenly(before, x.elems[..|before|], count)
      && EachEvenly(repeated, x.elems[|before|..|before| + count])
      && AllEvenly(after, x.elems[|before| + count..], count)
    case _ => true
  }

  predicate AllEvenly(ps: seq<Pattern>, xs: seq<SExpr>, count: nat)
    requires |ps| == |xs|
    decreases ps, 0
  {
    ps == [] || (Evenly(ps[0], xs[0], count) && AllEvenly(ps[1..], xs[1..], count))
  }

  predicate EachEvenly(p: Pattern, xs: seq<SExpr>)
    decreases p, |xs| + 1
  {
    xs == [] || (Evenly(p, xs[0], 0) && EachEvenly(p, xs[1..]))
  }

  /** The ellipses outside others took equally many elements; none at all when they have no variables. */
  ghost predicate Survives(p: Pattern, x: SExpr) {
    exists count: nat :: Evenly(p, x, count) && (EllipsisVars(p) == {} ==> count == 0)
  }

  /** An environment without repeated bindings repeats nothing. */
  ghost predicate NothingRepeated(env: MatchEnv) {
    forall n :: n in env ==> env[n].Single?
  }

  lemma NothingRepeatedCount(cx: Context, env: MatchEnv)
    requires NothingRepeated(env)
    ensures RepeatCount(cx, env) == 0
  {
  }

  lemma RepetitionIsSingle(env: MatchEnv, r: nat)
    ensures NothingRepeated(Repetition(env, r)) && Repetition(env, r).Keys == env.Keys
  {
  }

  /** What a template needs of an environment: a value for each variable, or any binding below an ellipsis. */
  predicate Fillable(p: Pattern, env: MatchEnv) {
    match p
    case PatVar(n) => n in env && env[n].Single?
    case PatList(elems) => AllFillable(elems, env)
    case PatEllipsis(before, repeated, after) =>
      AllFillable(before, env) && AllFillable(after, env) && PatternVars(repeated) <= env.Keys
    case _ => true
  }

  predicate AllFillable(ps: seq<Pattern>, env: MatchEnv) {
    ps == [] || (Fillable(ps[0], env) && AllFillable(ps[1..], env))
  }

  lemma {:induction false} NamedAreFillable(p: Pattern, env: MatchEnv)
    requires PatternVars(p) <= env.Keys && NothingRepeated(env)
    ensures Fillable(p, env)
  {
    match p
    case PatList(elems) => AllNamedAreFillable(elems, env);
    case PatEllipsis(before, _, after) =>
      AllNamedAreFillable(before, env);
      AllNamedAreFillable(after, env);
    case _ =>
  }

  lemma {:induction false} AllNamedAreFillable(ps: seq<Pattern>, env: MatchEnv)
    requires AllVars(ps) <= env.Keys && NothingRepeated(env)
    ensures AllFillable(ps, env)
  {
    if ps != [] {
      NamedAreFillable(ps[0], env);
      AllNamedAreFillable(ps[1..], env);
    }
  }

  lemma {:induction false} FittingIsFillable(mt: Matcher, p: Pattern, x: SExpr, env: MatchEnv, deep: bool)
    requires Fits(mt, p, x, env, deep) && PatternVars(p) <= env.Keys
    ensures Fillable(p, env)
    decreases p, 1
  {
    match p
    case PatList(elems) => AllFittingAreFillable(mt, elems, x.elems, env, deep);
    case PatEllipsis(before, _, after) =>
      AllFittingAreFillable(mt, before, x.elems[..|before|], env, deep);
      AllFittingAreFillable(mt, after, x.elems[|x.elems| - |after|..], env, deep);
    case _ =>
  }

  lemma {:induction false} AllFittingAreFillable(mt: Matcher, ps: seq<Pattern>, xs: seq<SExpr>, env: MatchEnv, deep: bool)
    requires AllFit(mt, ps, xs, env, deep) && AllVars(ps) <= env.Keys
    ensures AllFillable(ps, env)
    decreases ps, 0
  {
    if ps != [] {
      hide Fits;
      FittingIsFillable(mt, ps[0], xs[0], env, deep);
      AllFittingAreFillable(mt, ps[1..], xs[1..], env, deep);
    }
  }

  /** A pattern as a template introduces no symbol, and over such an environment it does not fail. */
  lemma {:induction false} Instantiates(cx: Context, p: Pattern, env: MatchEnv, rn: Renaming) returns (y: SExpr)
    requires IsSimple(p) && Fillable(p, env)
    ensures Instantiate(cx, AsTemplate(p), env, rn) == Ok(Instance(y, rn))
    decreases p, 1
  {
    match p
    case PatVar(n) => y := env[n].value;
    case PatDatum(d) => y := d;
    case PatList(elems) =>
      var ys := AllInstantiate(cx, elems, env, rn);
      y := Proper(ys);
    case PatEllipsis(before, repeated, after) =>
      var a := AllInstantiate(cx, before, env, rn);
      var b := RepeatsInstantiate(cx, repeated, env, 0, RepeatCount(cx, env), rn);
      var c := AllInstantiate(cx, after, env, rn);
      TemplateParts(cx, p, env, rn);
      y := List(a + b + c, None);
  }

  lemma {:induction false} AllInstantiate(cx: Context, ps: seq<Pattern>, env: MatchEnv, rn: Renaming) returns (ys: seq<SExpr>)
    requires AllSimple(ps) && AllFillable(ps, env)
    ensures InstantiateAll(cx, AsTemplates(ps), env, rn) == Ok(Instance(ys, rn))
    decreases ps, 0
  {
    if ps == [] {
      ys := [];
    } else {
      var y := Instantiates(cx, ps[0], env, rn);
      var rest := AllInstantiate(cx, ps[1..], env, rn);
      ys := [y] + rest;
      hide Instantiate;
      assert AsTemplates(ps)[1..] == AsTemplates(ps[1..]);
    }
  }

  lemma {:induction false} RepeatsInstantiate(cx: Context, p: Pattern, env: MatchEnv, r: nat, n: nat, rn: Renaming)
    returns (ys: seq<SExpr>)
    requires IsSimple(p) && PatternVars(p) <= env.Keys && r <= n
    ensures InstantiateRepeats(cx, AsTemplate(p), env, r, n, rn) == Ok(Instance(ys, rn)) && |ys| == n - r
    decreases p, n - r + 2
  {
    if r == n {
      ys := [];
    } else {
      RepetitionIsSingle(env, r);
      NamedAreFillable(p, Repetition(env, r));
      var y := Instantiates(cx, p, Repetition(env, r), rn);
      var rest := RepeatsInstantiate(cx, p, env, r + 1, n, rn);
      ys := [y] + rest;
    }
  }

  lemma TemplateParts(cx: Context, p: Pattern, env: MatchEnv, rn: Renaming)
    requires p.PatEllipsis? && IsSimple(p)
    ensures AllSimple(p.before) && IsSimple(p.repeated) && AllSimple(p.after)
    ensures var b := InstantiateAll(cx, AsTemplates(p.before), env, rn);
      b.Ok? && b.value.renaming == rn ==>
      var m := InstantiateRepeats(cx, AsTemplate(p.repeated), env, 0, RepeatCount(cx, env), rn);
      m.Ok? && m.value.renaming == rn ==>
      var a := InstantiateAll(cx, AsTemplates(p.after), env, rn);
      a.Ok? && a.value.renaming == rn ==>
      Instantiate(cx, AsTemplate(p), env, rn) == Ok(Instance(List(b.value.value + m.value.value + a.value.value, None), rn))
  {
    hide InstantiateAll, InstantiateRepeats, AsTemplates;
  }

  lemma {:induction false} AlikeItself(mt: Matcher, xs: seq<SExpr>)
    ensures AllAlike(mt, xs, xs)
  {
    if xs != [] {
      AlikeItself(mt, xs[1..]);
    }
  }

  lemma AlikeLength(mt: Matcher, ys: seq<SExpr>, xs: seq<SExpr>)
    requires AllAlike(mt, ys, xs)
    ensures |ys| == |xs|
  {
  }

  /** Lists are alike exactly when their elements are. */
  lemma ListsAlike(mt: Matcher, ys: seq<SExpr>, xs: seq<SExpr>)
    ensures Alike(mt, List(ys, None), List(xs, None)) <==> AllAlike(mt, ys, xs)
  {
    if ys == xs {
      AlikeItself(mt, xs);
    }
  }

  lemma {:induction false} AlikeConcat(mt: Matcher, ys: seq<SExpr>, xs: seq<SExpr>, ys': seq<SExpr>, xs': seq<SExpr>)
    requires |ys| == |xs|
    ensures AllAlike(mt, ys + ys', xs + xs') <==> AllAlike(mt, ys, xs) && AllAlike(mt, ys', xs')
  {
    if ys == [] {
      assert ys + ys' == ys' && xs + xs' == xs';
    } else {
      AlikeConcat(mt, ys[1..], xs[1..], ys', xs');
      assert (ys + ys')[1..] == ys[1..] + ys' && (xs + xs')[1..] == xs[1..] + xs';
    }
  }

  /** What a fitting pattern is instantiated to is the input exactly when the input is even. */
  lemma {:induction false} FittingInstantiates(
    mt: Matcher, cx: Context, p: Pattern, x: SExpr, env: MatchEnv, deep: bool, rn: Renaming)
    returns (y: SExpr)
    requires IsSimple(p) && Fits(mt, p, x, env, deep) && PatternVars(p) <= env.Keys && (deep ==> NothingRepeated(env))
    ensures Instantiate(cx, AsTemplate(p), env, rn) == Ok(Instance(y, rn))
    ensures Alike(mt, y, x) <==> Evenly(p, x, RepeatCount(cx, env))
    decreases p, 1
  {
    match p
    case PatVar(n) => y := x;
    case PatDatum(d) => y := d;
    case PatList(elems) =>
      var ys := AllFittingInstantiate(mt, cx, elems, x.elems, env, deep, rn);
      y := Proper(ys);
      ListsAlike(mt, ys, x.elems);
      assert x == List(x.elems, None);
    case PatEllipsis(_, _, _) =>
      y := EllipsisInstantiates(mt, cx, p, x, env, deep, rn);
  }

  lemma {:induction false} AllFittingInstantiate(
    mt: Matcher, cx: Context, ps: seq<Pattern>, xs: seq<SExpr>, env: MatchEnv, deep: bool, rn: Renaming)
    returns (ys: seq<SExpr>)
    requires AllSimple(ps) && AllFit(mt, ps, xs, env, deep) && AllVars(ps) <= env.Keys && (deep ==> NothingRepeated(env))
    ensures InstantiateAll(cx, AsTemplates(ps), env, rn) == Ok(Instance(ys, rn))
    ensures |ps| == |xs| == |ys| && (AllAlike(mt, ys, xs) <==> AllEvenly(ps, xs, RepeatCount(cx, env)))
    decreases ps, 0
  {
    if ps == [] {
      ys := [];
    } else {
      var y := FittingInstantiates(mt, cx, ps[0], xs[0], env, deep, rn);
      var rest := AllFittingInstantiate(mt, cx, ps[1..], xs[1..], env, deep, rn);
      ys := [y] + rest;
      hide Instantiate, Fits, Alike, Evenly, RepeatCount;
      assert AsTemplates(ps)[1..] == AsTemplates(ps[1..]) && ys[1..] == rest;
    }
  }

  lemma {:induction false} RepeatsFittingInstantiate(
    mt: Matcher, cx: Context, p: Pattern, xs: seq<SExpr>, env: MatchEnv, r: nat, rn: Renaming)
    returns (ys: seq<SExpr>)
    requires IsSimple(p) && RepeatsFit(mt, p, xs, env, r) && PatternVars(p) <= env.Keys
    ensures InstantiateRepeats(cx, AsTemplate(p), env, r, r + |xs|, rn) == Ok(Instance(ys, rn))
    ensures |ys| == |xs| && (AllAlike(mt, ys, xs) <==> EachEvenly(p, xs))
    decreases p, |xs| + 2
  {
    if xs == [] {
      ys := [];
    } else {
      RepetitionIsSingle(env, r);
      NothingRepeatedCount(cx, Repetition(env, r));
      var y := FittingInstantiates(mt, cx, p, xs[0], Repetition(env, r), true, rn);
      var rest := RepeatsFittingInstantiate(mt, cx, p, xs[1..], env, r + 1, rn);
      ys := [y] + rest;
      hide Instantiate, Fits, Alike, Evenly, Repetition;
      assert ys[1..] == rest;
    }
  }

  lemma {:induction false} EllipsisInstantiates(
    mt: Matcher, cx: Context, p: Pattern, x: SExpr, env: MatchEnv, deep: bool, rn: Renaming)
    returns (y: SExpr)
    requires p.PatEllipsis?
    requires IsSimple(p) && Fits(mt, p, x, env, deep) && PatternVars(p) <= env.Keys && (deep ==> NothingRepeated(env))
    ensures Instantiate(cx, AsTemplate(p), env, rn) == Ok(Instance(y, rn))
    ensures Alike(mt, y, x) <==> Evenly(p, x, RepeatCount(cx, env))
    decreases p, 0
  {
    hide *;
    FittingParts(mt, p, x, env, deep);
    EllipsisParts(p);
    TemplateParts(cx, p, env, rn);
    var count := RepeatCount(cx, env);
    var end := |x.elems| - |p.after|;
    var xs, ys, zs := x.elems[..|p.before|], x.elems[|p.before|..end], x.elems[end..];
    var a := AllFittingInstantiate(mt, cx, p.before, xs, env, deep, rn);
    var c := AllFittingInstantiate(mt, cx, p.after, zs, env, deep, rn);
    var b;
    if deep {
      NothingRepeatedCount(cx, env);
    }
    if count == |ys| && (!deep || PatternVars(p.repeated) == {}) {
      b := RepeatsFittingInstantiate(mt, cx, p.repeated, ys, env, 0, rn);
    } else {
      b := RepeatsInstantiate(cx, p.repeated, env, 0, count, rn);
      NothingAlike(mt, b, ys, p.repeated);
    }
    y := List(a + b + c, None);
    assert x == List(x.elems, None);
    ListsAlike(mt, a + b + c, x.elems);
    ThreeAlike(mt, a, b, c, x.elems, |p.before|, end);
    EvenParts(p, x, count);
  }

  lemma NothingAlike(mt: Matcher, ys: seq<SExpr>, xs: seq<SExpr>, p: Pattern)
    ensures ys == xs == [] ==> AllAlike(mt, ys, xs) && EachEvenly(p, xs)
  {
  }

  lemma ThreeAlike(mt: Matcher, a: seq<SExpr>, b: seq<SExpr>, c: seq<SExpr>, xs: seq<SExpr>, i: nat, j: nat)
    requires i <= j <= |xs| && |a| == i && |c| == |xs| - j
    ensures AllAlike(mt, a + b + c, xs) <==>
      && |b| == j - i
      && AllAlike(mt, a, xs[..i]) && AllAlike(mt, b, xs[i..j]) && AllAlike(mt, c, xs[j..])
  {
    hide AllAlike;
    if |b| == j - i {
      AlikeConcat(mt, a, xs[..i], b, xs[i..j]);
      AlikeConcat(mt, a + b, xs[..i] + xs[i..j], c, xs[j..]);
      assert xs[..i] + xs[i..j] + xs[j..] == xs;
    } else if AllAlike(mt, a + b + c, xs) {
      AlikeLength(mt, a + b + c, xs);
    }
  }

  lemma EvenParts(p: Pattern, x: SExpr, count: nat)
    requires p.PatEllipsis? && x.List? && |x.elems| >= |p.before| + |p.after|
    ensures var end := |x.elems| - |p.after|;
      Evenly(p, x, count) <==>
        && end == |p.before| + count
        && AllEvenly(p.before, x.elems[..|p.before|], count)
        && EachEvenly(p.repeated, x.elems[|p.before|..end])
        && AllEvenly(p.after, x.elems[end..], count)
  {
    hide AllEvenly, EachEvenly;
  }

  /** In a fit the variables under outer ellipses are bound to lists, of the ellipses' even length. */
  lemma {:induction false} InnerCounts(mt: Matcher, p: Pattern, x: SExpr, env: MatchEnv, n: string)
    requires Fits(mt, p, x, env, false) && n in EllipsisVars(p)
    ensures n in env && env[n].Repeated?
    ensures forall count: nat :: Evenly(p, x, count) ==> |env[n].values| == count
    decreases p, 1
  {
    match p
    case PatList(elems) => SomeInnerCounts(mt, elems, x.elems, env, n);
    case PatEllipsis(before, repeated, after) =>
      var end := |x.elems| - |after|;
      hide AllEvenly, EachEvenly, AllFit, RepeatsFit;
      if n in AllEllipsisVars(before) {
        SomeInnerCounts(mt, before, x.elems[..|before|], env, n);
      } else if n in AllEllipsisVars(after) {
        SomeInnerCounts(mt, after, x.elems[end..], env, n);
      }
    case _ =>
  }

  lemma {:induction false} SomeInnerCounts(mt: Matcher, ps: seq<Pattern>, xs: seq<SExpr>, env: MatchEnv, n: string)
    requires AllFit(mt, ps, xs, env, false) && n in AllEllipsisVars(ps)
    ensures n in env && env[n].Repeated? && |ps| == |xs|
    ensures forall count: nat :: AllEvenly(ps, xs, count) ==> |env[n].values| == count
    decreases ps, 0
  {
    hide Fits, Evenly;
    if n in EllipsisVars(ps[0]) {
      InnerCounts(mt, ps[0], xs[0], env, n);
    } else {
      SomeInnerCounts(mt, ps[1..], xs[1..], env, n);
    }
  }

  /** The repeat count of an instantiation is the one that decides. */
  lemma CountDecides(mt: Matcher, cx: Context, p: Pattern, x: SExpr, env: MatchEnv)
    requires Fits(mt, p, x, env, false) && env.Keys == PatternVars(p) && IsOrder(cx.first)
    ensures Evenly(p, x, RepeatCount(cx, env)) <==> Survives(p, x)
  {
    hide Fits, Evenly;
    var c := RepeatCount(cx, env);
    OuterAreSingle(mt, p, x, env, false);
    if EllipsisVars(p) == {} {
      NothingRepeatedCount(cx, env);
    } else {
      var n :| n in EllipsisVars(p);
      EllipsisVarsAreVars(p);
      InnerCounts(mt, p, x, env, n);
      assert HasEllipsisVar(env);
      var k := cx.first(env);
      assert k in EllipsisVars(p);
      InnerCounts(mt, p, x, env, k);
      assert c == |env[k].values|;
    }
  }

  /**
   For every linear pattern of variables, data and lists with any ellipses: matching and
   instantiating gives the input back exactly when it survives.
   */
  lemma RoundTripIffSurvives(mt: Matcher, cx: Context, p: Pattern, x: SExpr, rn: Renaming) returns (y: SExpr)
    requires IsSimple(p) && IsLinear(p) && IsOrder(cx.first)
    requires Match(mt, p, x, map[]).Some?
    ensures Instantiate(cx, AsTemplate(p), Match(mt, p, x, map[]).value, rn) == Ok(Instance(y, rn))
    ensures Alike(mt, y, x) <==> Survives(p, x)
  {
    hide Match, Fits, Instantiate, Alike, Survives, Evenly;
    var env := Match(mt, p, x, map[]).value;
    MatchFits(mt, p, x, map[]);
    y := FittingInstantiates(mt, cx, p, x, env, false, rn);
    CountDecides(mt, cx, p, x, env);
  }

  // ---- Patterns that survive every match ----

  lemma {:induction false} PlainIsEven(mt: Matcher, p: Pattern, x: SExpr, env: MatchEnv, deep: bool, count: nat)
    requires Ellipses(p) == 0 && Fits(mt, p, x, env, deep)
    ensures Evenly(p, x, count)
    decreases p, 1
  {
    if p.PatList? { AllPlainAreEven(mt, p.elems, x.elems, env, deep, count); }
  }

  lemma {:induction false} AllPlainAreEven(
    mt: Matcher, ps: seq<Pattern>, xs: seq<SExpr>, env: MatchEnv, deep: bool, count: nat)
    requires AllEllipses(ps) == 0 && AllFit(mt, ps, xs, env, deep)
    ensures |ps| == |xs| && AllEvenly(ps, xs, count)
    decreases ps, 0
  {
    hide Fits, Evenly;
    if ps != [] {
      PlainIsEven(mt, ps[0], xs[0], env, deep, count);
      AllPlainAreEven(mt, ps[1..], xs[1..], env, deep, count);
    }
  }

  lemma {:induction false} PlainRepeatsAreEven(mt: Matcher, p: Pattern, xs: seq<SExpr>, env: MatchEnv, r: nat)
    requires Ellipses(p) == 0 && RepeatsFit(mt, p, xs, env, r)
    ensures EachEvenly(p, xs)
    decreases p, |xs| + 2
  {
    hide Fits, Evenly;
    if xs != [] {
      PlainIsEven(mt, p, xs[0], Repetition(env, r), true, 0);
      PlainRepeatsAreEven(mt, p, xs[1..], env, r + 1);
    }
  }

  lemma {:induction false} OneIsEven(mt: Matcher, p: Pattern, x: SExpr, env: MatchEnv) returns (count: nat)
    requires Ellipses(p) <= 1 && Fits(mt, p, x, env, false)
    ensures Evenly(p, x, count) && (Ellipses(p) == 0 ==> count == 0)
  {
    count := 0;
    match p
    case PatList(elems) => count := OneAmongIsEven(mt, elems, x.elems, env);
    case PatEllipsis(before, repeated, after) =>
      FittingParts(mt, p, x, env, false);
      hide Fits, AllFit, RepeatsFit, AllEvenly, EachEvenly, Evenly;
      var end := |x.elems| - |after|;
      count := end - |before|;
      AllPlainAreEven(mt, before, x.elems[..|before|], env, false, count);
      AllPlainAreEven(mt, after, x.elems[end..], env, false, count);
      PlainRepeatsAreEven(mt, repeated, x.elems[|before|..end], env, 0);
      EvenParts(p, x, count);
    case _ =>
  }

  lemma {:induction false} OneAmongIsEven(mt: Matcher, ps: seq<Pattern>, xs: seq<SExpr>, env: MatchEnv) returns (count: nat)
    requires AllEllipses(ps) <= 1 && AllFit(mt, ps, xs, env, false)
    ensures |ps| == |xs| && AllEvenly(ps, xs, count) && (AllEllipses(ps) == 0 ==> count == 0)
  {
    count := 0;
    if ps != [] {
      hide Fits, Evenly;
      if Ellipses(ps[0]) == 0 {
        count := OneAmongIsEven(mt, ps[1..], xs[1..], env);
        PlainIsEven(mt, ps[0], xs[0], env, false, count);
      } else {
        count := OneIsEven(mt, ps[0], xs[0], env);
        AllPlainAreEven(mt, ps[1..], xs[1..], env, false, count);
      }
    }
  }

  lemma {:induction false} BindingEllipses(p: Pattern)
    requires EllipsesBind(p) && EllipsisVars(p) == {}
    ensures Ellipses(p) == 0
  {
    if p.PatList? { AllBindingEllipses(p.elems); }
  }

  lemma {:induction false} AllBindingEllipses(ps: seq<Pattern>)
    requires AllEllipsesBind(ps) && AllEllipsisVars(ps) == {}
    ensures AllEllipses(ps) == 0
  {
    if ps != [] {
      BindingEllipses(ps[0]);
      AllBindingEllipses(ps[1..]);
    }
  }

  /** With at most one ellipsis, over a variable, matching any input and instantiating gives it back. */
  lemma InstantiatingUndoesMatching(mt: Matcher, cx: Context, p: Pattern, x: SExpr, rn: Renaming) returns (y: SExpr)
    requires IsSimple(p) && IsLinear(p) && EllipsesBind(p) && Ellipses(p) <= 1 && IsOrder(cx.first)
    requires Match(mt, p, x, map[]).Some?
    ensures Instantiate(cx, AsTemplate(p), Match(mt, p, x, map[]).value, rn) == Ok(Instance(y, rn))
    ensures Alike(mt, y, x)
  {
    hide Match, Fits, Instantiate, Alike, Evenly;
    MatchFits(mt, p, x, map[]);
    var count := OneIsEven(mt, p, x, Match(mt, p, x, map[]).value);
    if EllipsisVars(p) == {} {
      BindingEllipses(p);
    }
    y := RoundTripIffSurvives(mt, cx, p, x, rn);
  }

  // ---- Matching what was instantiated ----

  /** No variable is under two ellipses. */
  predicate IsFlat(p: Pattern) {
    match p
    case PatList(elems) => AllFlat(elems)
    case PatEllipsis(before, repeated, after) =>
      AllFlat(before) && IsFlat(repeated) && EllipsisVars(repeated) == {} && AllFlat(after)
    case _ => true
  }

  predicate AllFlat(ps: seq<Pattern>) {
    ps == [] || (IsFlat(ps[0]) && AllFlat(ps[1..]))
  }

  /** Variables under an ellipsis are bound to `count` values, the others to one. */
  ghost predicate IsShaped(env: MatchEnv, vars: set<string>, repeated: set<string>, count: nat) {
    forall n :: n in vars ==>
      n in env && (n in repeated <==> env[n].Repeated?) && (env[n].Repeated? ==> |env[n].values| == count)
  }

  /** Every datum in the pattern equals itself: no not-a-number, no datum the matcher cannot compare. */
  predicate HasComparableDatums(mt: Matcher, p: Pattern) {
    match p
    case PatDatum(d) => DatumEqual(mt, d, d)
    case PatList(elems) => AllComparable(mt, elems)
    case PatEllipsis(before, repeated, after) =>
      AllComparable(mt, before) && HasComparableDatums(mt, repeated) && AllComparable(mt, after)
    case _ => true
  }

  predicate AllComparable(mt: Matcher, ps: seq<Pattern>) {
    ps == [] || (HasComparableDatums(mt, ps[0]) && AllComparable(mt, ps[1..]))
  }

  /** Instantiating a flat pattern under well-shaped bindings and then matching recovers the bindings. */
  lemma MatchingUndoesInstantiating(mt: Matcher, cx: Context, p: Pattern, env: MatchEnv, count: nat, rn: Renaming)
    returns (x: SExpr)
    requires IsSimple(p) && IsLinear(p) && IsFlat(p) && IsOrder(cx.first) && HasComparableDatums(mt, p)
    requires env.Keys == PatternVars(p) && IsShaped(env, PatternVars(p), EllipsisVars(p), count)
    requires EllipsisVars(p) == {} ==> count == 0
    ensures Instantiate(cx, AsTemplate(p), env, rn) == Ok(Instance(x, rn))
    ensures Match(mt, p, x, map[]) == Some(env)
  {
    hide Match, Matches, Instantiate, PatternVars, EllipsisVars, Unnested;
    CountIsShape(cx, p, env, count);
    x := InstantiatedMatches(mt, cx, p, env, count, rn);
    MatchIsExact(mt, p, x, env);
  }

  lemma CountIsShape(cx: Context, p: Pattern, env: MatchEnv, count: nat)
    requires env.Keys == PatternVars(p) && IsShaped(env, PatternVars(p), EllipsisVars(p), count) && IsOrder(cx.first)
    requires EllipsisVars(p) == {} ==> count == 0
    ensures RepeatCount(cx, env) == count
  {
    if EllipsisVars(p) == {} {
      NothingRepeatedCount(cx, env);
    } else {
      var n :| n in EllipsisVars(p);
      EllipsisVarsAreVars(p);
      assert HasEllipsisVar(env);
    }
  }

  lemma {:induction false} InstantiatedMatches(
    mt: Matcher, cx: Context, p: Pattern, env: MatchEnv, count: nat, rn: Renaming) returns (x: SExpr)
    requires IsSimple(p) && IsLinear(p) && IsFlat(p) && HasComparableDatums(mt, p)
    requires IsShaped(env, PatternVars(p), EllipsisVars(p), count) && RepeatCount(cx, env) == count
    ensures Instantiate(cx, AsTemplate(p), env, rn) == Ok(Instance(x, rn)) && Matches(mt, p, x, env)
    decreases p, 1
  {
    match p
    case PatVar(n) => x := env[n].value;
    case PatDatum(d) => x := d;
    case PatList(elems) =>
      var xs := AllInstantiatedMatch(mt, cx, elems, env, count, rn);
      x := Proper(xs);
    case PatEllipsis(_, _, _) =>
      x := EllipsisInstantiated(mt, cx, p, env, count, rn);
  }

  lemma {:induction false} AllInstantiatedMatch(
    mt: Matcher, cx: Context, ps: seq<Pattern>, env: MatchEnv, count: nat, rn: Renaming) returns (xs: seq<SExpr>)
    requires AllSimple(ps) && AllLinear(ps) && AllFlat(ps) && AllComparable(mt, ps)
    requires IsShaped(env, AllVars(ps), AllEllipsisVars(ps), count) && RepeatCount(cx, env) == count
    ensures InstantiateAll(cx, AsTemplates(ps), env, rn) == Ok(Instance(xs, rn)) && AllMatch(mt, ps, xs, env)
    decreases ps, 0
  {
    if ps == [] {
      xs := [];
    } else {
      hide RepeatCount, Instantiate, Matches, IsFlat, IsSimple;
      EllipsisVarsAreVars(ps[0]);
      AllEllipsisVarsAreVars(ps[1..]);
      var x := InstantiatedMatches(mt, cx, ps[0], env, count, rn);
      var rest := AllInstantiatedMatch(mt, cx, ps[1..], env, count, rn);
      xs := [x] + rest;
      assert AsTemplates(ps)[1..] == AsTemplates(ps[1..]);
    }
  }

  lemma {:induction false} RepeatsInstantiated(
    mt: Matcher, cx: Context, p: Pattern, env: MatchEnv, r: nat, n: nat, rn: Renaming) returns (xs: seq<SExpr>)
    requires IsSimple(p) && IsLinear(p) && IsFlat(p) && EllipsisVars(p) == {} && HasComparableDatums(mt, p)
    requires r <= n && AllRepeated(env, PatternVars(p), n)
    ensures InstantiateRepeats(cx, AsTemplate(p), env, r, n, rn) == Ok(Instance(xs, rn))
    ensures |xs| == n - r && RepeatsMatch(mt, p, xs, env, r)
    decreases p, n - r + 2
  {
    if r == n {
      xs := [];
    } else {
      RepetitionIsSingle(env, r);
      NothingRepeatedCount(cx, Repetition(env, r));
      var x := InstantiatedMatches(mt, cx, p, Repetition(env, r), 0, rn);
      var rest := RepeatsInstantiated(mt, cx, p, env, r + 1, n, rn);
      xs := [x] + rest;
    }
  }

  lemma {:induction false} EllipsisInstantiated(
    mt: Matcher, cx: Context, p: Pattern, env: MatchEnv, count: nat, rn: Renaming) returns (x: SExpr)
    requires p.PatEllipsis?
    requires IsSimple(p) && IsLinear(p) && IsFlat(p) && HasComparableDatums(mt, p)
    requires IsShaped(env, PatternVars(p), EllipsisVars(p), count) && RepeatCount(cx, env) == count
    ensures Instantiate(cx, AsTemplate(p), env, rn) == Ok(Instance(x, rn)) && Matches(mt, p, x, env)
    decreases p, 0
  {
    hide *;
    FlatParts(p);
    EllipsisParts(p);
    ComparableParts(mt, p);
    ShapedParts(p, env, count);
    var a := AllInstantiatedMatch(mt, cx, p.before, env, count, rn);
    var b := RepeatsInstantiated(mt, cx, p.repeated, env, 0, count, rn);
    var c := AllInstantiatedMatch(mt, cx, p.after, env, count, rn);
    TemplateParts(cx, p, env, rn);
    x := List(a + b + c, None);
    ConcatMatches(mt, p, a, b, c, env);
  }

  lemma FlatParts(p: Pattern)
    requires p.PatEllipsis? && IsFlat(p) && IsSimple(p)
    ensures AllFlat(p.before) && IsFlat(p.repeated) && EllipsisVars(p.repeated) == {} && AllFlat(p.after)
    ensures AllSimple(p.before) && IsSimple(p.repeated) && AllSimple(p.after)
  {
  }

  lemma ConcatMatches(mt: Matcher, p: Pattern, a: seq<SExpr>, b: seq<SExpr>, c: seq<SExpr>, env: MatchEnv)
    requires p.PatEllipsis?
    requires AllMatch(mt, p.before, a, env) && AllMatch(mt, p.after, c, env)
    requires RepeatsMatch(mt, p.repeated, b, env, 0) && AllRepeated(env, PatternVars(p.repeated), |b|)
    ensures Matches(mt, p, List(a + b + c, None), env)
  {
    MatchedLengths(mt, p.before, a, env);
    MatchedLengths(mt, p.after, c, env);
    hide *;
    var x := List(a + b + c, None);
    PartsOf(a, b, c);
    assert |x.elems| - |p.after| - |p.before| == |b|;
    PartsMatch(mt, p, x, env);
  }

  lemma ComparableParts(mt: Matcher, p: Pattern)
    requires p.PatEllipsis? && HasComparableDatums(mt, p)
    ensures AllComparable(mt, p.before) && HasComparableDatums(mt, p.repeated) && AllComparable(mt, p.after)
  {
  }

  lemma ShapedParts(p: Pattern, env: MatchEnv, count: nat)
    requires p.PatEllipsis? && IsLinear(p) && IsShaped(env, PatternVars(p), EllipsisVars(p), count)
    ensures IsShaped(env, AllVars(p.before), AllEllipsisVars(p.before), count)
    ensures IsShaped(env, AllVars(p.after), AllEllipsisVars(p.after), count)
    ensures AllRepeated(env, PatternVars(p.repeated), count)
  {
    AllEllipsisVarsAreVars(p.before);
    AllEllipsisVarsAreVars(p.after);
  }

  lemma PartsMatch(mt: Matcher, p: Pattern, x: SExpr, env: MatchEnv)
    requires p.PatEllipsis? && x.List? && x.tail.None? && |x.elems| >= |p.before| + |p.after|
    requires var end := |x.elems| - |p.after|;
      && AllMatch(mt, p.before, x.elems[..|p.before|], env)
      && RepeatsMatch(mt, p.repeated, x.elems[|p.before|..end], env, 0)
      && AllRepeated(env, PatternVars(p.repeated), end - |p.before|)
      && AllMatch(mt, p.after, x.elems[end..], env)
    ensures Matches(mt, p, x, env)
  {
    hide AllMatch, RepeatsMatch, PatternVars;
  }

  lemma MatchedLengths(mt: Matcher, ps: seq<Pattern>, xs: seq<SExpr>, env: MatchEnv)
    requires AllMatch(mt, ps, xs, env)
    ensures |ps| == |xs|
  {
  }

  lemma PartsOf<T>(a: seq<T>, b: seq<T>, c: seq<T>)
    ensures var x := a + b + c;
      x[..|a|] == a && x[|a|..|x| - |c|] == b && x[|x| - |c|..] == c
  {
  }

  // ---- What does not survive ----

  lemma NoRepeats(cx: Context, t: Template, env: MatchEnv, rn: Renaming)
    ensures InstantiateRepeats(cx, t, env, 0, 0, rn) == Ok(Instance([], rn))
  {
  }

  /** `(1 ...)` matches `(1)`, which does not survive: the ellipsis forgets how often it matched. */
  lemma EllipsisWithoutVariables(mt: Matcher, cx: Context, rn: Renaming)
    ensures var one := Num(Fixnum(1));
      var p, x := PatEllipsis([], PatDatum(one), []), Proper([one]);
      Match(mt, p, x, map[]) == Some(map[]) && !Survives(p, x)
    ensures Instantiate(cx, TmplEllipsis([], TmplDatum(Num(Fixnum(1))), []), map[], rn) == Ok(Instance(Proper([]), rn))
  {
    hide Match, Matches, Emptied, Collect, Repetition, MatchRepeats;
    var one := Num(Fixnum(1));
    var p, x := PatEllipsis([], PatDatum(one), []), Proper([one]);
    OnceMatches(mt, one);
    MatchIsExact(mt, p, x, map[]);
    NoRepeats(cx, TmplDatum(one), map[], rn);
    var e: seq<SExpr> := [];
    assert e + e + e == e;
  }

  lemma OnceMatches(mt: Matcher, one: SExpr)
    requires one == Num(Fixnum(1))
    ensures Matches(mt, PatEllipsis([], PatDatum(one), []), Proper([one]), map[])
  {
    hide Repetition, Match, PatternVars;
    var xs := [one];
    assert xs[..0] == [] && xs[0..1] == xs && xs[1..] == [];
    assert Matches(mt, PatDatum(one), one, Repetition(map[], 0));
    RepeatsMatchOne(mt, PatDatum(one), one, map[]);
    DatumBindsNothing(one);
    PartsMatch(mt, PatEllipsis([], PatDatum(one), []), Proper(xs), map[]);
  }

  lemma RepeatsMatchOne(mt: Matcher, p: Pattern, x: SExpr, env: MatchEnv)
    requires Matches(mt, p, x, Repetition(env, 0))
    ensures RepeatsMatch(mt, p, [x], env, 0)
  {
    hide Repetition, Matches;
    assert [x][1..] == [] && RepeatsMatch(mt, p, [], env, 1);
  }

  lemma DatumBindsNothing(d: SExpr)
    ensures PatternVars(PatDatum(d)) == {}
  {
  }

  /** `((a ...) (b ...))`: two lists, each of any length. */
  const TWO_LISTS := PatList([PatEllipsis([], PatVar("a"), []), PatEllipsis([], PatVar("b"), [])])

  /** Two lists survive exactly when they are of one length, since one of them gives both their count. */
  lemma TwoListsSurvive(xs: seq<SExpr>, ys: seq<SExpr>)
    ensures Survives(TWO_LISTS, Proper([Proper(xs), Proper(ys)])) <==> |xs| == |ys|
  {
    var x := Proper([Proper(xs), Proper(ys)]);
    var p, q := PatEllipsis([], PatVar("a"), []), PatEllipsis([], PatVar("b"), []);
    assert EllipsisVars(p) == {"a"};
    assert "a" in EllipsisVars(TWO_LISTS);
    forall count: nat ensures Evenly(TWO_LISTS, x, count) <==> |xs| == count && |ys| == count {
      ListIsEven("a", xs, count);
      ListIsEven("b", ys, count);
      assert TWO_LISTS.elems[1..] == [q] && x.elems[1..] == [Proper(ys)];
      assert [q][1..] == [] && [Proper(ys)][1..] == [];
    }
    hide Evenly, EllipsisVars;
    if |xs| == |ys| {
      assert Evenly(TWO_LISTS, x, |xs|);
    }
  }

  lemma ListIsEven(name: string, xs: seq<SExpr>, count: nat)
    ensures Evenly(PatEllipsis([], PatVar(name), []), Proper(xs), count) <==> |xs| == count
  {
    var p, x := PatEllipsis([], PatVar(name), []), Proper(xs);
    EvenParts(p, x, count);
    VariablesAreEven(name, xs[0..|xs|]);
    assert x.elems[..0] == [] && x.elems[|xs|..] == [];
    hide Evenly, EachEvenly;
  }

  lemma {:induction false} VariablesAreEven(name: string, xs: seq<SExpr>)
    ensures EachEvenly(PatVar(name), xs)
  {
    if xs != [] {
      VariablesAreEven(name, xs[1..]);
    }
  }

  // ---- What is not kept ----

  function EmptyValues(n: nat): (s: seq<SExpr>)
    ensures |s| == n && forall i :: 0 <= i < n ==> s[i] == Nil
  {
    seq(n, i => Nil)
  }

  /** `(x ...)`, alone and repeated. */
  const ONE_LIST := PatEllipsis([], PatVar("x"), [])
  const LISTS := PatEllipsis([], ONE_LIST, [])

  lemma ListMatches(mt: Matcher, xs: seq<SExpr>)
    ensures Match(mt, ONE_LIST, Proper(xs), map[]) == Some(map["x" := Repeated(xs)])
  {
    hide Match, Matches, RepeatsMatch;
    var env: MatchEnv := map["x" := Repeated(xs)];
    assert PatternVars(ONE_LIST) == {"x"};
    assert xs[..0] == [] && xs[0..|xs|] == xs && xs[|xs|..] == [];
    VariablesMatch(mt, xs, env, 0);
    PartsMatch(mt, ONE_LIST, Proper(xs), env);
    MatchIsComplete(mt, ONE_LIST, Proper(xs), map[], env);
    assert map[] + Only(env, {"x"}) == env;
  }

  lemma {:induction false} VariablesMatch(mt: Matcher, xs: seq<SExpr>, env: MatchEnv, r: nat)
    requires "x" in env && env["x"].Repeated? && r + |xs| == |env["x"].values| && env["x"].values[r..] == xs
    ensures RepeatsMatch(mt, PatVar("x"), xs, env, r)
    decreases xs
  {
    if xs != [] {
      assert env["x"].values[r] == xs[0] && env["x"].values[r + 1..] == xs[1..];
      VariablesMatch(mt, xs[1..], env, r + 1);
    }
  }

  lemma {:induction false} ListsMatch(mt: Matcher, lists: seq<seq<SExpr>>, xs: seq<SExpr>, done: nat)
    requires |xs| == |lists| && forall i :: 0 <= i < |xs| ==> xs[i] == Proper(lists[i])
    ensures MatchRepeats(mt, ONE_LIST, {"x"}, xs, map["x" := Repeated(EmptyValues(done))])
      == Some(map["x" := Repeated(EmptyValues(done + |xs|))])
    decreases xs
  {
    hide Match;
    var env: MatchEnv := map["x" := Repeated(EmptyValues(done))];
    if xs != [] {
      ListMatches(mt, lists[0]);
      assert EmptyValues(done) + [Nil] == EmptyValues(done + 1);
      assert Collect(env, map["x" := Repeated(lists[0])], {"x"}) == map["x" := Repeated(EmptyValues(done + 1))];
      ListsMatch(mt, lists[1..], xs[1..], done + 1);
    }
  }

  /** `((x ...) ...)` matches any list of lists; how many there were is kept, and nothing of what was in them. */
  lemma NestedValuesAreLost(mt: Matcher, lists: seq<seq<SExpr>>, xs: seq<SExpr>)
    requires |xs| == |lists| && forall i :: 0 <= i < |xs| ==> xs[i] == Proper(lists[i])
    ensures Match(mt, LISTS, Proper(xs), map[]) == Some(map["x" := Repeated(EmptyValues(|xs|))])
  {
    assert PatternVars(ONE_LIST) == {"x"};
    hide Match, MatchRepeats;
    LoneEllipsis(mt, ONE_LIST, xs);
    ListsMatch(mt, lists, xs, 0);
    assert EmptyValues(0) == [];
    assert Emptied(map[], {"x"}) == map["x" := Repeated([])];
  }

  /** A list pattern of one ellipsis repeats its item over the whole list. */
  lemma LoneEllipsis(mt: Matcher, p: Pattern, xs: seq<SExpr>)
    ensures Match(mt, PatEllipsis([], p, []), Proper(xs), map[])
      == MatchRepeats(mt, p, PatternVars(p), xs, Emptied(map[], PatternVars(p)))
  {
    hide MatchRepeats, PatternVars, Emptied;
    assert xs[..0] == [] && xs[0..|xs|] == xs && xs[|xs|..] == [];
  }
}
