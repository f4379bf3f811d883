/**
 Programs as abstract syntax: the derived expressions of R7RS-small sections 4.2.1, 4.2.2, 4.2.4
 and 4.2.8 with the texts that spell them, and the core forms they expand to.
 */
module Programs {
  import opened Wrappers
  import opened SExprs
  import opened SyntaxRules
  import opened Expanders

  datatype Expr =
    | Lit(datum: SExpr)
    | Ref(name: string)
    | QuoteOf(short: bool, datum: SExpr)
    | If(test: Expr, yes: Expr, no: Expr)
    | OneArmed(test: Expr, yes: Expr)
    | Begin(body: seq<Expr>)
    | Lambda(params: seq<string>, rest: Option<string>, block: Block)
    | Assign(name: string, value: Expr)
    | App(fn: Expr, args: seq<Expr>)
    | Let(names: seq<string>, inits: seq<Expr>, block: Block)
    | LoopLet(loop: string, names: seq<string>, inits: seq<Expr>, block: Block)
    | LetStar(names: seq<string>, inits: seq<Expr>, block: Block)
    | Letrec(names: seq<string>, inits: seq<Expr>, body: seq<Expr>)
    | And(tests: seq<Expr>)
    | Or(tests: seq<Expr>)
    | When(test: Expr, body: seq<Expr>)
    | Unless(test: Expr, body: seq<Expr>)
    | Cond(clauses: seq<Clause>, otherwise: Otherwise)
    | Case(key: Expr, choices: seq<Choice>, otherwise: Otherwise)
    | Do(names: seq<string>, inits: seq<Expr>, steps: seq<Expr>, shown: seq<bool>,
         test: Expr, exits: seq<Expr>, body: seq<Expr>)
    | Quasi(short: bool, template: Tmpl)

  /** The body of a procedure or a `let`: internal definitions, then expressions. */
  datatype Block = Block(names: seq<string>, inits: seq<Expr>, exprs: seq<Expr>)

  function Plain(exprs: seq<Expr>): Block {
    Block([], [], exprs)
  }

  datatype Otherwise = NoElse | Else(body: seq<Expr>)

  datatype Clause = Clause(test: Expr, body: seq<Expr>)

  datatype Choice = Choice(data: seq<SExpr>, body: seq<Expr>)

  /** A quasiquote template; `Splice` stands in element position only. */
  datatype Tmpl =
    | Constant(datum: SExpr)
    | Unquoted(short: bool, of: Expr)
    | Listed(elems: seq<Elem>, tail: Option<Tmpl>)
    | Vectored(elems: seq<Elem>)

  datatype Elem = One(tmpl: Tmpl) | Splice(short: bool, of: Expr)

  // ---- Text ----

  function PairTexts(names: seq<string>, inits: seq<SExpr>): seq<SExpr> {
    if names == [] || inits == [] then [] else [Proper([Sym(names[0]), inits[0]])] + PairTexts(names[1..], inits[1..])
  }

  function FormalsText(params: seq<string>, rest: Option<string>): SExpr {
    if rest.None? then Proper(Symbols(params))
    else if params == [] then Sym(rest.value)
    else List(Symbols(params), Some(Sym(rest.value)))
  }

  function DefineTexts(names: seq<string>, inits: seq<SExpr>): seq<SExpr> {
    if names == [] || inits == [] then []
    else [Form("define", [Sym(names[0]), inits[0]])] + DefineTexts(names[1..], inits[1..])
  }

  function DoVarTexts(names: seq<string>, inits: seq<SExpr>, steps: seq<SExpr>, shown: seq<bool>): seq<SExpr> {
    if names == [] || inits == [] || steps == [] || shown == [] then []
    else
      [Proper([Sym(names[0]), inits[0]] + (if shown[0] then [steps[0]] else []))]
      + DoVarTexts(names[1..], inits[1..], steps[1..], shown[1..])
  }

  function ElseText(o: Otherwise): seq<SExpr> {
    match o
    case NoElse => []
    case Else(body) => [Form("else", Texts(body))]
  }

  /** The text of a program, as the reader delivers it. */
  function Text(e: Expr): SExpr {
    match e
    case Lit(d) => d
    case Ref(n) => Sym(n)
    case QuoteOf(short, d) => if short then Reader(Quote, d) else Form("quote", [d])
    case If(t, y, o) => Form("if", [Text(t), Text(y), Text(o)])
    case OneArmed(t, y) => Form("if", [Text(t), Text(y)])
    case Begin(body) => Form("begin", Texts(body))
    case Lambda(params, rest, body) => Form("lambda", [FormalsText(params, rest)] + BlockTexts(body))
    case Assign(n, v) => Form("set!", [Sym(n), Text(v)])
    case App(f, args) => Proper([Text(f)] + Texts(args))
    case Let(names, inits, body) => Form("let", [Proper(PairTexts(names, Texts(inits)))] + BlockTexts(body))
    case LoopLet(loop, names, inits, body) =>
      Form("let", [Sym(loop), Proper(PairTexts(names, Texts(inits)))] + BlockTexts(body))
    case LetStar(names, inits, body) => Form("let*", [Proper(PairTexts(names, Texts(inits)))] + BlockTexts(body))
    case Letrec(names, inits, body) => Form("letrec", [Proper(PairTexts(names, Texts(inits)))] + Texts(body))
    case And(tests) => Form("and", Texts(tests))
    case Or(tests) => Form("or", Texts(tests))
    case When(t, body) => Form("when", [Text(t)] + Texts(body))
    case Unless(t, body) => Form("unless", [Text(t)] + Texts(body))
    case Cond(clauses, otherwise) => Form("cond", ClauseTexts(clauses) + ElseText(otherwise))
    case Case(key, choices, otherwise) => Form("case", [Text(key)] + (ChoiceTexts(choices) + ElseText(otherwise)))
    case Do(names, inits, steps, shown, test, exits, body) =>
      Form("do", [Proper(DoVarTexts(names, Texts(inits), Texts(steps), shown)), Proper([Text(test)] + Texts(exits))]
        + Texts(body))
    case Quasi(short, t) => if short then Reader(Quasiquote, TmplText(t)) else Form("quasiquote", [TmplText(t)])
  }

  function Texts(es: seq<Expr>): (r: seq<SExpr>)
    ensures |r| == |es|
  {
    if es == [] then [] else [Text(es[0])] + Texts(es[1..])
  }

  function BlockTexts(b: Block): seq<SExpr> {
    DefineTexts(b.names, Texts(b.inits)) + Texts(b.exprs)
  }

  function ClauseText(c: Clause): SExpr {
    Proper([Text(c.test)] + Texts(c.body))
  }

  function ClauseTexts(cs: seq<Clause>): (r: seq<SExpr>)
    ensures |r| == |cs|
  {
    if cs == [] then [] else [ClauseText(cs[0])] + ClauseTexts(cs[1..])
  }

  function ChoiceText(c: Choice): SExpr {
    Proper([Proper(c.data)] + Texts(c.body))
  }

  function ChoiceTexts(cs: seq<Choice>): (r: seq<SExpr>)
    ensures |r| == |cs|
  {
    if cs == [] then [] else [ChoiceText(cs[0])] + ChoiceTexts(cs[1..])
  }

  function TmplText(t: Tmpl): SExpr {
    match t
    case Constant(d) => d
    case Unquoted(short, e) => if short then Reader(Unquote, Text(e)) else Form("unquote", [Text(e)])
    case Listed(elems, None) => List(ElemTexts(elems), None)
    case Listed(elems, Some(tail)) => List(ElemTexts(elems), Some(TmplText(tail)))
    case Vectored(elems) => Vector(ElemTexts(elems))
  }

  function ElemText(x: Elem): SExpr {
    match x
    case One(t) => TmplText(t)
    case Splice(short, e) => if short then Reader(UnquoteSplicing, Text(e)) else Form("unquote-splicing", [Text(e)])
  }

  function ElemTexts(xs: seq<Elem>): (r: seq<SExpr>)
    ensures |r| == |xs|
  {
    if xs == [] then [] else [ElemText(xs[0])] + ElemTexts(xs[1..])
  }

  // ---- Which programs ----

  predicate IsSelfEvaluating(d: SExpr) {
    d.Nil? || d.Bool? || d.Char? || d.Str? || d.Num? || d.Vector? || d.Bytes?
  }

  /**
   Expressions with one reading: variables are not special heads, there are as many names as
   inits, every `cond` clause has a body and is not read as `else` or `=>`.
   */
  predicate Shaped(e: Expr) {
    match e
    case Lit(d) => IsSelfEvaluating(d)
    case Ref(n) => !IsSpecial(n)
    case QuoteOf(_, _) => true
    case If(t, y, o) => Shaped(t) && Shaped(y) && Shaped(o)
    case OneArmed(t, y) => Shaped(t) && Shaped(y)
    case Begin(body) => AllShaped(body)
    case Lambda(_, _, body) => BlockShaped(body)
    case Assign(_, v) => Shaped(v)
    case App(f, args) => Shaped(f) && AllShaped(args)
    case Let(names, inits, body) => |names| == |inits| && AllShaped(inits) && BlockShaped(body)
    case LoopLet(loop, names, inits, body) =>
      |names| == |inits| && AllShaped(inits) && BlockShaped(body) && !IsSpecial(loop)
    case LetStar(names, inits, body) => |names| == |inits| && AllShaped(inits) && BlockShaped(body)
    case Letrec(names, inits, body) => |names| == |inits| && AllShaped(inits) && AllShaped(body)
    case And(tests) => AllShaped(tests)
    case Or(tests) => AllShaped(tests)
    case When(t, body) => Shaped(t) && AllShaped(body)
    case Unless(t, body) => Shaped(t) && AllShaped(body)
    case Cond(clauses, otherwise) => AllClausesShaped(clauses) && OtherwiseShaped(otherwise)
    case Case(key, choices, otherwise) => Shaped(key) && AllChoicesShaped(choices) && OtherwiseShaped(otherwise)
    case Do(names, inits, steps, shown, test, exits, body) =>
      && |names| == |inits| == |steps| == |shown|
      && AllShaped(inits) && AllShaped(steps) && Shaped(test) && AllShaped(exits) && AllShaped(body)
      && HiddenStepsStay(names, steps, shown)
    case Quasi(_, t) => TmplShaped(t)
  }

  predicate AllShaped(es: seq<Expr>) {
    es == [] || (Shaped(es[0]) && AllShaped(es[1..]))
  }

  predicate BlockShaped(b: Block) {
    |b.names| == |b.inits| && AllShaped(b.inits) && AllShaped(b.exprs)
  }

  predicate OtherwiseShaped(o: Otherwise) {
    match o
    case NoElse => true
    case Else(body) => AllShaped(body)
  }

  /** A variable without a step keeps its value. */
  predicate HiddenStepsStay(names: seq<string>, steps: seq<Expr>, shown: seq<bool>) {
    names == [] || steps == [] || shown == []
    || ((!shown[0] ==> steps[0] == Ref(names[0])) && HiddenStepsStay(names[1..], steps[1..], shown[1..]))
  }

  predicate ClauseShaped(c: Clause) {
    Shaped(c.test) && AllShaped(c.body) && c.body != [] && c.test != Ref("else") && c.body[0] != Ref("=>")
  }

  predicate AllClausesShaped(cs: seq<Clause>) {
    cs == [] || (ClauseShaped(cs[0]) && AllClausesShaped(cs[1..]))
  }

  predicate ChoiceShaped(c: Choice) {
    AllShaped(c.body)
  }

  predicate AllChoicesShaped(cs: seq<Choice>) {
    cs == [] || (ChoiceShaped(cs[0]) && AllChoicesShaped(cs[1..]))
  }

  /**
   No nested quotes or quasiquotes, and no list or vector that reads as an unquote. The reader makes
   no dotted list without elements.
   */
  predicate TmplShaped(t: Tmpl) {
    match t
    case Constant(d) => !d.List? && !d.Vector? && !d.Reader?
    case Unquoted(_, e) => Shaped(e)
    case Listed(elems, None) => AllElemsShaped(elems) && !ReadsAsQuote(elems)
    case Listed(elems, Some(tail)) => elems != [] && AllElemsShaped(elems) && TmplShaped(tail)
    case Vectored(elems) => AllElemsShaped(elems) && !ReadsAsQuote(elems)
  }

  predicate ElemShaped(x: Elem) {
    match x
    case One(t) => TmplShaped(t)
    case Splice(_, e) => Shaped(e)
  }

  predicate AllElemsShaped(xs: seq<Elem>) {
    xs == [] || (ElemShaped(xs[0]) && AllElemsShaped(xs[1..]))
  }

  predicate ReadsAsQuote(elems: seq<Elem>) {
    && |elems| == 2 && elems[0].One? && elems[0].tmpl.Constant? && elems[0].tmpl.datum.Sym?
    && elems[0].tmpl.datum.name in {"quote", "quasiquote", "unquote", "unquote-splicing"}
  }

  // ---- Free variables ----

  function NameSet(names: seq<string>): set<string> {
    set i | 0 <= i < |names| :: names[i]
  }

  predicate Distinct(names: seq<string>) {
    forall i, j :: 0 <= i < j < |names| ==> names[i] != names[j]
  }

  function RestSet(rest: Option<string>): set<string> {
    if rest.None? then {} else {rest.value}
  }

  /** Names a program may look up; `case` and quasiquote look up the procedures they expand to. */
  function Free(e: Expr): set<string> {
    match e
    case Lit(_) => {}
    case Ref(n) => {n}
    case QuoteOf(_, _) => {}
    case If(t, y, o) => Free(t) + Free(y) + Free(o)
    case OneArmed(t, y) => Free(t) + Free(y)
    case Begin(body) => AllFree(body)
    case Lambda(params, rest, body) => BlockFree(body) - NameSet(params) - RestSet(rest)
    case Assign(n, v) => {n} + Free(v)
    case App(f, args) => Free(f) + AllFree(args)
    case Let(names, inits, body) => AllFree(inits) + (BlockFree(body) - NameSet(names))
    case LoopLet(loop, names, inits, body) => AllFree(inits) + (BlockFree(body) - NameSet(names) - {loop})
    case LetStar(names, inits, body) => LetStarFree(names, inits, BlockFree(body))
    case Letrec(names, inits, body) => AllFree(inits) + AllFree(body) - NameSet(names)
    case And(tests) => AllFree(tests)
    case Or(tests) => AllFree(tests)
    case When(t, body) => Free(t) + AllFree(body)
    case Unless(t, body) => Free(t) + AllFree(body)
    case Cond(clauses, otherwise) => ClausesFree(clauses) + OtherwiseFree(otherwise)
    case Case(key, choices, otherwise) =>
      Free(key) + {"eqv?"} + ChoicesFree(choices) + OtherwiseFree(otherwise)
    case Do(names, inits, steps, _, test, exits, body) =>
      AllFree(inits) + (AllFree(steps) + Free(test) + AllFree(exits) + AllFree(body) - NameSet(names))
    case Quasi(_, t) => {"cons", "append", "list->vector"} + TmplFree(t)
  }

  function AllFree(es: seq<Expr>): set<string> {
    if es == [] then {} else Free(es[0]) + AllFree(es[1..])
  }

  function BlockFree(b: Block): set<string> {
    AllFree(b.inits) + AllFree(b.exprs) - NameSet(b.names)
  }

  function OtherwiseFree(o: Otherwise): set<string> {
    match o
    case NoElse => {}
    case Else(body) => AllFree(body)
  }

  function LetStarFree(names: seq<string>, inits: seq<Expr>, body: set<string>): set<string>
    decreases inits
  {
    if names == [] || inits == [] then body
    else Free(inits[0]) + (LetStarFree(names[1..], inits[1..], body) - {names[0]})
  }

  function ClauseFree(c: Clause): set<string> {
    Free(c.test) + AllFree(c.body)
  }

  function ClausesFree(cs: seq<Clause>): set<string> {
    if cs == [] then {} else ClauseFree(cs[0]) + ClausesFree(cs[1..])
  }

  function ChoiceFree(c: Choice): set<string> {
    AllFree(c.body)
  }

  function ChoicesFree(cs: seq<Choice>): set<string> {
    if cs == [] then {} else ChoiceFree(cs[0]) + ChoicesFree(cs[1..])
  }

  function TmplFree(t: Tmpl): set<string> {
    match t
    case Constant(_) => {}
    case Unquoted(_, e) => Free(e)
    case Listed(elems, None) => ElemsFree(elems)
    case Listed(elems, Some(tail)) => ElemsFree(elems) + TmplFree(tail)
    case Vectored(elems) => ElemsFree(elems)
  }

  function ElemFree(x: Elem): set<string> {
    match x
    case One(t) => TmplFree(t)
    case Splice(_, e) => Free(e)
  }

  function ElemsFree(xs: seq<Elem>): set<string> {
    if xs == [] then {} else ElemFree(xs[0]) + ElemsFree(xs[1..])
  }

  /**
   No named let has its name free in its inits. The expander puts the inits into the scope of the
   name, so this is what the meaning of a program needs and its expansion does not.
   */
  predicate Uncaptured(e: Expr) {
    match e
    case If(t, y, o) => Uncaptured(t) && Uncaptured(y) && Uncaptured(o)
    case OneArmed(t, y) => Uncaptured(t) && Uncaptured(y)
    case Begin(body) => AllUncaptured(body)
    case Lambda(_, _, body) => BlockUncaptured(body)
    case Assign(_, v) => Uncaptured(v)
    case App(f, args) => Uncaptured(f) && AllUncaptured(args)
    case Let(_, inits, body) => AllUncaptured(inits) && BlockUncaptured(body)
    case LoopLet(loop, _, inits, body) => loop !in AllFree(inits) && AllUncaptured(inits) && BlockUncaptured(body)
    case LetStar(_, inits, body) => AllUncaptured(inits) && BlockUncaptured(body)
    case Letrec(_, inits, body) => AllUncaptured(inits) && AllUncaptured(body)
    case And(tests) => AllUncaptured(tests)
    case Or(tests) => AllUncaptured(tests)
    case When(t, body) => Uncaptured(t) && AllUncaptured(body)
    case Unless(t, body) => Uncaptured(t) && AllUncaptured(body)
    case Cond(clauses, otherwise) => AllClausesUncaptured(clauses) && OtherwiseUncaptured(otherwise)
    case Case(key, choices, otherwise) =>
      Uncaptured(key) && AllChoicesUncaptured(choices) && OtherwiseUncaptured(otherwise)
    case Do(_, inits, steps, _, test, exits, body) =>
      && AllUncaptured(inits) && AllUncaptured(steps) && Uncaptured(test)
      && AllUncaptured(exits) && AllUncaptured(body)
    case Quasi(_, t) => TmplUncaptured(t)
    case _ => true
  }

  predicate AllUncaptured(es: seq<Expr>) {
    es == [] || (Uncaptured(es[0]) && AllUncaptured(es[1..]))
  }

  predicate BlockUncaptured(b: Block) {
    AllUncaptured(b.inits) && AllUncaptured(b.exprs)
  }

  predicate OtherwiseUncaptured(o: Otherwise) {
    match o
    case NoElse => true
    case Else(body) => AllUncaptured(body)
  }

  predicate ClauseUncaptured(c: Clause) {
    Uncaptured(c.test) && AllUncaptured(c.body)
  }

  predicate AllClausesUncaptured(cs: seq<Clause>) {
    cs == [] || (ClauseUncaptured(cs[0]) && AllClausesUncaptured(cs[1..]))
  }

  predicate ChoiceUncaptured(c: Choice) {
    AllUncaptured(c.body)
  }

  predicate AllChoicesUncaptured(cs: seq<Choice>) {
    cs == [] || (ChoiceUncaptured(cs[0]) && AllChoicesUncaptured(cs[1..]))
  }

  predicate TmplUncaptured(t: Tmpl) {
    match t
    case Constant(_) => true
    case Unquoted(_, e) => Uncaptured(e)
    case Listed(elems, None) => AllElemsUncaptured(elems)
    case Listed(elems, Some(tail)) => AllElemsUncaptured(elems) && TmplUncaptured(tail)
    case Vectored(elems) => AllElemsUncaptured(elems)
  }

  predicate ElemUncaptured(x: Elem) {
    match x
    case One(t) => TmplUncaptured(t)
    case Splice(_, e) => Uncaptured(e)
  }

  predicate AllElemsUncaptured(xs: seq<Elem>) {
    xs == [] || (ElemUncaptured(xs[0]) && AllElemsUncaptured(xs[1..]))
  }

  // ---- Sizes, for termination ----

  function Size(e: Expr): nat {
    match e
    case Lit(_) => 4
    case Ref(_) => 4
    case QuoteOf(_, _) => 4
    case If(t, y, o) => 5 + Size(t) + Size(y) + Size(o)
    case OneArmed(t, y) => 5 + Size(t) + Size(y)
    case Begin(body) => 3 + AllSize(body)
    case Lambda(_, _, body) => 3 + BlockSize(body)
    case Assign(_, v) => 3 + Size(v)
    case App(f, args) => 3 + Size(f) + AllSize(args)
    case Let(_, inits, body) => 3 + AllSize(inits) + BlockSize(body)
    case LoopLet(_, _, inits, body) => 3 + AllSize(inits) + BlockSize(body)
    case LetStar(_, inits, body) => 3 + AllSize(inits) + BlockSize(body)
    case Letrec(_, inits, body) => 3 + AllSize(inits) + AllSize(body)
    case And(tests) => 3 + AllSize(tests)
    case Or(tests) => 3 + AllSize(tests)
    case When(t, body) => 3 + Size(t) + AllSize(body)
    case Unless(t, body) => 3 + Size(t) + AllSize(body)
    case Cond(clauses, otherwise) => 3 + ClausesSize(clauses) + OtherwiseSize(otherwise)
    case Case(key, choices, otherwise) => 3 + Size(key) + ChoicesSize(choices) + OtherwiseSize(otherwise)
    case Do(_, inits, steps, _, test, exits, body) =>
      60 + AllSize(inits) + AllSize(steps) + Size(test) + AllSize(exits) + AllSize(body)
    case Quasi(_, t) => 3 + TmplSize(t)
  }

  function AllSize(es: seq<Expr>): nat {
    if es == [] then 0 else 1 + Size(es[0]) + AllSize(es[1..])
  }

  function BlockSize(b: Block): nat {
    2 + AllSize(b.inits) + AllSize(b.exprs)
  }

  function OtherwiseSize(o: Otherwise): nat {
    match o
    case NoElse => 1
    case Else(body) => 2 + AllSize(body)
  }

  function ClauseSize(c: Clause): nat {
    2 + Size(c.test) + AllSize(c.body)
  }

  function ClausesSize(cs: seq<Clause>): nat {
    if cs == [] then 0 else 1 + ClauseSize(cs[0]) + ClausesSize(cs[1..])
  }

  function ChoiceSize(c: Choice): nat {
    2 + |c.data| + AllSize(c.body)
  }

  function ChoicesSize(cs: seq<Choice>): nat {
    if cs == [] then 0 else 1 + ChoiceSize(cs[0]) + ChoicesSize(cs[1..])
  }

  function TmplSize(t: Tmpl): nat {
    match t
    case Constant(_) => 1
    case Unquoted(_, e) => 3 + Size(e)
    case Listed(elems, None) => 3 + ElemsSize(elems)
    case Listed(elems, Some(tail)) => 3 + ElemsSize(elems) + TmplSize(tail)
    case Vectored(elems) => 3 + ElemsSize(elems)
  }

  function ElemSize(x: Elem): nat {
    match x
    case One(t) => 1 + TmplSize(t)
    case Splice(_, e) => 1 + Size(e)
  }

  function ElemsSize(xs: seq<Elem>): nat {
    if xs == [] then 0 else 1 + ElemSize(xs[0]) + ElemsSize(xs[1..])
  }

  // ---- Core forms ----

  datatype Hint = OrTemp | CaseTemp | DoTemp

  /** A variable of an expanded program: the user's, or one made by gensym. */
  datatype Var = User(name: string) | Temp(hint: Hint, counter: nat)

  datatype Core =
    | CLit(datum: SExpr)
    | CRef(variable: Var)
    | CQuote(datum: SExpr)
    | CIf(test: Core, yes: Core, no: Core)
    | CBegin(body: seq<Core>)
    | CLambda(params: seq<Var>, rest: Option<Var>, body: seq<Core>)
    | CSet(variable: Var, value: Core)
    | CApp(fn: Core, args: seq<Core>)

  function HintText(h: Hint): string {
    match h
    case OrTemp => "or"
    case CaseTemp => "case-key"
    case DoTemp => "do-loop"
  }

  function VarText(session: string, v: Var): string {
    match v
    case User(n) => n
    case Temp(h, k) => Gensym(HintText(h), session, k)
  }

  function VarTexts(session: string, vs: seq<Var>): (r: seq<string>)
    ensures |r| == |vs|
  {
    seq(|vs|, i requires 0 <= i < |vs| => VarText(session, vs[i]))
  }

  function CoreFormals(session: string, params: seq<Var>, rest: Option<Var>): SExpr {
    FormalsText(VarTexts(session, params), if rest.None? then None else Some(VarText(session, rest.value)))
  }

  function CoreText(session: string, c: Core): SExpr {
    match c
    case CLit(d) => d
    case CRef(v) => Sym(VarText(session, v))
    case CQuote(d) => Form("quote", [d])
    case CIf(t, y, o) => Form("if", [CoreText(session, t), CoreText(session, y), CoreText(session, o)])
    case CBegin(body) => Form("begin", CoreTexts(session, body))
    case CLambda(params, rest, body) =>
      Form("lambda", [CoreFormals(session, params, rest)] + CoreTexts(session, body))
    case CSet(v, x) => Form("set!", [Sym(VarText(session, v)), CoreText(session, x)])
    case CApp(f, args) => Proper([CoreText(session, f)] + CoreTexts(session, args))
  }

  function CoreTexts(session: string, cs: seq<Core>): (r: seq<SExpr>)
    ensures |r| == |cs|
  {
    if cs == [] then [] else [CoreText(session, cs[0])] + CoreTexts(session, cs[1..])
  }

  /** Core programs as the expander makes them: no special head is a variable, formals are valid. */
  predicate CoreShaped(session: string, c: Core) {
    match c
    case CLit(d) => IsSelfEvaluating(d)
    case CRef(v) => !IsSpecial(VarText(session, v))
    case CQuote(_) => true
    case CIf(t, y, o) => CoreShaped(session, t) && CoreShaped(session, y) && CoreShaped(session, o)
    case CBegin(body) => AllCoreShaped(session, body)
    case CLambda(params, rest, body) =>
      && body != [] && AllCoreShaped(session, body)
      && ParseFormals(CoreFormals(session, params, rest)).Ok?
    case CSet(_, x) => CoreShaped(session, x)
    case CApp(f, args) => CoreShaped(session, f) && AllCoreShaped(session, args)
  }

  predicate AllCoreShaped(session: string, cs: seq<Core>) {
    cs == [] || (CoreShaped(session, cs[0]) && AllCoreShaped(session, cs[1..]))
  }

  function Max(a: nat, b: nat): nat {
    if a < b then b else a
  }

  /** The depth limit a core program needs. */
  function Height(c: Core): nat {
    match c
    case CLit(_) => 1
    case CRef(_) => 1
    case CQuote(_) => 1
    case CIf(t, y, o) => 1 + Max(Height(t), Max(Height(y), Height(o)))
    case CBegin(body) => 1 + AllHeight(body)
    case CLambda(_, _, body) => 1 + AllHeight(body)
    case CSet(_, x) => 1 + Height(x)
    case CApp(f, args) => 1 + Max(Height(f), AllHeight(args))
  }

  function AllHeight(cs: seq<Core>): nat {
    if cs == [] then 0 else Max(Height(cs[0]), AllHeight(cs[1..]))
  }

  /** How many parameters a core program binds: each costs a gensym whenever it is expanded. */
  function Binders(c: Core): nat {
    match c
    case CIf(t, y, o) => Binders(t) + Binders(y) + Binders(o)
    case CBegin(body) => AllBinders(body)
    case CLambda(params, rest, body) => |params| + (if rest.Some? then 1 else 0) + AllBinders(body)
    case CSet(_, x) => Binders(x)
    case CApp(f, args) => Binders(f) + AllBinders(args)
    case _ => 0
  }

  function AllBinders(cs: seq<Core>): nat {
    if cs == [] then 0 else Binders(cs[0]) + AllBinders(cs[1..])
  }
}
