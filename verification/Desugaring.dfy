/**
 Which core forms a program may expand to: the shape of each derived form's expansion, with the
 names of its temporaries left open.
 */
module Desugaring {
  import opened Wrappers
  import opened SExprs
  import opened Programs

  function Users(names: seq<string>): (vs: seq<Var>)
    ensures |vs| == |names|
  {
    seq(|names|, i requires 0 <= i < |names| => User(names[i]))
  }

  function UserRest(rest: Option<string>): Option<Var> {
    if rest.None? then None else Some(User(rest.value))
  }

  const EMPTY_BEGIN := CBegin([])

  function Nils(n: nat): (cs: seq<Core>)
    ensures |cs| == n
  {
    seq(n, _ => CLit(Nil))
  }

  // ---- letrec: placeholders, assignments, body ----

  function CoreSets(vars: seq<Var>, values: seq<Core>): (cs: seq<Core>)
    requires |vars| == |values|
    ensures |cs| == |vars|
  {
    seq(|vars|, i requires 0 <= i < |vars| => CSet(vars[i], values[i]))
  }

  function CoreLetrec(vars: seq<Var>, inits: seq<Core>, body: seq<Core>): Core
    requires |vars| == |inits|
  {
    CApp(CLambda(vars, None, [CBegin(CoreSets(vars, inits) + body)]), Nils(|vars|))
  }

  predicate IsLetrec(vars: seq<Var>, c: Core) {
    && c.CApp? && c.fn.CLambda? && c.fn.params == vars && c.fn.rest == None
    && |c.fn.body| == 1 && c.fn.body[0].CBegin? && |c.fn.body[0].body| >= |vars|
    && (forall i :: 0 <= i < |vars| ==> c.fn.body[0].body[i].CSet? && c.fn.body[0].body[i].variable == vars[i])
    && c.args == Nils(|vars|)
  }

  function LetrecInits(vars: seq<Var>, c: Core): (cs: seq<Core>)
    requires IsLetrec(vars, c)
    ensures |cs| == |vars|
  {
    seq(|vars|, i requires 0 <= i < |vars| => c.fn.body[0].body[i].value)
  }

  function LetrecBody(vars: seq<Var>, c: Core): seq<Core>
    requires IsLetrec(vars, c)
  {
    c.fn.body[0].body[|vars|..]
  }

  lemma CoreLetrecIsLetrec(vars: seq<Var>, inits: seq<Core>, body: seq<Core>)
    requires |vars| == |inits|
    ensures var c := CoreLetrec(vars, inits, body);
      IsLetrec(vars, c) && LetrecInits(vars, c) == inits && LetrecBody(vars, c) == body
  {
  }

  lemma LetrecIsCoreLetrec(vars: seq<Var>, c: Core)
    requires IsLetrec(vars, c)
    ensures c == CoreLetrec(vars, LetrecInits(vars, c), LetrecBody(vars, c))
  {
    var b := c.fn.body[0].body;
    assert b == CoreSets(vars, LetrecInits(vars, c)) + LetrecBody(vars, c);
    assert c.fn.body == [CBegin(b)];
  }

  // ---- or, case and do bind a temporary ----

  predicate BindsTemp(h: Hint, c: Core) {
    && c.CApp? && c.fn.CLambda? && |c.fn.params| == 1 && c.fn.params[0].Temp? && c.fn.params[0].hint == h
    && c.fn.rest == None && |c.fn.body| == 1 && |c.args| == 1
  }

  /** `(let ((t init)) (if t t rest))` */
  predicate IsOrStep(c: Core) {
    && BindsTemp(OrTemp, c) && c.fn.body[0].CIf?
    && c.fn.body[0].test == CRef(c.fn.params[0]) && c.fn.body[0].yes == CRef(c.fn.params[0])
  }

  function OrInit(c: Core): Core
    requires IsOrStep(c)
  {
    c.args[0]
  }

  function OrRest(c: Core): Core
    requires IsOrStep(c)
    ensures OrRest(c) < c
  {
    c.fn.body[0].no
  }

  function EqvCore(key: Var, datum: SExpr): Core {
    CApp(CRef(User("eqv?")), [CRef(key), CQuote(datum)])
  }

  /** The key is compared with one datum after another. */
  predicate IsKeyTest(key: Var, data: seq<SExpr>, c: Core)
    decreases |data|
  {
    data != [] &&
    if |data| == 1 then c == EqvCore(key, data[0])
    else IsOrStep(c) && OrInit(c) == EqvCore(key, data[0]) && IsKeyTest(key, data[1..], OrRest(c))
  }

  // ---- The relation ----

  ghost predicate Desugars(e: Expr, c: Core)
    decreases Size(e)
  {
    match e
    case Lit(d) => c == CLit(d)
    case Ref(n) => c == CRef(User(n))
    case QuoteOf(_, d) => c == CQuote(d)
    case Begin(body) => SequenceDesugars(body, c)
    case Lambda(params, rest, body) =>
      c.CLambda? && c.params == Users(params) && c.rest == UserRest(rest) && BlockDesugars(body, c.body)
    case Assign(n, v) => c.CSet? && c.variable == User(n) && Desugars(v, c.value)
    case App(f, args) => c.CApp? && Desugars(f, c.fn) && AllDesugar(args, c.args)
    case And(tests) => AndDesugars(tests, c)
    case Or(tests) => OrDesugars(tests, c)
    case Cond(clauses, otherwise) => (clauses != [] || otherwise.Else?) && CondDesugars(clauses, otherwise, c)
    case Case(key, choices, otherwise) =>
      BindsTemp(CaseTemp, c) && Desugars(key, c.args[0]) && CaseDesugars(c.fn.params[0], choices, otherwise, c.fn.body[0])
    case Quasi(_, t) => TmplDesugars(t, c)
    case _ => BranchDesugars(e, c) || BinderDesugars(e, c)
  }

  /** Forms that become one conditional. */
  ghost predicate BranchDesugars(e: Expr, c: Core)
    decreases Size(e), 0
  {
    match e
    case If(t, y, o) => c.CIf? && Desugars(t, c.test) && Desugars(y, c.yes) && Desugars(o, c.no)
    case OneArmed(t, y) => c.CIf? && Desugars(t, c.test) && Desugars(y, c.yes) && c.no == EMPTY_BEGIN
    case When(t, body) => c.CIf? && Desugars(t, c.test) && SequenceDesugars(body, c.yes) && c.no == EMPTY_BEGIN
    case Unless(t, body) => c.CIf? && Desugars(t, c.test) && c.yes == EMPTY_BEGIN && SequenceDesugars(body, c.no)
    case _ => false
  }

  /** Forms that bind names. */
  ghost predicate BinderDesugars(e: Expr, c: Core)
    decreases Size(e), 0
  {
    match e
    case Let(names, inits, body) => LetDesugars(names, inits, body, c)
    case LetStar(names, inits, body) => LetStarDesugars(names, inits, body, c)
    case Letrec(names, inits, body) => LetrecDesugars(names, inits, body, c)
    case LoopLet(loop, names, inits, body) =>
      && loop !in names && IsLetrec([User(loop)], c)
      && LoopDesugars(User(loop), names, inits, body, LetrecInits([User(loop)], c)[0], LetrecBody([User(loop)], c))
    case Do(names, inits, steps, _, test, exits, body) =>
      && BindsTemp(DoTemp, c) && IsLetrec(c.fn.params, c)
      && DoDesugars(c.fn.params[0], names, inits, steps, test, exits, body,
        LetrecInits(c.fn.params, c)[0], LetrecBody(c.fn.params, c))
    case _ => false
  }

  lemma BinderOf(e: Expr, c: Core)
    requires Desugars(e, c)
    requires e.Let? || e.LetStar? || e.Letrec? || e.LoopLet? || e.Do?
    ensures BinderDesugars(e, c)
  {
  }

  lemma BranchOf(e: Expr, c: Core)
    requires Desugars(e, c) && (e.If? || e.OneArmed? || e.When? || e.Unless?)
    ensures BranchDesugars(e, c)
  {
  }

  ghost predicate AllDesugar(es: seq<Expr>, cs: seq<Core>)
    decreases AllSize(es)
  {
    |es| == |cs| && (es == [] || (Desugars(es[0], cs[0]) && AllDesugar(es[1..], cs[1..])))
  }

  ghost predicate SequenceDesugars(body: seq<Expr>, c: Core)
    decreases AllSize(body) + 1
  {
    c.CBegin? && AllDesugar(body, c.body)
  }

  /** Internal definitions become one letrec around the expressions. */
  ghost predicate BlockDesugars(b: Block, cs: seq<Core>)
    decreases BlockSize(b)
  {
    if b.names == [] then AllDesugar(b.exprs, cs)
    else |cs| == 1 && LetrecDesugars(b.names, b.inits, b.exprs, cs[0])
  }

  ghost predicate LetDesugars(names: seq<string>, inits: seq<Expr>, body: Block, c: Core)
    decreases AllSize(inits) + BlockSize(body) + 1
  {
    && c.CApp? && c.fn.CLambda? && c.fn.params == Users(names) && c.fn.rest == None
    && BlockDesugars(body, c.fn.body) && AllDesugar(inits, c.args)
  }

  ghost predicate LetrecDesugars(names: seq<string>, inits: seq<Expr>, body: seq<Expr>, c: Core)
    decreases AllSize(inits) + AllSize(body) + 1
  {
    && IsLetrec(Users(names), c) && Distinct(names) && body != []
    && AllDesugar(inits, LetrecInits(Users(names), c)) && AllDesugar(body, LetrecBody(Users(names), c))
  }

  /** A named let: its procedure, and the call that starts it. */
  ghost predicate LoopDesugars(loop: Var, names: seq<string>, inits: seq<Expr>, body: Block, lam: Core, start: seq<Core>)
    decreases AllSize(inits) + BlockSize(body) + 1
  {
    && lam.CLambda? && lam.params == Users(names) && lam.rest == None && BlockDesugars(body, lam.body)
    && |start| == 1 && start[0].CApp? && start[0].fn == CRef(loop) && AllDesugar(inits, start[0].args)
  }

  ghost predicate LetStarDesugars(names: seq<string>, inits: seq<Expr>, body: Block, c: Core)
    decreases AllSize(inits) + BlockSize(body) + 2
  {
    if names == [] || inits == [] then LetDesugars([], [], body, c)
    else
      && c.CApp? && c.fn.CLambda? && c.fn.params == [User(names[0])] && c.fn.rest == None
      && |c.fn.body| == 1 && LetStarDesugars(names[1..], inits[1..], body, c.fn.body[0])
      && |c.args| == 1 && Desugars(inits[0], c.args[0])
  }

  ghost predicate AndDesugars(es: seq<Expr>, c: Core)
    decreases AllSize(es)
  {
    if es == [] then c == CLit(Bool(true))
    else if |es| == 1 then Desugars(es[0], c)
    else c.CIf? && Desugars(es[0], c.test) && AndDesugars(es[1..], c.yes) && c.no == CLit(Bool(false))
  }

  ghost predicate OrDesugars(es: seq<Expr>, c: Core)
    decreases AllSize(es)
  {
    if es == [] then c == CLit(Bool(false))
    else if |es| == 1 then Desugars(es[0], c)
    else IsOrStep(c) && Desugars(es[0], OrInit(c)) && OrDesugars(es[1..], OrRest(c))
  }

  ghost predicate OtherwiseDesugars(o: Otherwise, c: Core)
    decreases OtherwiseSize(o)
  {
    match o
    case NoElse => c == EMPTY_BEGIN
    case Else(body) => body != [] && SequenceDesugars(body, c)
  }

  ghost predicate ClauseDesugars(cl: Clause, c: Core)
    decreases ClauseSize(cl)
  {
    c.CIf? && Desugars(cl.test, c.test) && SequenceDesugars(cl.body, c.yes)
  }

  ghost predicate CondDesugars(cls: seq<Clause>, o: Otherwise, c: Core)
    decreases ClausesSize(cls) + OtherwiseSize(o) + 1
  {
    if cls == [] then OtherwiseDesugars(o, c)
    else ClauseDesugars(cls[0], c) && CondDesugars(cls[1..], o, c.no)
  }

  ghost predicate ChoiceDesugars(key: Var, ch: Choice, c: Core)
    decreases ChoiceSize(ch)
  {
    c.CIf? && IsKeyTest(key, ch.data, c.test) && SequenceDesugars(ch.body, c.yes)
  }

  ghost predicate CaseDesugars(key: Var, chs: seq<Choice>, o: Otherwise, c: Core)
    decreases ChoicesSize(chs) + OtherwiseSize(o) + 1
  {
    if chs == [] then OtherwiseDesugars(o, c)
    else ChoiceDesugars(key, chs[0], c) && CaseDesugars(key, chs[1..], o, c.no)
  }

  /** The loop procedure of a `do`, and the call that starts it. */
  ghost predicate DoDesugars(
    loop: Var, names: seq<string>, inits: seq<Expr>, steps: seq<Expr>, test: Expr, exits: seq<Expr>, body: seq<Expr>,
    lam: Core, start: seq<Core>)
    decreases AllSize(inits) + AllSize(steps) + Size(test) + AllSize(exits) + AllSize(body) + 6
  {
    ProcedureDesugars(loop, names, steps, test, exits, body, lam) && |start| == 1 && CallDesugars(loop, inits, start[0])
  }

  ghost predicate ProcedureDesugars(
    loop: Var, names: seq<string>, steps: seq<Expr>, test: Expr, exits: seq<Expr>, body: seq<Expr>, lam: Core)
    decreases AllSize(steps) + Size(test) + AllSize(exits) + AllSize(body) + 5
  {
    && lam.CLambda? && lam.params == Users(names) && lam.rest == None && |lam.body| == 1 && lam.body[0].CIf?
    && Desugars(test, lam.body[0].test) && SequenceDesugars(exits, lam.body[0].yes)
    && lam.body[0].no.CBegin? && DoIterates(loop, steps, body, lam.body[0].no.body)
  }

  /** A call of the loop procedure. */
  ghost predicate CallDesugars(loop: Var, args: seq<Expr>, c: Core)
    decreases AllSize(args) + 1
  {
    c.CApp? && c.fn == CRef(loop) && AllDesugar(args, c.args)
  }

  ghost predicate DoIterates(loop: Var, steps: seq<Expr>, body: seq<Expr>, cs: seq<Core>)
    decreases AllSize(steps) + AllSize(body) + 2
  {
    |cs| == |body| + 1 && AllDesugar(body, cs[..|body|]) && CallDesugars(loop, steps, cs[|body|])
  }

  predicate IsCall(name: string, args: nat, c: Core) {
    c.CApp? && c.fn == CRef(User(name)) && |c.args| == args
  }

  ghost predicate TmplDesugars(t: Tmpl, c: Core)
    decreases TmplSize(t)
  {
    match t
    case Constant(d) => c == CQuote(d)
    case Unquoted(_, e) => Desugars(e, c)
    case Listed(elems, None) => ElemsDesugar(elems, CQuote(Proper([])), c)
    case Listed(elems, Some(tail)) => exists r :: TmplDesugars(tail, r) && ElemsDesugar(elems, r, c)
    case Vectored(elems) => IsCall("list->vector", 1, c) && ElemsDesugar(elems, CQuote(Proper([])), c.args[0])
  }

  /** One element, consed or appended onto what follows it. */
  ghost predicate ElemDesugars(x: Elem, c: Core)
    decreases ElemSize(x)
  {
    match x
    case One(t) => IsCall("cons", 2, c) && TmplDesugars(t, c.args[0])
    case Splice(_, e) => IsCall("append", 2, c) && Desugars(e, c.args[0])
  }

  ghost predicate ElemsDesugar(xs: seq<Elem>, rest: Core, c: Core)
    decreases ElemsSize(xs)
  {
    if xs == [] then c == rest
    else ElemDesugars(xs[0], c) && ElemsDesugar(xs[1..], rest, c.args[1])
  }
}
