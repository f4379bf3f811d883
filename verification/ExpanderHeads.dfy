/** Which handler each form goes to. */
module ExpanderHeads {
  import opened Wrappers
  import opened SExprs
  import opened Expanders

  lemma FormIsSpecial(session: string, head: string, rest: seq<SExpr>, d: nat, n: nat)
    requires IsSpecial(head) && d > 0
    ensures ExpandForm(session, Form(head, rest), d, n) == Special(session, head, [Sym(head)] + rest, d - 1, n)
  {
    hide Special;
  }

  lemma FormTooDeep(session: string, x: SExpr, n: nat)
    ensures ExpandForm(session, x, 0, n) == Err(ExpansionDepthExceeded)
  {
  }

  /** A list whose first element is no special head is an application. */
  lemma FormIsApplication(session: string, xs: seq<SExpr>, d: nat, n: nat)
    requires xs != [] && (xs[0].Sym? ==> !IsSpecial(xs[0].name)) && d > 0
    ensures ExpandForm(session, Proper(xs), d, n) ==
      match ExpandAll(session, xs, d - 1, n)
      case Err(e) => Err(e)
      case Ok(ys) => Ok(Expanded(Proper(ys.value), ys.counter))
  {
    hide ExpandAll, Special;
  }

  lemma IfForm(session: string, rest: seq<SExpr>, d: nat, n: nat)
    requires d > 0
    ensures var xs := [Sym("if")] + rest;
      ExpandForm(session, Form("if", rest), d, n) == HandleIf(session, xs, d - 1, n)
  {
    hide ExpandForm, HandleIf;
    FormIsSpecial(session, "if", rest, d, n);
  }

  lemma BeginForm(session: string, rest: seq<SExpr>, d: nat, n: nat)
    requires d > 0
    ensures var xs := [Sym("begin")] + rest;
      ExpandForm(session, Form("begin", rest), d, n) == HandleBegin(session, xs, d - 1, n)
  {
    hide ExpandForm, HandleBegin;
    FormIsSpecial(session, "begin", rest, d, n);
  }

  lemma LambdaForm(session: string, rest: seq<SExpr>, d: nat, n: nat)
    requires d > 0
    ensures var xs := [Sym("lambda")] + rest;
      ExpandForm(session, Form("lambda", rest), d, n) == HandleLambda(session, xs, d - 1, n)
  {
    hide ExpandForm, HandleLambda;
    FormIsSpecial(session, "lambda", rest, d, n);
  }

  lemma SetForm(session: string, rest: seq<SExpr>, d: nat, n: nat)
    requires d > 0
    ensures var xs := [Sym("set!")] + rest;
      ExpandForm(session, Form("set!", rest), d, n) == HandleSet(session, xs, d - 1, n)
  {
    hide ExpandForm, HandleSet;
    FormIsSpecial(session, "set!", rest, d, n);
  }

  lemma QuoteForm(session: string, rest: seq<SExpr>, d: nat, n: nat)
    requires d > 0
    ensures var xs := [Sym("quote")] + rest;
      ExpandForm(session, Form("quote", rest), d, n) == HandleQuoteLike(session, "quote", xs, d - 1, n)
  {
    hide ExpandForm, HandleQuoteLike;
    FormIsSpecial(session, "quote", rest, d, n);
  }

  lemma QuasiquoteForm(session: string, rest: seq<SExpr>, d: nat, n: nat)
    requires d > 0
    ensures var xs := [Sym("quasiquote")] + rest;
      ExpandForm(session, Form("quasiquote", rest), d, n) == HandleQuoteLike(session, "quasiquote", xs, d - 1, n)
  {
    hide ExpandForm, HandleQuoteLike;
    FormIsSpecial(session, "quasiquote", rest, d, n);
  }

  lemma LetForm(session: string, rest: seq<SExpr>, d: nat, n: nat)
    requires d > 0
    ensures var xs := [Sym("let")] + rest;
      ExpandForm(session, Form("let", rest), d, n) == HandleLet(session, xs, d - 1, n)
  {
    hide ExpandForm, HandleLet;
    FormIsSpecial(session, "let", rest, d, n);
  }

  lemma LetStarForm(session: string, rest: seq<SExpr>, d: nat, n: nat)
    requires d > 0
    ensures var xs := [Sym("let*")] + rest;
      ExpandForm(session, Form("let*", rest), d, n) == HandleLetStar(session, xs, d - 1, n)
  {
    hide ExpandForm, HandleLetStar;
    FormIsSpecial(session, "let*", rest, d, n);
  }

  lemma LetrecForm(session: string, rest: seq<SExpr>, d: nat, n: nat)
    requires d > 0
    ensures var xs := [Sym("letrec")] + rest;
      ExpandForm(session, Form("letrec", rest), d, n) == HandleLetrec(session, xs, d - 1, n)
  {
    hide ExpandForm, HandleLetrec;
    FormIsSpecial(session, "letrec", rest, d, n);
  }

  lemma CondForm(session: string, rest: seq<SExpr>, d: nat, n: nat)
    requires d > 0
    ensures var xs := [Sym("cond")] + rest;
      ExpandForm(session, Form("cond", rest), d, n) == HandleCond(session, xs, d - 1, n)
  {
    hide ExpandForm, HandleCond;
    FormIsSpecial(session, "cond", rest, d, n);
  }

  lemma CaseForm(session: string, rest: seq<SExpr>, d: nat, n: nat)
    requires d > 0
    ensures var xs := [Sym("case")] + rest;
      ExpandForm(session, Form("case", rest), d, n) == HandleCase(session, xs, d - 1, n)
  {
    hide ExpandForm, HandleCase;
    FormIsSpecial(session, "case", rest, d, n);
  }

  lemma AndForm(session: string, rest: seq<SExpr>, d: nat, n: nat)
    requires d > 0
    ensures var xs := [Sym("and")] + rest;
      ExpandForm(session, Form("and", rest), d, n) == HandleAnd(session, xs[1..], d - 1, n)
  {
    hide ExpandForm, HandleAnd;
    FormIsSpecial(session, "and", rest, d, n);
  }

  lemma OrForm(session: string, rest: seq<SExpr>, d: nat, n: nat)
    requires d > 0
    ensures var xs := [Sym("or")] + rest;
      ExpandForm(session, Form("or", rest), d, n) == HandleOr(session, xs[1..], d - 1, n)
  {
    hide ExpandForm, HandleOr;
    FormIsSpecial(session, "or", rest, d, n);
  }

  lemma WhenForm(session: string, rest: seq<SExpr>, d: nat, n: nat)
    requires d > 0
    ensures var xs := [Sym("when")] + rest;
      ExpandForm(session, Form("when", rest), d, n) == HandleWhen(session, true, xs, d - 1, n)
  {
    hide ExpandForm, HandleWhen;
    FormIsSpecial(session, "when", rest, d, n);
  }

  lemma UnlessForm(session: string, rest: seq<SExpr>, d: nat, n: nat)
    requires d > 0
    ensures var xs := [Sym("unless")] + rest;
      ExpandForm(session, Form("unless", rest), d, n) == HandleWhen(session, false, xs, d - 1, n)
  {
    hide ExpandForm, HandleWhen;
    FormIsSpecial(session, "unless", rest, d, n);
  }

  lemma DoForm(session: string, rest: seq<SExpr>, d: nat, n: nat)
    requires d > 0
    ensures var xs := [Sym("do")] + rest;
      ExpandForm(session, Form("do", rest), d, n) == HandleDo(session, xs, d - 1, n)
  {
    hide ExpandForm, HandleDo;
    FormIsSpecial(session, "do", rest, d, n);
  }
}
