/**
 The datum grammar, twice: as a function from tokens to syntax trees, which the parser methods
 implement (eta/core/src/eta/reader/parser.cpp), and as concrete syntax trees with the tokens
 that spell them.
 */
module Datums {
  import opened Wrappers
  import opened SExprs
  import opened Numerals

  datatype Literal = FixnumText(text: string, radix: Radix) | FlonumText(text: string)

  /** `Eof` stands for the end of the stream and `Bad` for a lexer error. */
  datatype Token =
    | LParen | RParen | LBracket | RBracket
    | QuoteMark | Backtick | Comma | CommaAt
    | BoolToken(value: bool)
    | CharToken(code: nat)
    | StringToken(text: string)
    | SymbolToken(name: string)
    | NumberToken(literal: Literal)
    | Dot | VectorStart | ByteVectorStart
    | Eof | Bad

  datatype ParseError =
    | FromLexer | UnexpectedEOF | UnexpectedClosingDelimiter
    | UnclosedList | MisplacedDot | MultipleDotsInDottedList | DotAtListStart
    | UnclosedVector | DotInVector | ByteVectorNonInteger | InvalidByteLiteral
    | InvalidNumericLiteral | UnquoteOutsideQuasiquote

  /** The strictness switch, and which texts the floating-point conversion takes. */
  datatype Rules = Rules(strict: bool, isReal: string -> bool)

  datatype Parsed<T> = Parsed(value: T, rest: seq<Token>)

  function Head(ts: seq<Token>): Token {
    if ts == [] then Eof else ts[0]
  }

  predicate IsAtom(t: Token) {
    t.BoolToken? || t.CharToken? || t.StringToken? || t.SymbolToken? || t.NumberToken?
  }

  function KindOf(t: Token): Option<QuoteKind> {
    match t
    case QuoteMark => Some(Quote)
    case Backtick => Some(Quasiquote)
    case Comma => Some(Unquote)
    case CommaAt => Some(UnquoteSplicing)
    case _ => None
  }

  function RealOf(isReal: string -> bool, text: string): Result<SExpr, ParseError> {
    if isReal(text) then Ok(Num(Flonum(text))) else Err(InvalidNumericLiteral)
  }

  /** A decimal integer out of the 64-bit range falls back to floating point; other radices do not. */
  function NumberOf(isReal: string -> bool, n: Literal): Result<SExpr, ParseError> {
    match n
    case FlonumText(text) => RealOf(isReal, text)
    case FixnumText(text, radix) =>
      match ReadFixnum(text, radix.Base())
      case Some(v) => Ok(Num(Fixnum(v)))
      case None => if radix.Ten? then RealOf(isReal, text) else Err(InvalidNumericLiteral)
  }

  function AtomOf(isReal: string -> bool, t: Token): Result<SExpr, ParseError>
    requires IsAtom(t)
  {
    match t
    case BoolToken(b) => Ok(Bool(b))
    case CharToken(c) => Ok(Char(c))
    case StringToken(s) => Ok(Str(s))
    case SymbolToken(n) => Ok(if n == "Nil" then Nil else Sym(n))
    case NumberToken(n) => NumberOf(isReal, n)
  }

  // ---- From tokens to syntax trees ----

  /** One datum; `depth` counts the enclosing quasiquotes. */
  function Datum(ru: Rules, ts: seq<Token>, depth: nat): (r: Result<Parsed<SExpr>, ParseError>)
    ensures r.Ok? ==> |r.value.rest| < |ts|
    decreases |ts|, 0
  {
    var t := Head(ts);
    if t.LParen? then Items(ru, ts[1..], depth, RParen, [], None)
    else if t.LBracket? then Items(ru, ts[1..], depth, RBracket, [], None)
    else if t.VectorStart? then VectorItems(ru, ts[1..], depth, [])
    else if t.ByteVectorStart? then ByteItems(ts[1..], [])
    else if KindOf(t).Some? then Abbreviated(ru, ts[1..], depth, KindOf(t).value)
    else if IsAtom(t) then
      match AtomOf(ru.isReal, t)
      case Ok(x) => Ok(Parsed(x, ts[1..]))
      case Err(e) => Err(e)
    else Err(NoDatum(t))
  }

  /** Why no datum starts with this token. */
  function NoDatum(t: Token): ParseError {
    match t
    case Bad => FromLexer
    case Eof => UnexpectedEOF
    case Dot => MisplacedDot
    case _ => UnexpectedClosingDelimiter
  }

  function Abbreviated(ru: Rules, ts: seq<Token>, depth: nat, kind: QuoteKind): (r: Result<Parsed<SExpr>, ParseError>)
    ensures r.Ok? ==> |r.value.rest| < |ts|
    decreases |ts|, 1
  {
    if ru.strict && (kind.Unquote? || kind.UnquoteSplicing?) && depth == 0 then Err(UnquoteOutsideQuasiquote)
    else
      match Datum(ru, ts, if kind.Quasiquote? then depth + 1 else depth)
      case Ok(p) => Ok(Parsed(Reader(kind, p.value), p.rest))
      case Err(e) => Err(e)
  }

  /** The rest of a list whose elements so far, and dotted tail if it was met, are given. */
  function Items(ru: Rules, ts: seq<Token>, depth: nat, close: Token, elems: seq<SExpr>, tail: Option<SExpr>)
    : (r: Result<Parsed<SExpr>, ParseError>)
    ensures r.Ok? ==> |r.value.rest| < |ts|
    decreases |ts|, 1
  {
    var t := Head(ts);
    if t == Bad then Err(FromLexer)
    else if t == Eof then Err(UnclosedList)
    else if t == close then Ok(Parsed(List(elems, tail), ts[1..]))
    else if t == RParen || t == RBracket then Err(UnclosedList)
    else if t == Dot then
      if tail.Some? then Err(MultipleDotsInDottedList)
      else if elems == [] then Err(DotAtListStart)
      else
        match Datum(ru, ts[1..], depth)
        case Ok(p) => Items(ru, p.rest, depth, close, elems, Some(p.value))
        case Err(e) => Err(e)
    else
      match Datum(ru, ts, depth)
      case Ok(p) => if tail.Some? then Err(MisplacedDot) else Items(ru, p.rest, depth, close, elems + [p.value], tail)
      case Err(e) => Err(e)
  }

  function VectorItems(ru: Rules, ts: seq<Token>, depth: nat, items: seq<SExpr>): (r: Result<Parsed<SExpr>, ParseError>)
    ensures r.Ok? ==> |r.value.rest| < |ts|
    decreases |ts|, 1
  {
    match Head(ts)
    case Bad => Err(FromLexer)
    case Eof => Err(UnclosedVector)
    case RParen => Ok(Parsed(Vector(items), ts[1..]))
    case Dot => Err(DotInVector)
    case _ =>
      match Datum(ru, ts, depth)
      case Ok(p) => VectorItems(ru, p.rest, depth, items + [p.value])
      case Err(e) => Err(e)
  }

  function ByteOfToken(t: Token): Result<nat, ParseError> {
    if !t.NumberToken? then Err(ByteVectorNonInteger)
    else if t.literal.FlonumText? then Err(InvalidByteLiteral)
    else
      match ByteOf(t.literal.text, t.literal.radix)
      case Some(b) => Ok(b)
      case None => Err(InvalidByteLiteral)
  }

  function ByteItems(ts: seq<Token>, bytes: seq<nat>): (r: Result<Parsed<SExpr>, ParseError>)
    ensures r.Ok? ==> |r.value.rest| < |ts|
    decreases |ts|
  {
    match Head(ts)
    case Bad => Err(FromLexer)
    case Eof => Err(UnclosedVector)
    case RParen => Ok(Parsed(Bytes(bytes), ts[1..]))
    case t =>
      match ByteOfToken(t)
      case Ok(b) => ByteItems(ts[1..], bytes + [b])
      case Err(e) => Err(e)
  }

  // ---- Concrete syntax ----

  datatype Cst =
    | Atom(token: Token)
    | ListOf(square: bool, elems: seq<Cst>, tail: Option<Cst>)
    | VectorOf(items: seq<Cst>)
    | BytesOf(tokens: seq<Token>)
    | Abbreviation(kind: QuoteKind, of: Cst)

  function Mark(kind: QuoteKind): Token {
    match kind
    case Quote => QuoteMark
    case Quasiquote => Backtick
    case Unquote => Comma
    case UnquoteSplicing => CommaAt
  }

  function Opener(square: bool): Token {
    if square then LBracket else LParen
  }

  function Closer(square: bool): Token {
    if square then RBracket else RParen
  }

  /** The tokens of a concrete tree. */
  function Unparse(c: Cst): seq<Token> {
    match c
    case Atom(t) => [t]
    case ListOf(square, elems, None) => [Opener(square)] + (UnparseAll(elems) + [Closer(square)])
    case ListOf(square, elems, Some(tail)) =>
      [Opener(square)] + (UnparseAll(elems) + ([Dot] + (Unparse(tail) + [Closer(square)])))
    case VectorOf(items) => [VectorStart] + (UnparseAll(items) + [RParen])
    case BytesOf(tokens) => [ByteVectorStart] + (tokens + [RParen])
    case Abbreviation(kind, of) => [Mark(kind)] + Unparse(of)
  }

  function UnparseAll(cs: seq<Cst>): seq<Token> {
    if cs == [] then [] else Unparse(cs[0]) + UnparseAll(cs[1..])
  }

  /** What may stand in a program: readable atoms, byte literals in byte vectors, no bare dot. */
  ghost predicate WellFormed(isReal: string -> bool, c: Cst) {
    match c
    case Atom(t) => IsAtom(t) && AtomOf(isReal, t).Ok?
    case ListOf(_, elems, tail) =>
      && (forall i :: 0 <= i < |elems| ==> WellFormed(isReal, elems[i]))
      && (tail.Some? ==> elems != [] && WellFormed(isReal, tail.value))
    case VectorOf(items) => forall i :: 0 <= i < |items| ==> WellFormed(isReal, items[i])
    case BytesOf(tokens) => AllBytes(tokens)
    case Abbreviation(_, of) => WellFormed(isReal, of)
  }

  /** The datum a concrete tree stands for. */
  function Denote(isReal: string -> bool, c: Cst): SExpr
    requires WellFormed(isReal, c)
  {
    match c
    case Atom(t) => AtomOf(isReal, t).value
    case ListOf(_, elems, tail) =>
      List(DenoteAll(isReal, elems), if tail.None? then None else Some(Denote(isReal, tail.value)))
    case VectorOf(items) => Vector(DenoteAll(isReal, items))
    case BytesOf(tokens) => Bytes(ByteValues(tokens))
    case Abbreviation(kind, of) => Reader(kind, Denote(isReal, of))
  }

  function DenoteAll(isReal: string -> bool, cs: seq<Cst>): seq<SExpr>
    requires forall i :: 0 <= i < |cs| ==> WellFormed(isReal, cs[i])
  {
    if cs == [] then [] else [Denote(isReal, cs[0])] + DenoteAll(isReal, cs[1..])
  }

  ghost predicate AllBytes(tokens: seq<Token>) {
    forall i :: 0 <= i < |tokens| ==> ByteOfToken(tokens[i]).Ok?
  }

  function ByteValues(tokens: seq<Token>): seq<nat>
    requires AllBytes(tokens)
  {
    if tokens == [] then [] else [ByteOfToken(tokens[0]).value] + ByteValues(tokens[1..])
  }

  /** Some unquote is met on a way down that passes no quasiquote. */
  ghost predicate HasBareUnquote(x: SExpr) {
    match x
    case Reader(Quasiquote, _) => false
    case Reader(Quote, e) => HasBareUnquote(e)
    case Reader(_, _) => true
    case List(elems, tail) =>
      (exists i :: 0 <= i < |elems| && HasBareUnquote(elems[i])) || (tail.Some? && HasBareUnquote(tail.value))
    case Vector(items) => exists i :: 0 <= i < |items| && HasBareUnquote(items[i])
    case _ => false
  }

  /** What the rules ask of a datum read at a quasiquote depth. */
  ghost predicate Permitted(ru: Rules, depth: nat, x: SExpr) {
    ru.strict && depth == 0 ==> !HasBareUnquote(x)
  }

  ghost predicate AllPermitted(ru: Rules, depth: nat, xs: seq<SExpr>) {
    forall i :: 0 <= i < |xs| ==> Permitted(ru, depth, xs[i])
  }
}
