/** The reader's syntax tree (eta/core/src/eta/reader/parser.h), without spans. */
module SExprs {
  import opened Wrappers

  datatype QuoteKind = Quote | Quasiquote | Unquote | UnquoteSplicing

  /** A number literal: a 64-bit integer, or the text handed to the floating-point conversion. */
  datatype Number = Fixnum(value: int) | Flonum(text: string)

  datatype SExpr =
    | Nil
    | Bool(value: bool)
    | Char(code: nat)
    | Str(text: string)
    | Sym(name: string)
    | Num(number: Number)
    | List(elems: seq<SExpr>, tail: Option<SExpr>)
    | Vector(items: seq<SExpr>)
    | Bytes(bytes: seq<nat>)
    | Reader(kind: QuoteKind, expr: SExpr)

  /** A proper list; the reader's `dotted` flag is `tail.Some?`. */
  function Proper(elems: seq<SExpr>): SExpr {
    List(elems, None)
  }

  predicate IsSymbolNamed(x: SExpr, name: string) {
    x.Sym? && x.name == name
  }
}
