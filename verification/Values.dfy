/** Values of Scheme programs, over any representation of procedures. */
module Values {
  import opened Wrappers
  import opened SExprs

  datatype Value<F> =
    | VNil
    | VBool(b: bool)
    | VNum(number: Number)
    | VChar(code: nat)
    | VStr(text: string)
    | VSym(name: string)
    | VBytes(bytes: seq<nat>)
    | VPair(car: Value<F>, cdr: Value<F>)
    | VVector(items: seq<Value<F>>)
    | VVoid
    | VPrim(prim: string)
    | VProc(proc: F)

  /**
   What evaluation comes to. `Outside` marks programs that R7RS gives no meaning or that need
   object identity: a `letrec` variable used before its initialisation, `eqv?` on two procedures,
   pairs, vectors or strings, a rebound `eqv?`, `cons`, `append` or `list->vector` under `case`
   or quasiquote.
   */
  datatype Outcome<+T, +S> = Val(value: T, state: S) | Failed | OutOfFuel | Outside

  /** The numeric primitives, whatever they are: numbers in, a number or a boolean out. */
  datatype Numerics = Numerics(names: set<string>, apply: (string, seq<Number>) -> Option<SExpr>)

  predicate IsTrue<F>(v: Value<F>) {
    !(v.VBool? && !v.b)
  }

  /** The value of a quoted datum. */
  function FromDatum<F>(d: SExpr): Value<F> {
    match d
    case Nil => VNil
    case Bool(b) => VBool(b)
    case Char(c) => VChar(c)
    case Str(s) => VStr(s)
    case Sym(n) => VSym(n)
    case Num(x) => VNum(x)
    case Bytes(bs) => VBytes(bs)
    case Vector(items) => VVector(FromData(items))
    case List(elems, None) => FromList(FromData(elems), VNil)
    case List(elems, Some(tail)) => FromList(FromData(elems), FromDatum(tail))
    case Reader(kind, x) => FromList([VSym(KindName(kind)), FromDatum(x)], VNil)
  }

  function FromData<F>(ds: seq<SExpr>): seq<Value<F>> {
    if ds == [] then [] else [FromDatum(ds[0])] + FromData(ds[1..])
  }

  function KindName(kind: QuoteKind): string {
    match kind
    case Quote => "quote"
    case Quasiquote => "quasiquote"
    case Unquote => "unquote"
    case UnquoteSplicing => "unquote-splicing"
  }

  function FromList<F>(vs: seq<Value<F>>, tail: Value<F>): Value<F> {
    if vs == [] then tail else VPair(vs[0], FromList(vs[1..], tail))
  }

  // ---- Primitives ----

  datatype PrimResult<F> = Returns(value: Value<F>) | Fails | NoMeaning

  predicate IsPrimitive(nm: Numerics, name: string) {
    name in {"cons", "car", "cdr", "null?", "pair?", "not", "eqv?", "append", "list->vector"} || name in nm.names
  }

  /** `eqv?`: None where the answer depends on object identity or on floating-point conversion. */
  function Eqv<F>(a: Value<F>, b: Value<F>): Option<bool> {
    match (a, b)
    case (VNil, VNil) => Some(true)
    case (VBool(x), VBool(y)) => Some(x == y)
    case (VNum(Fixnum(x)), VNum(Fixnum(y))) => Some(x == y)
    case (VNum(Flonum(x)), VNum(Flonum(y))) => if x == y then Some(true) else None
    case (VChar(x), VChar(y)) => Some(x == y)
    case (VSym(x), VSym(y)) => Some(x == y)
    case (VVoid, VVoid) => Some(true)
    case (VPrim(x), VPrim(y)) => Some(x == y)
    case (VPair(_, _), VPair(_, _)) => None
    case (VVector(_), VVector(_)) => None
    case (VStr(_), VStr(_)) => None
    case (VBytes(_), VBytes(_)) => None
    case (VProc(_), VProc(_)) => None
    case _ => Some(false)
  }

  /** Concatenation; the second argument may be anything. */
  function Append<F>(a: Value<F>, b: Value<F>): Option<Value<F>> {
    match a
    case VNil => Some(b)
    case VPair(x, rest) =>
      (match Append(rest, b)
       case None => None
       case Some(v) => Some(VPair(x, v)))
    case _ => None
  }

  function ListItems<F>(v: Value<F>): Option<seq<Value<F>>> {
    match v
    case VNil => Some([])
    case VPair(x, rest) =>
      (match ListItems(rest)
       case None => None
       case Some(vs) => Some([x] + vs))
    case _ => None
  }

  function Numbers<F>(vs: seq<Value<F>>): Option<seq<Number>> {
    if vs == [] then Some([])
    else if !vs[0].VNum? then None
    else
      match Numbers(vs[1..])
      case None => None
      case Some(ns) => Some([vs[0].number] + ns)
  }

  function ApplyPrimitive<F>(nm: Numerics, name: string, vs: seq<Value<F>>): PrimResult<F> {
    if name == "cons" then if |vs| == 2 then Returns(VPair(vs[0], vs[1])) else Fails
    else if name == "car" then if |vs| == 1 && vs[0].VPair? then Returns(vs[0].car) else Fails
    else if name == "cdr" then if |vs| == 1 && vs[0].VPair? then Returns(vs[0].cdr) else Fails
    else if name == "null?" then if |vs| == 1 then Returns(VBool(vs[0].VNil?)) else Fails
    else if name == "pair?" then if |vs| == 1 then Returns(VBool(vs[0].VPair?)) else Fails
    else if name == "not" then if |vs| == 1 then Returns(VBool(!IsTrue(vs[0]))) else Fails
    else if name == "eqv?" then
      if |vs| != 2 then Fails
      else
        match Eqv(vs[0], vs[1])
        case None => NoMeaning
        case Some(b) => Returns(VBool(b))
    else if name == "append" then
      if |vs| != 2 then Fails
      else
        match Append(vs[0], vs[1])
        case None => Fails
        case Some(v) => Returns(v)
    else if name == "list->vector" then
      if |vs| != 1 then Fails
      else
        match ListItems(vs[0])
        case None => Fails
        case Some(items) => Returns(VVector(items))
    else
      match Numbers(vs)
      case None => Fails
      case Some(ns) =>
        match nm.apply(name, ns)
        case None => Fails
        case Some(d) => Returns(FromDatum(d))
  }
}
