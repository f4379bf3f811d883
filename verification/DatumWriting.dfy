/**
 Reading from the datum's side: every readable datum has tokens, given by a function on data alone,
 that read as that datum; whatever is read is readable; and every way a list, a vector or a byte
 vector can go wrong has its own error (eta/core/src/eta/reader/parser.cpp).
 */
module DatumWriting {
  import opened Wrappers
  import opened SExprs
  import opened Numerals
  import opened Datums
  import opened DatumGrammar

  /** Round or square brackets, for each list. */
  type Brackets = SExpr -> bool

  // ---- The tokens of a datum ----

  /** Data that some tokens spell. A list with a tail has elements; the name `Nil` spells the empty value. */
  predicate Readable(isReal: string -> bool, x: SExpr) {
    match x
    case Sym(name) => name != "Nil"
    case Num(Fixnum(v)) => -0x8000_0000_0000_0000 <= v < 0x8000_0000_0000_0000
    case Num(Flonum(text)) => isReal(text)
    case List(elems, tail) =>
      AllReadable(isReal, elems) && (tail.Some? ==> elems != [] && Readable(isReal, tail.value))
    case Vector(items) => AllReadable(isReal, items)
    case Bytes(bytes) => forall i :: 0 <= i < |bytes| ==> bytes[i] < 256
    case Reader(_, e) => Readable(isReal, e)
    case _ => true
  }

  predicate AllReadable(isReal: string -> bool, xs: seq<SExpr>) {
    forall i :: 0 <= i < |xs| ==> Readable(isReal, xs[i])
  }

  function Written(x: SExpr, square: Brackets): seq<Token> {
    match x
    case Nil => [SymbolToken("Nil")]
    case Bool(b) => [BoolToken(b)]
    case Char(c) => [CharToken(c)]
    case Str(s) => [StringToken(s)]
    case Sym(name) => [SymbolToken(name)]
    case Num(Fixnum(v)) => [NumberToken(FixnumText(if v < 0 then "-" + Decimal(-v) else Decimal(v), Ten))]
    case Num(Flonum(text)) => [NumberToken(FlonumText(text))]
    case List(elems, tail) =>
      [if square(x) then LBracket else LParen] + AllWritten(elems, square)
        + (match tail case None => [] case Some(t) => [Dot] + Written(t, square))
        + [if square(x) then RBracket else RParen]
    case Vector(items) => [VectorStart] + AllWritten(items, square) + [RParen]
    case Bytes(bytes) => [ByteVectorStart] + BytesWritten(bytes) + [RParen]
    case Reader(Quote, e) => [QuoteMark] + Written(e, square)
    case Reader(Quasiquote, e) => [Backtick] + Written(e, square)
    case Reader(Unquote, e) => [Comma] + Written(e, square)
    case Reader(UnquoteSplicing, e) => [CommaAt] + Written(e, square)
  }

  function AllWritten(xs: seq<SExpr>, square: Brackets): seq<Token> {
    if xs == [] then [] else Written(xs[0], square) + AllWritten(xs[1..], square)
  }

  function BytesWritten(bytes: seq<nat>): seq<Token> {
    if bytes == [] then [] else [NumberToken(FixnumText(Decimal(bytes[0]), Ten))] + BytesWritten(bytes[1..])
  }

  // ---- The concrete tree of a datum ----

  function TreeOf(x: SExpr, square: Brackets): Cst {
    match x
    case List(elems, tail) =>
      ListOf(square(x), TreesOf(elems, square), match tail case None => None case Some(t) => Some(TreeOf(t, square)))
    case Vector(items) => VectorOf(TreesOf(items, square))
    case Bytes(bytes) => BytesOf(BytesWritten(bytes))
    case Reader(kind, e) => Abbreviation(kind, TreeOf(e, square))
    case _ => Atom(Written(x, square)[0])
  }

  function TreesOf(xs: seq<SExpr>, square: Brackets): (cs: seq<Cst>)
    ensures |cs| == |xs|
  {
    if xs == [] then [] else [TreeOf(xs[0], square)] + TreesOf(xs[1..], square)
  }

  /** The tree stands for the datum and is spelled by the datum's tokens. */
  ghost predicate IsTree(isReal: string -> bool, x: SExpr, c: Cst, ts: seq<Token>) {
    WellFormed(isReal, c) && Denote(isReal, c) == x && Unparse(c) == ts
  }

  ghost predicate AreTrees(isReal: string -> bool, xs: seq<SExpr>, cs: seq<Cst>, ts: seq<Token>) {
    AllWellFormed(isReal, cs) && DenoteAll(isReal, cs) == xs && UnparseAll(cs) == ts
  }

  lemma {:induction false} TreeSpells(isReal: string -> bool, x: SExpr, square: Brackets)
    requires Readable(isReal, x)
    ensures IsTree(isReal, x, TreeOf(x, square), Written(x, square))
    decreases x, 0
  {
    hide IsTree, AreTrees;
    match x {
      case List(elems, tail) =>
        TreesSpell(isReal, elems, square);
        if tail.Some? {
          TreeSpells(isReal, tail.value, square);
          DottedSpells(isReal, x, square, TreesOf(elems, square), TreeOf(tail.value, square));
        } else {
          ProperSpells(isReal, x, square, TreesOf(elems, square));
        }
      case Vector(items) =>
        TreesSpell(isReal, items, square);
        VectorSpells(isReal, items, TreesOf(items, square), AllWritten(items, square));
      case Bytes(bytes) =>
        BytesSpell(bytes);
        ByteVectorSpells(isReal, bytes, BytesWritten(bytes));
      case Reader(kind, e) =>
        TreeSpells(isReal, e, square);
        ReaderSpells(isReal, kind, e, square);
      case _ =>
        AtomSpells(isReal, x, square);
    }
  }

  lemma AtomSpells(isReal: string -> bool, x: SExpr, square: Brackets)
    requires Readable(isReal, x) && !x.List? && !x.Vector? && !x.Bytes? && !x.Reader?
    ensures IsTree(isReal, x, TreeOf(x, square), Written(x, square))
  {
    hide Decimal, ReadFixnum;
    if x.Num? && x.number.Fixnum? {
      FixnumReads(isReal, x.number.value);
    }
  }

  lemma FixnumReads(isReal: string -> bool, v: int)
    requires -0x8000_0000_0000_0000 <= v < 0x8000_0000_0000_0000
    ensures NumberOf(isReal, FixnumText(if v < 0 then "-" + Decimal(-v) else Decimal(v), Ten)) == Ok(Num(Fixnum(v)))
  {
    hide Decimal, ReadFixnum;
    SignedDecimalReadsBack(v);
  }

  lemma ProperSpells(isReal: string -> bool, x: SExpr, square: Brackets, cs: seq<Cst>)
    requires x.List? && x.tail.None? && cs == TreesOf(x.elems, square)
    requires AreTrees(isReal, x.elems, cs, AllWritten(x.elems, square))
    ensures IsTree(isReal, x, TreeOf(x, square), Written(x, square))
  {
    var c := ListOf(square(x), cs, None);
    var ts := AllWritten(x.elems, square);
    hide AllWritten, TreesOf;
    UnparseProper(square(x), cs);
    assert TreeOf(x, square) == c && WellFormed(isReal, c);
    assert Denote(isReal, c) == List(DenoteAll(isReal, cs), None);
    hide UnparseAll, DenoteAll;
    assert [Opener(square(x))] + ts + [] + [Closer(square(x))] == [Opener(square(x))] + (ts + [Closer(square(x))]);
  }

  lemma UnparseProper(sq: bool, cs: seq<Cst>)
    ensures Unparse(ListOf(sq, cs, None)) == [Opener(sq)] + (UnparseAll(cs) + [Closer(sq)])
  {
  }

  lemma DottedSpells(isReal: string -> bool, x: SExpr, square: Brackets, cs: seq<Cst>, c: Cst)
    requires x.List? && x.tail.Some? && x.elems != [] && cs == TreesOf(x.elems, square) && c == TreeOf(x.tail.value, square)
    requires AreTrees(isReal, x.elems, cs, AllWritten(x.elems, square))
    requires IsTree(isReal, x.tail.value, c, Written(x.tail.value, square))
    ensures IsTree(isReal, x, TreeOf(x, square), Written(x, square))
  {
    hide *;
    DottedTree(x, square);
    DottedTokens(x, square);
    DottedIsTree(isReal, square(x), x.elems, cs, AllWritten(x.elems, square), x.tail.value, c, Written(x.tail.value, square));
    assert x == List(x.elems, Some(x.tail.value));
  }

  lemma DottedTree(x: SExpr, square: Brackets)
    requires x.List? && x.tail.Some?
    ensures TreeOf(x, square) == ListOf(square(x), TreesOf(x.elems, square), Some(TreeOf(x.tail.value, square)))
  {
    hide TreesOf;
  }

  lemma DottedTokens(x: SExpr, square: Brackets)
    requires x.List? && x.tail.Some?
    ensures Written(x, square) == [Opener(square(x))]
      + (AllWritten(x.elems, square) + ([Dot] + (Written(x.tail.value, square) + [Closer(square(x))])))
  {
    hide AllWritten;
    Rebracketed([Opener(square(x))], AllWritten(x.elems, square), Written(x.tail.value, square), [Closer(square(x))]);
  }

  lemma Rebracketed(a: seq<Token>, b: seq<Token>, c: seq<Token>, d: seq<Token>)
    ensures a + b + ([Dot] + c) + d == a + (b + ([Dot] + (c + d)))
  {
  }

  lemma DottedIsTree(
    isReal: string -> bool, sq: bool, xs: seq<SExpr>, cs: seq<Cst>, ts: seq<Token>, x: SExpr, c: Cst, last: seq<Token>)
    requires xs != [] && AreTrees(isReal, xs, cs, ts) && IsTree(isReal, x, c, last)
    ensures IsTree(isReal, List(xs, Some(x)), ListOf(sq, cs, Some(c)), [Opener(sq)] + (ts + ([Dot] + (last + [Closer(sq)]))))
  {
    assert cs != [];
    hide UnparseAll, DenoteAll, Opener, Closer;
    UnparseDotted(sq, cs, c);
    hide Unparse;
  }

  lemma UnparseDotted(sq: bool, cs: seq<Cst>, c: Cst)
    ensures Unparse(ListOf(sq, cs, Some(c)))
      == [Opener(sq)] + (UnparseAll(cs) + ([Dot] + (Unparse(c) + [Closer(sq)])))
  {
  }

  lemma VectorSpells(isReal: string -> bool, items: seq<SExpr>, cs: seq<Cst>, ts: seq<Token>)
    requires AreTrees(isReal, items, cs, ts)
    ensures IsTree(isReal, Vector(items), VectorOf(cs), [VectorStart] + ts + [RParen])
  {
    hide UnparseAll, DenoteAll;
    assert [VectorStart] + ts + [RParen] == [VectorStart] + (ts + [RParen]);
  }

  lemma ByteVectorSpells(isReal: string -> bool, bytes: seq<nat>, ts: seq<Token>)
    requires AllBytes(ts) && ByteValues(ts) == bytes
    ensures IsTree(isReal, Bytes(bytes), BytesOf(ts), [ByteVectorStart] + ts + [RParen])
  {
    hide AllBytes, ByteValues;
    assert [ByteVectorStart] + ts + [RParen] == [ByteVectorStart] + (ts + [RParen]);
  }

  lemma ReaderSpells(isReal: string -> bool, kind: QuoteKind, e: SExpr, square: Brackets)
    requires IsTree(isReal, e, TreeOf(e, square), Written(e, square))
    ensures IsTree(isReal, Reader(kind, e), TreeOf(Reader(kind, e), square), Written(Reader(kind, e), square))
  {
    var c := TreeOf(e, square);
    assert WellFormed(isReal, Abbreviation(kind, c));
  }

  lemma {:induction false} TreesSpell(isReal: string -> bool, xs: seq<SExpr>, square: Brackets)
    requires AllReadable(isReal, xs)
    ensures AreTrees(isReal, xs, TreesOf(xs, square), AllWritten(xs, square))
    decreases xs, 0
  {
    hide IsTree, AreTrees, TreeOf, Written;
    if xs == [] {
      NoTrees(isReal);
    } else {
      TreeSpells(isReal, xs[0], square);
      TreesSpell(isReal, xs[1..], square);
      MoreTrees(isReal, xs[0], TreeOf(xs[0], square), Written(xs[0], square),
        xs[1..], TreesOf(xs[1..], square), AllWritten(xs[1..], square));
      assert xs == [xs[0]] + xs[1..];
    }
  }

  lemma NoTrees(isReal: string -> bool)
    ensures AreTrees(isReal, [], [], [])
  {
  }

  lemma MoreTrees(
    isReal: string -> bool, x: SExpr, c: Cst, ts: seq<Token>, xs: seq<SExpr>, cs: seq<Cst>, ts': seq<Token>)
    requires IsTree(isReal, x, c, ts) && AreTrees(isReal, xs, cs, ts')
    ensures AreTrees(isReal, [x] + xs, [c] + cs, ts + ts')
  {
    var all := [c] + cs;
    assert all[0] == c && all[1..] == cs;
    hide WellFormed, Denote, Unparse;
    assert AllWellFormed(isReal, all);
  }

  lemma {:induction false} BytesSpell(bytes: seq<nat>)
    requires forall i :: 0 <= i < |bytes| ==> bytes[i] < 256
    ensures AllBytes(BytesWritten(bytes)) && ByteValues(BytesWritten(bytes)) == bytes
  {
    hide ByteOfToken, Decimal;
    if bytes != [] {
      ByteReads(bytes[0]);
      BytesSpell(bytes[1..]);
    }
  }

  lemma ByteReads(b: nat)
    requires b < 256
    ensures ByteOfToken(NumberToken(FixnumText(Decimal(b), Ten))) == Ok(b)
  {
    hide Decimal, ValueOf;
    DecimalValue(b);
    NumeralIsAllDigits(Decimal(b), 10);
    assert Decimal(b)[..|Decimal(b)|] == Decimal(b);
  }

  // ---- Reading what was written ----

  /** A datum's tokens, whatever follows them, read as the datum and leave what follows. */
  lemma WrittenIsRead(ru: Rules, x: SExpr, square: Brackets, rest: seq<Token>, depth: nat)
    requires Readable(ru.isReal, x)
    ensures Datum(ru, Written(x, square) + rest, depth).Ok? <==> Permitted(ru, depth, x)
    ensures Permitted(ru, depth, x) ==> Datum(ru, Written(x, square) + rest, depth) == Ok(Parsed(x, rest))
  {
    hide Datum, Written, TreeOf, Denote, WellFormed, Unparse, HasBareUnquote;
    var c := TreeOf(x, square);
    var ts := Written(x, square) + rest;
    TreeSpells(ru.isReal, x, square);
    var lenient := Rules(false, ru.isReal);
    ParseInvertsUnparse(lenient, c, rest, depth);
    if Permitted(ru, depth, x) {
      ParseInvertsUnparse(ru, c, rest, depth);
    }
    StrictIffNoBareUnquote(ru.isReal, ts, depth);
    assert ru.strict ==> ru == Rules(true, ru.isReal);
  }

  /** Whatever is read is readable. */
  lemma ReadIsReadable(ru: Rules, ts: seq<Token>, depth: nat)
    requires Datum(ru, ts, depth).Ok?
    ensures Readable(ru.isReal, Datum(ru, ts, depth).value.value)
  {
    hide Datum, Denote, WellFormed, Unparse, Readable, Permitted;
    var c := ParsedIsSpelled(ru, ts, depth);
    TreesAreReadable(ru.isReal, c);
  }

  lemma {:induction false} TreesAreReadable(isReal: string -> bool, c: Cst)
    requires WellFormed(isReal, c)
    ensures Readable(isReal, Denote(isReal, c))
    decreases c, 0
  {
    match c {
      case Atom(t) =>
        hide ReadFixnum;
        AtomIsReadable(isReal, t);
      case ListOf(_, elems, tail) =>
        AllTreesAreReadable(isReal, elems);
        if tail.Some? {
          TreesAreReadable(isReal, tail.value);
        }
      case VectorOf(items) =>
        AllTreesAreReadable(isReal, items);
      case BytesOf(tokens) =>
        BytesAreReadable(tokens);
      case Abbreviation(_, of) =>
        TreesAreReadable(isReal, of);
    }
  }

  lemma AtomIsReadable(isReal: string -> bool, t: Token)
    requires IsAtom(t) && AtomOf(isReal, t).Ok?
    ensures Readable(isReal, AtomOf(isReal, t).value)
  {
  }

  lemma {:induction false} AllTreesAreReadable(isReal: string -> bool, cs: seq<Cst>)
    requires forall i :: 0 <= i < |cs| ==> WellFormed(isReal, cs[i])
    ensures AllReadable(isReal, DenoteAll(isReal, cs)) && |DenoteAll(isReal, cs)| == |cs|
    decreases cs, 0
  {
    hide Readable, WellFormed;
    if cs != [] {
      TreesAreReadable(isReal, cs[0]);
      AllTreesAreReadable(isReal, cs[1..]);
    }
  }

  lemma {:induction false} BytesAreReadable(tokens: seq<Token>)
    requires AllBytes(tokens)
    ensures forall i :: 0 <= i < |ByteValues(tokens)| ==> ByteValues(tokens)[i] < 256
  {
    hide ValueOf, LeadingDigits;
    if tokens != [] {
      assert ByteOfToken(tokens[0]).value < 256;
      BytesAreReadable(tokens[1..]);
    }
  }

  // ---- Numerals in every radix ----

  const LOWER := "0123456789abcdef"
  const UPPER := "0123456789ABCDEF"

  predicate IsTable(table: string) {
    table == LOWER || table == UPPER
  }

  /** A number's digits in a base. */
  function Numeral(n: nat, base: nat, table: string): (s: string)
    requires 2 <= base <= 16 && |table| == 16
    ensures s != ""
  {
    if n < base then [table[n]] else Numeral(n / base, base, table) + [table[n % base]]
  }

  lemma TableDigit(d: nat, table: string)
    requires d < 16 && IsTable(table)
    ensures |table| == 16 && DigitOf(table[d]) == Some(d)
  {
    if table == LOWER {
      LowerDigit(d);
    } else {
      UpperDigit(d);
    }
  }

  lemma LowerDigit(d: nat)
    requires d < 16
    ensures DigitOf(LOWER[d]) == Some(d)
  {
    assert d < 8 ==> d in {0, 1, 2, 3, 4, 5, 6, 7};
    assert d >= 8 ==> d in {8, 9, 10, 11, 12, 13, 14, 15};
  }

  lemma UpperDigit(d: nat)
    requires d < 16
    ensures DigitOf(UPPER[d]) == Some(d)
  {
    assert d < 8 ==> d in {0, 1, 2, 3, 4, 5, 6, 7};
    assert d >= 8 ==> d in {8, 9, 10, 11, 12, 13, 14, 15};
  }

  /** In a base, the characters of the table below the base are its digits, and the others are not. */
  lemma DigitsOfBase(d: nat, base: nat, table: string)
    requires d < 16 && |table| == 16 && IsTable(table)
    ensures IsDigitIn(table[d], base) <==> d < base
  {
    TableDigit(d, table);
    hide DigitOf, IsTable;
  }

  lemma LastDigit(s: string, c: char, base: nat)
    requires IsNumeral(s, base) && IsDigitIn(c, base)
    ensures IsNumeral(s + [c], base) && ValueOf(s + [c], base) == ValueOf(s, base) * base + DigitOf(c).value
  {
    hide DigitOf;
    var longer := s + [c];
    assert longer[..|longer| - 1] == s;
  }

  lemma OneMoreDigit(s: string, c: char, base: nat, d: nat, n: nat)
    requires IsNumeral(s, base) && DigitOf(c) == Some(d) && d < base && n == ValueOf(s, base) * base + d
    ensures IsNumeral(s + [c], base) && ValueOf(s + [c], base) == n
  {
    hide DigitOf, ValueOf, IsNumeral;
    LastDigit(s, c, base);
  }

  lemma QuotientAndRest(n: nat, base: nat)
    requires base >= 2
    ensures n / base * base + n % base == n && n % base < base && (n > 0 ==> n / base < n)
  {
  }

  lemma {:induction false} NumeralValue(n: nat, base: nat, table: string)
    requires 2 <= base <= 16 && |table| == 16 && IsTable(table)
    ensures IsNumeral(Numeral(n, base, table), base) && ValueOf(Numeral(n, base, table), base) == n
  {
    hide DigitOf, IsTable, ValueOf, IsNumeral;
    if n < base {
      TableDigit(n, table);
      EmptyNumeral(base);
      OneMoreDigit("", table[n], base, n, n);
      assert "" + [table[n]] == [table[n]];
    } else {
      QuotientAndRest(n, base);
      TableDigit(n % base, table);
      NumeralValue(n / base, base, table);
      OneMoreDigit(Numeral(n / base, base, table), table[n % base], base, n % base, n);
    }
  }

  lemma EmptyNumeral(base: nat)
    ensures IsNumeral("", base) && ValueOf("", base) * base == 0
  {
  }

  /** Base 2, 8, 10 or 16. */
  predicate IsBase(radix: Radix, base: nat) {
    match radix
    case Binary => base == 2
    case Octal => base == 8
    case Ten => base == 10
    case Hexadecimal => base == 16
  }

  predicate IsSign(sign: string) {
    sign == "" || sign == "+" || sign == "-"
  }

  function Signed(sign: string, n: nat): int {
    var m: int := n;
    if sign == "-" then -m else m
  }

  lemma SignedNumeralReads(n: nat, base: nat, table: string, sign: string)
    requires 2 <= base <= 16 && |table| == 16 && IsTable(table) && IsSign(sign)
    ensures ReadFixnum(sign + Numeral(n, base, table), base)
      == if -0x8000_0000_0000_0000 <= Signed(sign, n) < 0x8000_0000_0000_0000 then Some(Signed(sign, n)) else None
  {
    NumeralValue(n, base, table);
    hide Numeral, IsTable;
    SignedDigitsRead(sign, Numeral(n, base, table), base);
  }

  lemma SignedDigitsRead(sign: string, digits: string, base: nat)
    requires IsSign(sign) && digits != "" && base <= 16 && IsNumeral(digits, base)
    ensures
      var v := Signed(sign, ValueOf(digits, base));
      ReadFixnum(sign + digits, base) == if -0x8000_0000_0000_0000 <= v < 0x8000_0000_0000_0000 then Some(v) else None
  {
    hide ValueOf, LeadingDigits;
    NumeralIsAllDigits(digits, base);
    assert digits[..|digits|] == digits;
    assert IsDigitIn(digits[0], base);
    if sign == "" {
      assert sign + digits == digits;
    } else {
      assert (sign + digits)[1..] == digits;
    }
  }

  /**
   A signed numeral reads as its number when that fits 64 bits; a larger decimal goes to the
   floating-point conversion, and a larger one in another radix is an error.
   */
  lemma NumeralIsRead(
    ru: Rules, n: nat, radix: Radix, base: nat, table: string, sign: string, rest: seq<Token>, depth: nat)
    requires IsBase(radix, base) && |table| == 16 && IsTable(table) && IsSign(sign)
    ensures
      var v := Signed(sign, n);
      var text := sign + Numeral(n, base, table);
      Datum(ru, [NumberToken(FixnumText(text, radix))] + rest, depth)
        == if -0x8000_0000_0000_0000 <= v < 0x8000_0000_0000_0000 then Ok(Parsed(Num(Fixnum(v)), rest))
           else if base == 10 && ru.isReal(text) then Ok(Parsed(Num(Flonum(text)), rest))
           else Err(InvalidNumericLiteral)
  {
    hide ReadFixnum, Numeral, IsTable, IsSign, Signed;
    SignedNumeralReads(n, base, table, sign);
    NumberStands(ru, FixnumText(sign + Numeral(n, base, table), radix), rest, depth);
  }

  lemma NumberStands(ru: Rules, literal: Literal, rest: seq<Token>, depth: nat)
    ensures Datum(ru, [NumberToken(literal)] + rest, depth)
      == match NumberOf(ru.isReal, literal) case Ok(x) => Ok(Parsed(x, rest)) case Err(e) => Err(e)
  {
    hide NumberOf;
    assert ([NumberToken(literal)] + rest)[1..] == rest;
  }

  /** In a byte vector a numeral stands for its number up to 255; larger ones and signs are errors. */
  lemma NumeralAsByte(n: nat, radix: Radix, base: nat, table: string, sign: string)
    requires IsBase(radix, base) && |table| == 16 && IsTable(table) && IsSign(sign)
    ensures ByteOfToken(NumberToken(FixnumText(sign + Numeral(n, base, table), radix)))
      == if sign == "" && n < 256 then Ok(n) else Err(InvalidByteLiteral)
  {
    NumeralValue(n, base, table);
    hide Numeral, IsTable, IsBase;
    SameBase(radix, base);
    SignedDigitsAsByte(sign, Numeral(n, base, table), radix);
  }

  lemma SameBase(radix: Radix, base: nat)
    requires IsBase(radix, base)
    ensures radix.Base() == base
  {
  }

  lemma SignedDigitsAsByte(sign: string, digits: string, radix: Radix)
    requires IsSign(sign) && digits != "" && IsNumeral(digits, radix.Base())
    ensures ByteOfToken(NumberToken(FixnumText(sign + digits, radix)))
      == if sign == "" && ValueOf(digits, radix.Base()) < 256 then Ok(ValueOf(digits, radix.Base())) else Err(InvalidByteLiteral)
  {
    hide ValueOf, LeadingDigits, IsNumeral;
    if sign == "" {
      NumeralIsAllDigits(digits, radix.Base());
      assert sign + digits == digits && digits[..|digits|] == digits;
    } else {
      SignIsNoDigit(sign, digits, radix.Base());
    }
  }

  lemma SignIsNoDigit(sign: string, digits: string, base: nat)
    requires IsSign(sign) && sign != "" && digits != ""
    ensures LeadingDigits(sign + digits, base) == 0
  {
    assert (sign + digits)[0] == sign[0];
    assert !IsDigitIn(sign[0], base);
  }

  // ---- What goes wrong ----

  lemma {:induction false} ElementsAreRead(
    ru: Rules, xs: seq<SExpr>, square: Brackets, after: seq<Token>, depth: nat, close: Token)
    requires Closes(close) && AllReadable(ru.isReal, xs) && AllPermitted(ru, depth, xs)
    ensures Items(ru, AllWritten(xs, square) + after, depth, close, [], None) == Items(ru, after, depth, close, xs, None)
    ensures VectorItems(ru, AllWritten(xs, square) + after, depth, []) == VectorItems(ru, after, depth, xs)
  {
    hide Items, VectorItems, AllPermitted, AllWritten, TreesOf;
    var cs := TreesOf(xs, square);
    TreesSpell(ru.isReal, xs, square);
    ElementsInvert(ru, cs, after, depth, close, []);
    VectorItemsInvert(ru, cs, after, depth, []);
    assert [] + xs == xs;
  }

  /** The opening token of a list, its elements, and what comes after them. */
  function ListTo(square: Brackets, round: bool, xs: seq<SExpr>, after: seq<Token>): seq<Token> {
    [if round then LParen else LBracket] + (AllWritten(xs, square) + after)
  }

  lemma ListGoesOn(ru: Rules, xs: seq<SExpr>, square: Brackets, round: bool, after: seq<Token>, depth: nat)
    requires AllReadable(ru.isReal, xs) && AllPermitted(ru, depth, xs)
    ensures Datum(ru, ListTo(square, round, xs, after), depth)
      == Items(ru, after, depth, if round then RParen else RBracket, xs, None)
  {
    hide Items, AllPermitted, AllReadable, AllWritten;
    var ts := AllWritten(xs, square) + after;
    ElementsAreRead(ru, xs, square, after, depth, if round then RParen else RBracket);
    assert ListTo(square, round, xs, after)[1..] == ts;
  }

  /**
   After some elements a list fails on the end of the input, a lexer error, the other closing
   bracket, or a dot with nothing before it.
   */
  lemma ListFails(ru: Rules, xs: seq<SExpr>, square: Brackets, round: bool, rest: seq<Token>, depth: nat)
    requires AllReadable(ru.isReal, xs) && AllPermitted(ru, depth, xs)
    ensures Datum(ru, ListTo(square, round, xs, []), depth) == Err(UnclosedList)
    ensures Datum(ru, ListTo(square, round, xs, [Bad] + rest), depth) == Err(FromLexer)
    ensures Datum(ru, ListTo(square, round, xs, [if round then RBracket else RParen] + rest), depth) == Err(UnclosedList)
    ensures xs == [] ==> Datum(ru, ListTo(square, round, xs, [Dot] + rest), depth) == Err(DotAtListStart)
  {
    hide Datum, ListTo, AllReadable, AllPermitted;
    ListGoesOn(ru, xs, square, round, [], depth);
    ListGoesOn(ru, xs, square, round, [Bad] + rest, depth);
    ListGoesOn(ru, xs, square, round, [if round then RBracket else RParen] + rest, depth);
    ListGoesOn(ru, xs, square, round, [Dot] + rest, depth);
  }

  /** After the dotted tail only the closing bracket may come. */
  lemma TailFails(ru: Rules, xs: seq<SExpr>, tail: SExpr, square: Brackets, round: bool, rest: seq<Token>, depth: nat)
    requires AllReadable(ru.isReal, xs) && AllPermitted(ru, depth, xs) && xs != []
    requires Readable(ru.isReal, tail) && Permitted(ru, depth, tail)
    ensures
      var dotted := (after: seq<Token>) => ListTo(square, round, xs, [Dot] + (Written(tail, square) + after));
      && Datum(ru, dotted([]), depth) == Err(UnclosedList)
      && Datum(ru, dotted([Dot] + rest), depth) == Err(MultipleDotsInDottedList)
      && Datum(ru, dotted([if round then RBracket else RParen] + rest), depth) == Err(UnclosedList)
      && forall more :: Readable(ru.isReal, more) && Permitted(ru, depth, more) ==>
        Datum(ru, dotted(Written(more, square) + rest), depth) == Err(MisplacedDot)
  {
    hide Datum, ListTo, AllReadable, AllPermitted, Readable, Permitted, Written;
    TailGoesOn(ru, xs, tail, square, round, [], depth);
    TailGoesOn(ru, xs, tail, square, round, [Dot] + rest, depth);
    TailGoesOn(ru, xs, tail, square, round, [if round then RBracket else RParen] + rest, depth);
    forall more | Readable(ru.isReal, more) && Permitted(ru, depth, more)
      ensures Datum(ru, ListTo(square, round, xs, [Dot] + (Written(tail, square) + (Written(more, square) + rest))), depth)
        == Err(MisplacedDot)
    {
      TailGoesOn(ru, xs, tail, square, round, Written(more, square) + rest, depth);
      WrittenIsRead(ru, more, square, rest, depth);
      WrittenStarts(ru.isReal, more, square, rest);
    }
  }

  lemma TailGoesOn(
    ru: Rules, xs: seq<SExpr>, tail: SExpr, square: Brackets, round: bool, after: seq<Token>, depth: nat)
    requires AllReadable(ru.isReal, xs) && AllPermitted(ru, depth, xs) && xs != []
    requires Readable(ru.isReal, tail) && Permitted(ru, depth, tail)
    ensures Datum(ru, ListTo(square, round, xs, [Dot] + (Written(tail, square) + after)), depth)
      == Items(ru, after, depth, if round then RParen else RBracket, xs, Some(tail))
  {
    hide Datum, ListTo, AllReadable, AllPermitted, Readable, Permitted, Written, Items;
    var ts := [Dot] + (Written(tail, square) + after);
    ListGoesOn(ru, xs, square, round, ts, depth);
    WrittenIsRead(ru, tail, square, after, depth);
    assert ts[1..] == Written(tail, square) + after;
    TailElement(ru, ts, depth, if round then RParen else RBracket, xs);
  }

  lemma WrittenStarts(isReal: string -> bool, x: SExpr, square: Brackets, rest: seq<Token>)
    requires Readable(isReal, x)
    ensures Written(x, square) + rest != [] && Starts((Written(x, square) + rest)[0])
  {
    hide TreeOf, Written, Unparse, WellFormed, Denote;
    TreeSpells(isReal, x, square);
    UnparseStarts(Rules(false, isReal), TreeOf(x, square), rest);
  }

  /** A vector fails on the end of the input, a lexer error, a dot and a square closing bracket. */
  lemma VectorFails(ru: Rules, xs: seq<SExpr>, square: Brackets, rest: seq<Token>, depth: nat)
    requires AllReadable(ru.isReal, xs) && AllPermitted(ru, depth, xs)
    ensures
      var vector := (after: seq<Token>) => [VectorStart] + (AllWritten(xs, square) + after);
      && Datum(ru, vector([]), depth) == Err(UnclosedVector)
      && Datum(ru, vector([Bad] + rest), depth) == Err(FromLexer)
      && Datum(ru, vector([Dot] + rest), depth) == Err(DotInVector)
      && Datum(ru, vector([RBracket] + rest), depth) == Err(UnexpectedClosingDelimiter)
  {
    hide Datum, AllReadable, AllPermitted, AllWritten;
    VectorGoesOn(ru, xs, square, [], depth);
    VectorGoesOn(ru, xs, square, [Bad] + rest, depth);
    VectorGoesOn(ru, xs, square, [Dot] + rest, depth);
    VectorGoesOn(ru, xs, square, [RBracket] + rest, depth);
    StrayTokens(ru, rest, depth);
  }

  lemma VectorGoesOn(ru: Rules, xs: seq<SExpr>, square: Brackets, after: seq<Token>, depth: nat)
    requires AllReadable(ru.isReal, xs) && AllPermitted(ru, depth, xs)
    ensures Datum(ru, [VectorStart] + (AllWritten(xs, square) + after), depth) == VectorItems(ru, after, depth, xs)
  {
    hide VectorItems, AllPermitted, AllReadable, AllWritten;
    var ts := AllWritten(xs, square) + after;
    ElementsAreRead(ru, xs, square, after, depth, RParen);
    assert ([VectorStart] + ts)[1..] == ts;
  }

  /** Where a datum is wanted: the end of the input, a closing bracket, a dot, a lexer error. */
  lemma StrayTokens(ru: Rules, rest: seq<Token>, depth: nat)
    ensures Datum(ru, [], depth) == Err(UnexpectedEOF)
    ensures Datum(ru, [RParen] + rest, depth) == Err(UnexpectedClosingDelimiter)
    ensures Datum(ru, [RBracket] + rest, depth) == Err(UnexpectedClosingDelimiter)
    ensures Datum(ru, [Dot] + rest, depth) == Err(MisplacedDot)
    ensures Datum(ru, [Bad] + rest, depth) == Err(FromLexer)
  {
  }

  /** What goes wrong inside an element goes wrong with the list and the vector. */
  lemma ElementFails(ru: Rules, xs: seq<SExpr>, square: Brackets, round: bool, after: seq<Token>, depth: nat)
    requires AllReadable(ru.isReal, xs) && AllPermitted(ru, depth, xs)
    requires after != [] && Starts(after[0]) && Datum(ru, after, depth).Err?
    ensures Datum(ru, ListTo(square, round, xs, after), depth) == Err(Datum(ru, after, depth).error)
    ensures Datum(ru, [VectorStart] + (AllWritten(xs, square) + after), depth) == Err(Datum(ru, after, depth).error)
  {
    hide Datum, ListTo, AllReadable, AllPermitted, AllWritten;
    ListGoesOn(ru, xs, square, round, after, depth);
    VectorGoesOn(ru, xs, square, after, depth);
  }

  /** In a byte vector only byte literals may come before the closing bracket. */
  lemma {:induction false} ByteVectorFails(ru: Rules, bytes: seq<nat>, t: Token, rest: seq<Token>, depth: nat)
    requires forall i :: 0 <= i < |bytes| ==> bytes[i] < 256
    ensures
      var vector := (after: seq<Token>) => [ByteVectorStart] + (BytesWritten(bytes) + after);
      && Datum(ru, vector([]), depth) == Err(UnclosedVector)
      && Datum(ru, vector([Bad] + rest), depth) == Err(FromLexer)
      && (!t.NumberToken? && t != RParen && t != Bad && t != Eof ==>
            Datum(ru, vector([t] + rest), depth) == Err(ByteVectorNonInteger))
      && (t.NumberToken? && t.literal.FlonumText? ==> Datum(ru, vector([t] + rest), depth) == Err(InvalidByteLiteral))
  {
    hide Datum, BytesWritten;
    BytesGoOn(ru, bytes, [], depth);
    BytesGoOn(ru, bytes, [Bad] + rest, depth);
    BytesGoOn(ru, bytes, [t] + rest, depth);
  }

  lemma BytesGoOn(ru: Rules, bytes: seq<nat>, after: seq<Token>, depth: nat)
    requires forall i :: 0 <= i < |bytes| ==> bytes[i] < 256
    ensures Datum(ru, [ByteVectorStart] + (BytesWritten(bytes) + after), depth) == ByteItems(after, bytes)
  {
    hide ByteItems, BytesWritten, ByteOfToken, AllBytes, ByteValues;
    var ts := BytesWritten(bytes) + after;
    BytesSpell(bytes);
    ByteItemsInvert(BytesWritten(bytes), after, []);
    assert [] + bytes == bytes;
    assert ([ByteVectorStart] + ts)[1..] == ts;
  }

  /** An unquote is an error where the rules are strict and no quasiquote encloses it. */
  lemma UnquoteFails(ru: Rules, rest: seq<Token>)
    requires ru.strict
    ensures Datum(ru, [Comma] + rest, 0) == Err(UnquoteOutsideQuasiquote)
    ensures Datum(ru, [CommaAt] + rest, 0) == Err(UnquoteOutsideQuasiquote)
  {
  }
}
