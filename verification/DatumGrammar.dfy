/**
 Parsing inverts unparsing, and nothing else is accepted: the token function of `Datums` reads
 exactly the concrete trees, the rules decide exactly the bare unquotes, and skipping a datum
 passes over exactly the tokens that parsing it consumes.
 */
module DatumGrammar {
  import opened Wrappers
  import opened SExprs
  import opened Datums

  predicate Starts(t: Token) {
    t.LParen? || t.LBracket? || t.VectorStart? || t.ByteVectorStart? || KindOf(t).Some? || IsAtom(t)
  }

  lemma UnparseStarts(ru: Rules, c: Cst, rest: seq<Token>)
    requires WellFormed(ru.isReal, c)
    ensures Unparse(c) + rest != [] && Starts((Unparse(c) + rest)[0])
  {
  }

  lemma Regroup<T>(a: seq<T>, b: seq<T>, c: seq<T>)
    ensures (a + b) + c == a + (b + c)
  {
  }

  lemma Uncons<T>(x: T, xs: seq<T>)
    ensures ([x] + xs)[0] == x && ([x] + xs)[1..] == xs
  {
  }

  predicate Closes(t: Token) {
    t.RParen? || t.RBracket?
  }

  // ---- Parsing inverts unparsing ----

  /** Reading a tree's tokens, whatever follows them, gives its datum and leaves what follows. */
  lemma {:induction false} ParseInvertsUnparse(ru: Rules, c: Cst, rest: seq<Token>, depth: nat)
    requires WellFormed(ru.isReal, c) && Permitted(ru, depth, Denote(ru.isReal, c))
    ensures Reads(ru, c, rest, depth)
    decreases c, 1
  {
    hide Datum, Unparse, Denote, Permitted, WellFormed;
    match c
    case Atom(_) => AtomInverts(ru, c, rest, depth);
    case ListOf(_, _, _) => ListInverts(ru, c, rest, depth);
    case VectorOf(_) => VectorInverts(ru, c, rest, depth);
    case BytesOf(_) => BytesInvert(ru, c, rest, depth);
    case Abbreviation(_, _) => AbbreviationInverts(ru, c, rest, depth);
  }

  ghost predicate Reads(ru: Rules, c: Cst, rest: seq<Token>, depth: nat)
    requires WellFormed(ru.isReal, c)
  {
    Datum(ru, Unparse(c) + rest, depth) == Ok(Parsed(Denote(ru.isReal, c), rest))
  }

  lemma AtomInverts(ru: Rules, c: Cst, rest: seq<Token>, depth: nat)
    requires c.Atom? && WellFormed(ru.isReal, c)
    ensures Reads(ru, c, rest, depth)
  {
    assert Unparse(c) + rest == [c.token] + rest;
  }

  lemma {:induction false} AbbreviationInverts(ru: Rules, c: Cst, rest: seq<Token>, depth: nat)
    requires c.Abbreviation? && WellFormed(ru.isReal, c) && Permitted(ru, depth, Denote(ru.isReal, c))
    ensures Reads(ru, c, rest, depth)
    decreases c, 0
  {
    assert Unparse(c) + rest == [Mark(c.kind)] + (Unparse(c.of) + rest);
    ParseInvertsUnparse(ru, c.of, rest, if c.kind.Quasiquote? then depth + 1 else depth);
  }

  lemma {:induction false} VectorInverts(ru: Rules, c: Cst, rest: seq<Token>, depth: nat)
    requires c.VectorOf? && WellFormed(ru.isReal, c) && Permitted(ru, depth, Denote(ru.isReal, c))
    ensures Reads(ru, c, rest, depth)
    decreases c, 0
  {
    var after := [RParen] + rest;
    assert Unparse(c) + rest == [VectorStart] + (UnparseAll(c.items) + after);
    VectorItemsInvert(ru, c.items, after, depth, []);
    assert [] + DenoteAll(ru.isReal, c.items) == DenoteAll(ru.isReal, c.items);
  }

  lemma BytesInvert(ru: Rules, c: Cst, rest: seq<Token>, depth: nat)
    requires c.BytesOf? && WellFormed(ru.isReal, c)
    ensures Reads(ru, c, rest, depth)
  {
    var after := [RParen] + rest;
    assert Unparse(c) + rest == [ByteVectorStart] + (c.tokens + after);
    ByteItemsInvert(c.tokens, after, []);
    assert [] + ByteValues(c.tokens) == ByteValues(c.tokens);
  }

  lemma {:induction false} ListInverts(ru: Rules, c: Cst, rest: seq<Token>, depth: nat)
    requires c.ListOf? && WellFormed(ru.isReal, c) && Permitted(ru, depth, Denote(ru.isReal, c))
    ensures Reads(ru, c, rest, depth)
    decreases c, 0
  {
    var (elems, tail, close) := (c.elems, c.tail, Closer(c.square));
    var closed := [close] + rest;
    var after := if tail.None? then closed else [Dot] + (Unparse(tail.value) + closed);
    ListTokens(c, rest);
    var ds := DenoteAll(ru.isReal, elems);
    assert Datum(ru, Unparse(c) + rest, depth) == Items(ru, UnparseAll(elems) + after, depth, close, [], None);
    ElementsInvert(ru, elems, after, depth, close, []);
    assert [] + ds == ds;
    hide Unparse, UnparseAll;
    if tail.Some? {
      ParseInvertsUnparse(ru, tail.value, closed, depth);
      assert after[1..] == Unparse(tail.value) + closed;
      TailElement(ru, after, depth, close, ds);
      ListCloses(ru, closed, depth, close, ds, Some(Denote(ru.isReal, tail.value)));
    }
    assert closed[1..] == rest;
  }

  lemma ListTokens(c: Cst, rest: seq<Token>)
    requires c.ListOf?
    ensures var closed := [Closer(c.square)] + rest;
      Unparse(c) + rest == [Opener(c.square)]
        + (UnparseAll(c.elems) + (if c.tail.None? then closed else [Dot] + (Unparse(c.tail.value) + closed)))
  {
  }

  /** One turn of the list loop, by the token it meets. */
  lemma NextElement(ru: Rules, ts: seq<Token>, depth: nat, close: Token, acc: seq<SExpr>)
    requires Closes(close) && Starts(Head(ts)) && Datum(ru, ts, depth).Ok?
    ensures var p := Datum(ru, ts, depth).value;
      Items(ru, ts, depth, close, acc, None) == Items(ru, p.rest, depth, close, acc + [p.value], None)
  {
    hide Datum;
  }

  lemma TailElement(ru: Rules, ts: seq<Token>, depth: nat, close: Token, acc: seq<SExpr>)
    requires Closes(close) && acc != [] && Head(ts) == Dot && Datum(ru, ts[1..], depth).Ok?
    ensures var p := Datum(ru, ts[1..], depth).value;
      Items(ru, ts, depth, close, acc, None) == Items(ru, p.rest, depth, close, acc, Some(p.value))
  {
    hide Datum;
  }

  lemma ListCloses(ru: Rules, ts: seq<Token>, depth: nat, close: Token, acc: seq<SExpr>, tail: Option<SExpr>)
    requires Closes(close) && Head(ts) == close
    ensures Items(ru, ts, depth, close, acc, tail) == Ok(Parsed(List(acc, tail), ts[1..]))
  {
  }

  /** The list loop takes one element after another. */
  lemma {:induction false} ElementsInvert(
    ru: Rules, cs: seq<Cst>, after: seq<Token>, depth: nat, close: Token, acc: seq<SExpr>)
    requires Closes(close) && forall i :: 0 <= i < |cs| ==> WellFormed(ru.isReal, cs[i])
    requires AllPermitted(ru, depth, DenoteAll(ru.isReal, cs))
    ensures Items(ru, UnparseAll(cs) + after, depth, close, acc, None)
      == Items(ru, after, depth, close, acc + DenoteAll(ru.isReal, cs), None)
    decreases cs
  {
    if cs == [] {
      assert UnparseAll(cs) + after == after && acc + DenoteAll(ru.isReal, cs) == acc;
    } else {
      var x, ds := Denote(ru.isReal, cs[0]), DenoteAll(ru.isReal, cs[1..]);
      var next := UnparseAll(cs[1..]) + after;
      FirstOfAll(ru, cs, after, depth);
      hide Unparse, UnparseAll, Datum, WellFormed, Permitted, AllPermitted, Items;
      ParseInvertsUnparse(ru, cs[0], next, depth);
      UnparseStarts(ru, cs[0], next);
      NextElement(ru, Unparse(cs[0]) + next, depth, close, acc);
      ElementsInvert(ru, cs[1..], after, depth, close, acc + [x]);
      assert (acc + [x]) + ds == acc + DenoteAll(ru.isReal, cs);
    }
  }

  lemma {:induction false} VectorItemsInvert(ru: Rules, cs: seq<Cst>, after: seq<Token>, depth: nat, acc: seq<SExpr>)
    requires forall i :: 0 <= i < |cs| ==> WellFormed(ru.isReal, cs[i])
    requires AllPermitted(ru, depth, DenoteAll(ru.isReal, cs))
    ensures VectorItems(ru, UnparseAll(cs) + after, depth, acc) == VectorItems(ru, after, depth, acc + DenoteAll(ru.isReal, cs))
    decreases cs
  {
    if cs == [] {
      assert UnparseAll(cs) + after == after && acc + DenoteAll(ru.isReal, cs) == acc;
    } else {
      var x, ds := Denote(ru.isReal, cs[0]), DenoteAll(ru.isReal, cs[1..]);
      var next := UnparseAll(cs[1..]) + after;
      FirstOfAll(ru, cs, after, depth);
      hide Unparse, UnparseAll, Datum, WellFormed, Permitted, AllPermitted;
      ParseInvertsUnparse(ru, cs[0], next, depth);
      UnparseStarts(ru, cs[0], next);
      VectorItemsInvert(ru, cs[1..], after, depth, acc + [x]);
      assert (acc + [x]) + ds == acc + DenoteAll(ru.isReal, cs);
    }
  }

  lemma FirstOfAll(ru: Rules, cs: seq<Cst>, after: seq<Token>, depth: nat)
    requires cs != [] && forall i :: 0 <= i < |cs| ==> WellFormed(ru.isReal, cs[i])
    requires AllPermitted(ru, depth, DenoteAll(ru.isReal, cs))
    ensures UnparseAll(cs) + after == Unparse(cs[0]) + (UnparseAll(cs[1..]) + after)
    ensures Permitted(ru, depth, Denote(ru.isReal, cs[0])) && AllPermitted(ru, depth, DenoteAll(ru.isReal, cs[1..]))
  {
    hide WellFormed, Unparse, Denote, Permitted;
    var d, ds := Denote(ru.isReal, cs[0]), DenoteAll(ru.isReal, cs[1..]);
    assert DenoteAll(ru.isReal, cs) == [d] + ds;
    Regroup(Unparse(cs[0]), UnparseAll(cs[1..]), after);
    hide UnparseAll, DenoteAll, AllPermitted;
    PermittedCons(ru, depth, d, ds);
  }

  lemma PermittedCons(ru: Rules, depth: nat, d: SExpr, ds: seq<SExpr>)
    ensures AllPermitted(ru, depth, [d] + ds) <==> Permitted(ru, depth, d) && AllPermitted(ru, depth, ds)
  {
    hide Permitted;
    var all := [d] + ds;
    assert all[0] == d && forall i :: 0 <= i < |ds| ==> all[i + 1] == ds[i];
    assert forall i :: 1 <= i < |all| ==> all[i] == ds[i - 1];
  }

  lemma {:induction false} ByteItemsInvert(tokens: seq<Token>, after: seq<Token>, acc: seq<nat>)
    requires AllBytes(tokens)
    ensures ByteItems(tokens + after, acc) == ByteItems(after, acc + ByteValues(tokens))
    decreases tokens
  {
    if tokens == [] {
      assert tokens + after == after && acc + ByteValues(tokens) == acc;
    } else {
      var b := ByteOfToken(tokens[0]).value;
      assert (tokens + after)[1..] == tokens[1..] + after;
      ByteItemsInvert(tokens[1..], after, acc + [b]);
      assert (acc + [b]) + ByteValues(tokens[1..]) == acc + ByteValues(tokens);
    }
  }

  // ---- Only the grammar is parsed ----

  /** The tokens between a list's elements and its end. */
  function Ending(close: Token, tail: Option<Cst>, rest: seq<Token>): seq<Token> {
    var closed := [close] + rest;
    if tail.None? then closed else [Dot] + (Unparse(tail.value) + closed)
  }

  ghost predicate Spells(ru: Rules, c: Cst, ts: seq<Token>, depth: nat, p: Parsed<SExpr>) {
    && WellFormed(ru.isReal, c)
    && ts == Unparse(c) + p.rest
    && p.value == Denote(ru.isReal, c)
    && Permitted(ru, depth, p.value)
  }

  ghost predicate AllWellFormed(isReal: string -> bool, cs: seq<Cst>) {
    forall i :: 0 <= i < |cs| ==> WellFormed(isReal, cs[i])
  }

  /** What is parsed is the datum of some concrete tree, spelled by the tokens consumed. */
  lemma {:induction false} ParsedIsSpelled(ru: Rules, ts: seq<Token>, depth: nat) returns (c: Cst)
    requires Datum(ru, ts, depth).Ok?
    ensures Spells(ru, c, ts, depth, Datum(ru, ts, depth).value)
    decreases |ts|, 1
  {
    hide Spells, Items, VectorItems, ByteItems, Abbreviated, AtomOf;
    var t := Head(ts);
    if t.LParen? || t.LBracket? {
      c := ListIsSpelled(ru, ts, depth);
    } else if t.VectorStart? {
      c := VectorIsSpelled(ru, ts, depth);
    } else if t.ByteVectorStart? {
      c := BytesAreSpelled(ru, ts, depth);
    } else if KindOf(t).Some? {
      c := AbbreviationIsSpelled(ru, ts, depth);
    } else {
      c := AtomIsSpelled(ru, ts, depth);
    }
  }

  lemma AtomIsSpelled(ru: Rules, ts: seq<Token>, depth: nat) returns (c: Cst)
    requires IsAtom(Head(ts)) && Datum(ru, ts, depth).Ok?
    ensures Spells(ru, c, ts, depth, Datum(ru, ts, depth).value)
  {
    c := Atom(ts[0]);
    assert ts == [ts[0]] + ts[1..];
  }

  lemma {:induction false} AbbreviationIsSpelled(ru: Rules, ts: seq<Token>, depth: nat) returns (c: Cst)
    requires KindOf(Head(ts)).Some? && Datum(ru, ts, depth).Ok?
    ensures Spells(ru, c, ts, depth, Datum(ru, ts, depth).value)
    decreases |ts|, 0
  {
    var kind := KindOf(ts[0]).value;
    var inner := if kind.Quasiquote? then depth + 1 else depth;
    HeadFirst(ts);
    hide Spells;
    var of := ParsedIsSpelled(ru, ts[1..], inner);
    c := Abbreviation(kind, of);
    hide Datum;
    AbbreviationSpelling(ru, of, kind, ts, depth, Datum(ru, ts[1..], inner).value);
  }

  lemma AbbreviationSpelling(ru: Rules, of: Cst, kind: QuoteKind, ts: seq<Token>, depth: nat, p: Parsed<SExpr>)
    requires ts != [] && ts == [Mark(kind)] + ts[1..]
    requires Spells(ru, of, ts[1..], if kind.Quasiquote? then depth + 1 else depth, p)
    requires ru.strict && (kind.Unquote? || kind.UnquoteSplicing?) ==> depth > 0
    ensures Spells(ru, Abbreviation(kind, of), ts, depth, Parsed(Reader(kind, p.value), p.rest))
  {
    hide Unparse;
    Regroup([Mark(kind)], Unparse(of), p.rest);
    assert Unparse(Abbreviation(kind, of)) == [Mark(kind)] + Unparse(of) by { UnparseAbbreviation(kind, of); }
  }

  lemma UnparseAbbreviation(kind: QuoteKind, of: Cst)
    ensures Unparse(Abbreviation(kind, of)) == [Mark(kind)] + Unparse(of)
  {
  }

  lemma {:induction false} VectorIsSpelled(ru: Rules, ts: seq<Token>, depth: nat) returns (c: Cst)
    requires Head(ts) == VectorStart && Datum(ru, ts, depth).Ok?
    ensures Spells(ru, c, ts, depth, Datum(ru, ts, depth).value)
    decreases |ts|, 0
  {
    var p := Datum(ru, ts, depth).value;
    assert Datum(ru, ts, depth) == VectorItems(ru, ts[1..], depth, []);
    hide *;
    var cs := VectorItemsAreSpelled(ru, ts[1..], depth, []);
    c := VectorOf(cs);
    assert p.value == Vector([] + DenoteAll(ru.isReal, cs));
    HeadFirst(ts);
    VectorSpelling(ru, cs, ts, depth, p);
  }

  lemma HeadFirst(ts: seq<Token>)
    requires Head(ts) != Eof
    ensures ts != [] && ts == [Head(ts)] + ts[1..]
  {
  }

  lemma VectorSpelling(ru: Rules, cs: seq<Cst>, ts: seq<Token>, depth: nat, p: Parsed<SExpr>)
    requires AllWellFormed(ru.isReal, cs) && AllPermitted(ru, depth, DenoteAll(ru.isReal, cs))
    requires ts == [VectorStart] + (UnparseAll(cs) + ([RParen] + p.rest))
    requires p.value == Vector([] + DenoteAll(ru.isReal, cs))
    ensures Spells(ru, VectorOf(cs), ts, depth, p)
  {
    hide UnparseAll, DenoteAll;
    var ds := DenoteAll(ru.isReal, cs);
    assert [] + ds == ds;
    assert ts == ([VectorStart] + (UnparseAll(cs) + [RParen])) + p.rest;
  }

  lemma BytesAreSpelled(ru: Rules, ts: seq<Token>, depth: nat) returns (c: Cst)
    requires Head(ts) == ByteVectorStart && Datum(ru, ts, depth).Ok?
    ensures Spells(ru, c, ts, depth, Datum(ru, ts, depth).value)
  {
    var p := Datum(ru, ts, depth).value;
    assert Datum(ru, ts, depth) == ByteItems(ts[1..], []);
    hide *;
    var tokens := ByteItemsAreSpelled(ts[1..], []);
    c := BytesOf(tokens);
    HeadFirst(ts);
    BytesSpelling(ru, tokens, ts, depth, p);
  }

  lemma NoUnquoteInBytes(bytes: seq<nat>)
    ensures !HasBareUnquote(Bytes(bytes))
  {
  }

  lemma BytesSpelling(ru: Rules, tokens: seq<Token>, ts: seq<Token>, depth: nat, p: Parsed<SExpr>)
    requires AllBytes(tokens)
    requires ts == [ByteVectorStart] + (tokens + ([RParen] + p.rest))
    requires p.value == Bytes([] + ByteValues(tokens))
    ensures Spells(ru, BytesOf(tokens), ts, depth, p)
  {
    hide AllBytes, ByteOfToken, ByteValues, HasBareUnquote;
    var c, bytes := BytesOf(tokens), ByteValues(tokens);
    assert [] + bytes == bytes;
    assert WellFormed(ru.isReal, c) && Denote(ru.isReal, c) == Bytes(bytes);
    assert Permitted(ru, depth, Bytes(bytes)) by { NoUnquoteInBytes(bytes); }
    assert ts == ([ByteVectorStart] + (tokens + [RParen])) + p.rest;
  }

  lemma {:induction false} ListIsSpelled(ru: Rules, ts: seq<Token>, depth: nat) returns (c: Cst)
    requires (Head(ts) == LParen || Head(ts) == LBracket) && Datum(ru, ts, depth).Ok?
    ensures Spells(ru, c, ts, depth, Datum(ru, ts, depth).value)
    decreases |ts|, 0
  {
    var square := Head(ts) == LBracket;
    var p := Datum(ru, ts, depth).value;
    assert Datum(ru, ts, depth) == Items(ru, ts[1..], depth, Closer(square), [], None);
    hide Datum, Items, UnparseAll, DenoteAll;
    var cs, tail := ItemsAreSpelled(ru, ts[1..], depth, Closer(square), [], None);
    c := ListOf(square, cs, tail);
    var ds := DenoteAll(ru.isReal, cs);
    assert [] + ds == ds;
    ListTokens(c, p.rest);
    assert ts == [Opener(square)] + (UnparseAll(cs) + Ending(Closer(square), tail, p.rest));
  }

  lemma {:induction false} VectorItemsAreSpelled(ru: Rules, ts: seq<Token>, depth: nat, acc: seq<SExpr>) returns (cs: seq<Cst>)
    requires VectorItems(ru, ts, depth, acc).Ok?
    ensures var p := VectorItems(ru, ts, depth, acc).value;
      && AllWellFormed(ru.isReal, cs)
      && AllPermitted(ru, depth, DenoteAll(ru.isReal, cs))
      && p.value == Vector(acc + DenoteAll(ru.isReal, cs))
      && ts == UnparseAll(cs) + ([RParen] + p.rest)
    decreases |ts|, 2
  {
    var p := VectorItems(ru, ts, depth, acc).value;
    if ts[0] == RParen {
      cs := [];
      assert ts == [] + ([RParen] + ts[1..]);
      assert acc + [] == acc;
    } else {
      var first := Datum(ru, ts, depth).value;
      hide VectorItems, Datum;
      var c := ParsedIsSpelled(ru, ts, depth);
      var more := VectorItemsAreSpelled(ru, first.rest, depth, acc + [first.value]);
      cs := [c] + more;
      PrependSpelled(ru, ts, depth, c, more, first, [RParen] + p.rest);
      assert acc + ([first.value] + DenoteAll(ru.isReal, more)) == (acc + [first.value]) + DenoteAll(ru.isReal, more);
    }
  }

  lemma PrependSpelled(
    ru: Rules, ts: seq<Token>, depth: nat, c: Cst, more: seq<Cst>, first: Parsed<SExpr>, after: seq<Token>)
    requires Spells(ru, c, ts, depth, first) && first.rest == UnparseAll(more) + after
    requires AllWellFormed(ru.isReal, more) && AllPermitted(ru, depth, DenoteAll(ru.isReal, more))
    ensures AllWellFormed(ru.isReal, [c] + more)
    ensures DenoteAll(ru.isReal, [c] + more) == [first.value] + DenoteAll(ru.isReal, more)
    ensures AllPermitted(ru, depth, DenoteAll(ru.isReal, [c] + more))
    ensures ts == UnparseAll([c] + more) + after
  {
    var cs := [c] + more;
    assert cs[0] == c && cs[1..] == more;
    assert UnparseAll(cs) == Unparse(c) + UnparseAll(more);
  }

  lemma {:induction false} ByteItemsAreSpelled(ts: seq<Token>, acc: seq<nat>) returns (tokens: seq<Token>)
    requires ByteItems(ts, acc).Ok?
    ensures var p := ByteItems(ts, acc).value;
      && AllBytes(tokens)
      && p.value == Bytes(acc + ByteValues(tokens))
      && ts == tokens + ([RParen] + p.rest)
    decreases |ts|
  {
    hide ByteOfToken;
    if ts[0] == RParen {
      tokens := [];
      assert acc + [] == acc;
    } else {
      var b := ByteOfToken(ts[0]).value;
      var more := ByteItemsAreSpelled(ts[1..], acc + [b]);
      tokens := [ts[0]] + more;
      assert tokens[1..] == more;
      assert acc + ([b] + ByteValues(more)) == (acc + [b]) + ByteValues(more);
    }
  }

  lemma DottedEnd(ts: seq<Token>, c: Cst, close: Token, after: seq<Token>, rest: seq<Token>)
    requires Head(ts) == Dot && ts[1..] == Unparse(c) + after && after == [] + ([close] + rest)
    ensures after == [close] + rest && ts == [] + Ending(close, Some(c), rest)
  {
    hide Unparse;
  }

  /** How a list that parses goes on. */
  lemma ItemsCases(ru: Rules, ts: seq<Token>, depth: nat, close: Token, acc: seq<SExpr>, tail: Option<SExpr>)
    requires Closes(close) && Items(ru, ts, depth, close, acc, tail).Ok?
    ensures ts != []
    ensures ts[0] == close ==> Items(ru, ts, depth, close, acc, tail) == Ok(Parsed(List(acc, tail), ts[1..]))
    ensures ts[0] != close && ts[0] == Dot ==>
      && tail.None? && acc != [] && Datum(ru, ts[1..], depth).Ok?
      && var p := Datum(ru, ts[1..], depth).value;
        Items(ru, ts, depth, close, acc, tail) == Items(ru, p.rest, depth, close, acc, Some(p.value))
    ensures ts[0] != close && ts[0] != Dot ==>
      && tail.None? && Datum(ru, ts, depth).Ok?
      && var p := Datum(ru, ts, depth).value;
        Items(ru, ts, depth, close, acc, tail) == Items(ru, p.rest, depth, close, acc + [p.value], None)
  {
    hide Datum;
  }

  /** The rest of a list: more elements, a dotted tail unless it was met already, the closer. */
  lemma {:induction false} ItemsAreSpelled(
    ru: Rules, ts: seq<Token>, depth: nat, close: Token, acc: seq<SExpr>, tail: Option<SExpr>)
    returns (cs: seq<Cst>, end: Option<Cst>)
    requires Closes(close) && Items(ru, ts, depth, close, acc, tail).Ok?
    ensures AllWellFormed(ru.isReal, cs) && (end.Some? ==> WellFormed(ru.isReal, end.value))
    ensures tail.Some? ==> cs == [] && end.None?
    ensures end.Some? ==> acc != [] || cs != []
    ensures var p := Items(ru, ts, depth, close, acc, tail).value;
      && AllPermitted(ru, depth, DenoteAll(ru.isReal, cs))
      && (end.Some? ==> Permitted(ru, depth, Denote(ru.isReal, end.value)))
      && p.value == List(acc + DenoteAll(ru.isReal, cs), if end.Some? then Some(Denote(ru.isReal, end.value)) else tail)
      && ts == UnparseAll(cs) + Ending(close, end, p.rest)
    decreases |ts|, 2
  {
    hide Items, Datum, WellFormed, Permitted, Denote, Unparse;
    ItemsCases(ru, ts, depth, close, acc, tail);
    var p := Items(ru, ts, depth, close, acc, tail).value;
    if ts[0] == close {
      cs, end := [], None;
      assert ts == [] + ([close] + ts[1..]);
      assert acc + [] == acc;
    } else if ts[0] == Dot {
      var last := Datum(ru, ts[1..], depth).value;
      var c := ParsedIsSpelled(ru, ts[1..], depth);
      var none, no := ItemsAreSpelled(ru, last.rest, depth, close, acc, Some(last.value));
      cs, end := [], Some(c);
      assert acc + [] == acc;
      DottedEnd(ts, c, close, last.rest, p.rest);
    } else {
      var first := Datum(ru, ts, depth).value;
      var c := ParsedIsSpelled(ru, ts, depth);
      var more;
      more, end := ItemsAreSpelled(ru, first.rest, depth, close, acc + [first.value], None);
      cs := [c] + more;
      hide AllPermitted, AllWellFormed, Ending, UnparseAll, DenoteAll;
      PrependSpelled(ru, ts, depth, c, more, first, Ending(close, end, p.rest));
      assert acc + ([first.value] + DenoteAll(ru.isReal, more)) == (acc + [first.value]) + DenoteAll(ru.isReal, more);
    }
  }

  // ---- What follows ----

  /** Strict reading accepts exactly the data every unquote of which has a quasiquote above it. */
  lemma StrictIffNoBareUnquote(isReal: string -> bool, ts: seq<Token>, depth: nat)
    ensures Datum(Rules(true, isReal), ts, depth).Ok? <==>
      && Datum(Rules(false, isReal), ts, depth).Ok?
      && (depth == 0 ==> !HasBareUnquote(Datum(Rules(false, isReal), ts, depth).value.value))
    ensures Datum(Rules(true, isReal), ts, depth).Ok? ==>
      Datum(Rules(true, isReal), ts, depth) == Datum(Rules(false, isReal), ts, depth)
  {
    hide Datum, WellFormed, Unparse, Denote, HasBareUnquote;
    var strict, lenient := Rules(true, isReal), Rules(false, isReal);
    if Datum(strict, ts, depth).Ok? {
      var c := ParsedIsSpelled(strict, ts, depth);
      ParseInvertsUnparse(lenient, c, Datum(strict, ts, depth).value.rest, depth);
    }
    if Datum(lenient, ts, depth).Ok? {
      var p := Datum(lenient, ts, depth).value;
      var c := ParsedIsSpelled(lenient, ts, depth);
      if depth == 0 ==> !HasBareUnquote(p.value) {
        ParseInvertsUnparse(strict, c, p.rest, depth);
      }
    }
  }

  /** One token stream spells one datum. */
  lemma SpellingIsUnambiguous(isReal: string -> bool, c: Cst, c': Cst, rest: seq<Token>, rest': seq<Token>)
    requires WellFormed(isReal, c) && WellFormed(isReal, c')
    requires Unparse(c) + rest == Unparse(c') + rest'
    ensures Denote(isReal, c) == Denote(isReal, c') && rest == rest'
  {
    hide Datum, WellFormed, Unparse, Denote;
    ParseInvertsUnparse(Rules(false, isReal), c, rest, 0);
    ParseInvertsUnparse(Rules(false, isReal), c', rest', 0);
  }
}
