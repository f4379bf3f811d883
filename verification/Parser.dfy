/** The recursive-descent parser: eta/core/src/eta/reader/parser.cpp. */
module Parsers {
  import opened Wrappers
  import opened SExprs
  import opened Numerals
  import opened Datums
  import opened DatumSkipping

  class Parser {
    const lexer: Lexer
    const rules: Rules
    var lookahead: Option<Token>
    var qqDepth: nat

    constructor (lexer: Lexer, rules: Rules)
      requires lexer.Valid()
      ensures this.lexer == lexer && this.rules == rules && Valid()
      ensures Rest() == lexer.Rest() && qqDepth == 0
    {
      this.lexer, this.rules := lexer, rules;
      lookahead, qqDepth := None, 0;
    }

    /** A token held back is the lexer's last one; at the end of the stream it has no place there. */
    ghost predicate Valid()
      reads this, lexer
    {
      && lexer.Valid()
      && (lookahead.Some? ==>
            && !lookahead.value.Bad?
            && (lookahead.value.Eof? ==> Head(lexer.Rest()).Eof?)
            && (!lookahead.value.Eof? ==> lexer.pos > 0 && lexer.tokens[lexer.pos - 1] == lookahead.value))
    }

    /** The tokens not yet consumed, the one held back included. */
    ghost function Rest(): seq<Token>
      requires Valid()
      reads this, lexer
    {
      if lookahead.Some? && !lookahead.value.Eof? then lexer.tokens[lexer.pos - 1..] else lexer.Rest()
    }

    method Peek() returns (t: Result<Token, ParseError>)
      requires Valid()
      modifies this`lookahead, lexer
      ensures Valid() && (t.Err? <==> Head(old(Rest())).Bad?)
      ensures t.Err? ==> t.error == FromLexer
      ensures t.Ok? ==> t.value == Head(Rest()) && Rest() == old(Rest()) && lookahead == Some(t.value)
    {
      if lookahead.Some? {
        return Ok(lookahead.value);
      }
      var token := lexer.NextToken();
      if token.Bad? {
        return Err(FromLexer);
      }
      lookahead := Some(token);
      t := Ok(token);
    }

    /** Takes the token that was peeked at. */
    method Advance() returns (t: Token)
      requires Valid() && lookahead.Some? && !lookahead.value.Eof?
      modifies this`lookahead
      ensures Valid() && t == Head(old(Rest()))
      ensures Rest() == old(Rest())[1..] && old(Rest()) != []
    {
      t := lookahead.value;
      lookahead := None;
    }

    method ParseDatum() returns (r: Result<SExpr, ParseError>)
      requires Valid()
      modifies this`lookahead, this`qqDepth, lexer
      decreases |Rest()|, 0
      ensures Outcome(r, Datum(rules, old(Rest()), old(qqDepth)), old(qqDepth))
    {
      hide Datum, Items, VectorItems, ByteItems, Abbreviated, AtomOf, Valid, Rest;
      DatumCases(rules, Rest(), qqDepth);
      var peeked := Peek();
      if peeked.Err? {
        return Err(peeked.error);
      }
      match peeked.value {
        case LParen =>
          var open := Advance();
          r := ParseList(RParen);
        case LBracket =>
          var open := Advance();
          r := ParseList(RBracket);
        case VectorStart =>
          var open := Advance();
          r := ParseVector();
        case ByteVectorStart =>
          var open := Advance();
          r := ParseByteVector();
        case QuoteMark =>
          var mark := Advance();
          r := ParseAbbreviation(Quote);
        case Backtick =>
          var mark := Advance();
          r := ParseAbbreviation(Quasiquote);
        case Comma =>
          var mark := Advance();
          r := ParseAbbreviation(Unquote);
        case CommaAt =>
          var mark := Advance();
          r := ParseAbbreviation(UnquoteSplicing);
        case RParen | RBracket =>
          r := Err(UnexpectedClosingDelimiter);
        case Dot =>
          r := Err(MisplacedDot);
        case Eof =>
          r := Err(UnexpectedEOF);
        case BoolToken(_) | CharToken(_) | StringToken(_) | SymbolToken(_) | NumberToken(_) =>
          var atom := Advance();
          r := ParseAtom(atom);
        case Bad =>
          assert false;
      }
    }

    /** What a parsing method leaves behind; after an error the quasiquote depth may stay raised. */
    ghost predicate Outcome(r: Result<SExpr, ParseError>, spec: Result<Parsed<SExpr>, ParseError>, depth: nat)
      reads this, lexer
    {
      && Valid()
      && (spec.Err? ==> r == Err(spec.error) && qqDepth >= depth)
      && (spec.Ok? ==> r == Ok(spec.value.value) && Rest() == spec.value.rest && qqDepth == depth)
    }

    method ParseAtom(t: Token) returns (r: Result<SExpr, ParseError>)
      requires IsAtom(t)
      ensures r == AtomOf(rules.isReal, t)
    {
      match t {
        case BoolToken(b) =>
          return Ok(Bool(b));
        case CharToken(c) =>
          return Ok(Char(c));
        case StringToken(s) =>
          return Ok(Str(s));
        case SymbolToken(n) =>
          if n == "Nil" {
            return Ok(Nil);
          }
          return Ok(Sym(n));
        case NumberToken(n) =>
          if n.FixnumText? {
            var v := ReadFixnum(n.text, n.radix.Base());
            if v.Some? {
              return Ok(Num(Fixnum(v.value)));
            }
            if !n.radix.Ten? {
              return Err(InvalidNumericLiteral);
            }
          }
          if !rules.isReal(n.text) {
            return Err(InvalidNumericLiteral);
          }
          return Ok(Num(Flonum(n.text)));
      }
    }

    method ParseAbbreviation(kind: QuoteKind) returns (r: Result<SExpr, ParseError>)
      requires Valid()
      modifies this`lookahead, this`qqDepth, lexer
      decreases |Rest()|, 1
      ensures Outcome(r, Abbreviated(rules, old(Rest()), old(qqDepth), kind), old(qqDepth))
    {
      hide Datum;
      if rules.strict && (kind.Unquote? || kind.UnquoteSplicing?) && qqDepth == 0 {
        return Err(UnquoteOutsideQuasiquote);
      }
      if kind.Quasiquote? {
        qqDepth := qqDepth + 1;
      }
      r := ParseDatum();
      if r.Err? {
        return;
      }
      if kind.Quasiquote? {
        qqDepth := qqDepth - 1;
      }
      r := Ok(Reader(kind, r.value));
    }

    method ParseList(close: Token) returns (r: Result<SExpr, ParseError>)
      requires Valid() && (close.RParen? || close.RBracket?)
      modifies this`lookahead, this`qqDepth, lexer
      decreases |Rest()|, 1
      ensures Outcome(r, Items(rules, old(Rest()), old(qqDepth), close, [], None), old(qqDepth))
    {
      hide Items, Datum;
      var elems: seq<SExpr> := [];
      var tail: Option<SExpr> := None;
      while true
        invariant Valid() && qqDepth == old(qqDepth) && |Rest()| <= |old(Rest())|
        invariant Items(rules, Rest(), qqDepth, close, elems, tail)
          == Items(rules, old(Rest()), qqDepth, close, [], None)
        decreases |Rest()|
      {
        ItemsTurn(rules, Rest(), qqDepth, close, elems, tail);
        var peeked := Peek();
        if peeked.Err? {
          return Err(peeked.error);
        }
        var t := peeked.value;
        if t.Eof? {
          return Err(UnclosedList);
        }
        if t == close {
          var closer := Advance();
          return Ok(List(elems, tail));
        }
        if t.RParen? || t.RBracket? {
          return Err(UnclosedList);
        }
        if t.Dot? {
          if tail.Some? {
            return Err(MultipleDotsInDottedList);
          }
          if elems == [] {
            return Err(DotAtListStart);
          }
          var dot := Advance();
          r := ParseDatum();
          if r.Err? {
            return;
          }
          tail := Some(r.value);
          continue;
        }
        r := ParseDatum();
        if r.Err? {
          return;
        }
        if tail.Some? {
          return Err(MisplacedDot);
        }
        elems := elems + [r.value];
      }
    }

    method ParseVector() returns (r: Result<SExpr, ParseError>)
      requires Valid()
      modifies this`lookahead, this`qqDepth, lexer
      decreases |Rest()|, 1
      ensures Outcome(r, VectorItems(rules, old(Rest()), old(qqDepth), []), old(qqDepth))
    {
      hide VectorItems, Datum;
      var items: seq<SExpr> := [];
      while true
        invariant Valid() && qqDepth == old(qqDepth) && |Rest()| <= |old(Rest())|
        invariant VectorItems(rules, Rest(), qqDepth, items) == VectorItems(rules, old(Rest()), qqDepth, [])
        decreases |Rest()|
      {
        VectorTurn(rules, Rest(), qqDepth, items);
        var peeked := Peek();
        if peeked.Err? {
          return Err(peeked.error);
        }
        var t := peeked.value;
        if t.Eof? {
          return Err(UnclosedVector);
        }
        if t.RParen? {
          var closer := Advance();
          return Ok(Vector(items));
        }
        if t.Dot? {
          return Err(DotInVector);
        }
        r := ParseDatum();
        if r.Err? {
          return;
        }
        items := items + [r.value];
      }
    }

    method ParseByteVector() returns (r: Result<SExpr, ParseError>)
      requires Valid()
      modifies this`lookahead, lexer
      ensures Outcome(r, ByteItems(old(Rest()), []), old(qqDepth)) && qqDepth == old(qqDepth)
    {
      hide ByteItems, ByteOf;
      var bytes: seq<nat> := [];
      while true
        invariant Valid() && qqDepth == old(qqDepth)
        invariant ByteItems(Rest(), bytes) == ByteItems(old(Rest()), [])
        decreases |Rest()|
      {
        BytesTurn(Rest(), bytes);
        var peeked := Peek();
        if peeked.Err? {
          return Err(peeked.error);
        }
        var t := peeked.value;
        if t.Eof? {
          return Err(UnclosedVector);
        }
        if t.RParen? {
          var closer := Advance();
          return Ok(Bytes(bytes));
        }
        if !t.NumberToken? {
          return Err(ByteVectorNonInteger);
        }
        var number := Advance();
        if number.literal.FlonumText? {
          return Err(InvalidByteLiteral);
        }
        var byte := ParseByteLiteral(number.literal.text, number.literal.radix);
        if byte.None? {
          return Err(InvalidByteLiteral);
        }
        bytes := bytes + [byte.value];
      }
    }
  }

  /** The specification's cases, one line each. */
  lemma DatumCases(ru: Rules, ts: seq<Token>, depth: nat)
    ensures var t, r := Head(ts), Datum(ru, ts, depth);
      && (t.LParen? ==> r == Items(ru, ts[1..], depth, RParen, [], None))
      && (t.LBracket? ==> r == Items(ru, ts[1..], depth, RBracket, [], None))
      && (t.VectorStart? ==> r == VectorItems(ru, ts[1..], depth, []))
      && (t.ByteVectorStart? ==> r == ByteItems(ts[1..], []))
      && (KindOf(t).Some? ==> r == Abbreviated(ru, ts[1..], depth, KindOf(t).value))
      && (IsAtom(t) && AtomOf(ru.isReal, t).Ok? ==> r == Ok(Parsed(AtomOf(ru.isReal, t).value, ts[1..])))
      && (IsAtom(t) && AtomOf(ru.isReal, t).Err? ==> r == Err(AtomOf(ru.isReal, t).error))
      && (t.Dot? || t.Eof? || t.Bad? || t.RParen? || t.RBracket? ==> r == Err(NoDatum(t)))
  {
    hide Items, VectorItems, ByteItems, Abbreviated, AtomOf;
  }

  lemma ItemsTurn(ru: Rules, ts: seq<Token>, depth: nat, close: Token, elems: seq<SExpr>, tail: Option<SExpr>)
    requires close.RParen? || close.RBracket?
    ensures var t, r, d := Head(ts), Items(ru, ts, depth, close, elems, tail), Datum(ru, ts, depth);
      var d1 := if ts == [] then d else Datum(ru, ts[1..], depth);
      && (t.Bad? ==> r == Err(FromLexer))
      && (t.Eof? ==> r == Err(UnclosedList))
      && (t == close ==> r == Ok(Parsed(List(elems, tail), ts[1..])))
      && ((t.RParen? || t.RBracket?) && t != close ==> r == Err(UnclosedList))
      && (t.Dot? && tail.Some? ==> r == Err(MultipleDotsInDottedList))
      && (t.Dot? && tail.None? && elems == [] ==> r == Err(DotAtListStart))
      && (t.Dot? && tail.None? && elems != [] ==>
            (d1.Ok? ==> r == Items(ru, d1.value.rest, depth, close, elems, Some(d1.value.value)))
            && (d1.Err? ==> r == Err(d1.error)))
      && (!(t.Bad? || t.Eof? || t.RParen? || t.RBracket? || t.Dot?) ==>
            (d.Ok? && tail.Some? ==> r == Err(MisplacedDot))
            && (d.Ok? && tail.None? ==> r == Items(ru, d.value.rest, depth, close, elems + [d.value.value], tail))
            && (d.Err? ==> r == Err(d.error)))
  {
    hide Datum;
  }

  lemma VectorTurn(ru: Rules, ts: seq<Token>, depth: nat, items: seq<SExpr>)
    ensures var t, r, d := Head(ts), VectorItems(ru, ts, depth, items), Datum(ru, ts, depth);
      && (t.Bad? ==> r == Err(FromLexer))
      && (t.Eof? ==> r == Err(UnclosedVector))
      && (t.RParen? ==> r == Ok(Parsed(Vector(items), ts[1..])))
      && (t.Dot? ==> r == Err(DotInVector))
      && (!(t.Bad? || t.Eof? || t.RParen? || t.Dot?) ==>
            (d.Ok? ==> r == VectorItems(ru, d.value.rest, depth, items + [d.value.value]))
            && (d.Err? ==> r == Err(d.error)))
  {
    hide Datum;
  }

  lemma BytesTurn(ts: seq<Token>, bytes: seq<nat>)
    ensures var t, r, b := Head(ts), ByteItems(ts, bytes), ByteOfToken(Head(ts));
      && (t.Bad? ==> r == Err(FromLexer))
      && (t.Eof? ==> r == Err(UnclosedVector))
      && (t.RParen? ==> r == Ok(Parsed(Bytes(bytes), ts[1..])))
      && (!(t.Bad? || t.Eof? || t.RParen?) ==>
            (b.Ok? ==> r == ByteItems(ts[1..], bytes + [b.value])) && (b.Err? ==> r == Err(b.error)))
  {
    hide ByteOf;
  }
}
