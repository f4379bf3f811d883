/**
 Skipping a datum comment (`skip_datum`, eta/core/src/eta/reader/lexer.cpp). The lexer counts
 brackets of any shape instead of parsing; where parsing succeeds, both stop at the same token.
 */
module DatumSkipping {
  import opened Wrappers
  import opened Datums
  import opened DatumGrammar

  datatype SkipError = FromNextToken | UnterminatedComment | ExpectedDatum

  predicate OpensNested(t: Token) {
    t.LParen? || t.VectorStart? || t.ByteVectorStart? || t.LBracket?
  }

  /** The inner loop: passes tokens until `depth` brackets have been closed. */
  function SkipNested(ts: seq<Token>, depth: nat): (r: Result<seq<Token>, SkipError>)
    ensures r.Ok? ==> |r.value| <= |ts|
    decreases |ts|
  {
    if depth == 0 then Ok(ts)
    else
      var t := Head(ts);
      if t.Bad? then Err(FromNextToken)
      else if t.Eof? then Err(UnterminatedComment)
      else if OpensNested(t) then SkipNested(ts[1..], depth + 1)
      else if Closes(t) then SkipNested(ts[1..], depth - 1)
      else SkipNested(ts[1..], depth)
  }

  /** The outer loop: passes tokens and nested brackets until the given closer. */
  function SkipUntil(ts: seq<Token>, close: Token): (r: Result<seq<Token>, SkipError>)
    ensures r.Ok? ==> |r.value| < |ts|
    decreases |ts|
  {
    var t := Head(ts);
    if t.Bad? then Err(FromNextToken)
    else if t.Eof? then Err(UnterminatedComment)
    else if t == close then Ok(ts[1..])
    else if OpensNested(t) then
      match SkipNested(ts[1..], 1)
      case Ok(rest) => SkipUntil(rest, close)
      case Err(e) => Err(e)
    else SkipUntil(ts[1..], close)
  }

  function Skip(ts: seq<Token>): (r: Result<seq<Token>, SkipError>)
    ensures r.Ok? ==> |r.value| < |ts|
    decreases |ts|
  {
    var t := Head(ts);
    if t.Bad? || t.Eof? then Err(UnterminatedComment)
    else if t.LBracket? then SkipUntil(ts[1..], RBracket)
    else if OpensNested(t) then SkipUntil(ts[1..], RParen)
    else if KindOf(t).Some? then Skip(ts[1..])
    else if IsAtom(t) then Ok(ts[1..])
    else Err(ExpectedDatum)
  }

  // ---- The lexer's loops ----

  /** The token stream the lexer delivers; past its end every token is `Eof`. */
  class Lexer {
    const tokens: seq<Token>
    var pos: nat

    constructor (tokens: seq<Token>)
      ensures this.tokens == tokens && pos == 0
    {
      this.tokens, pos := tokens, 0;
    }

    ghost predicate Valid()
      reads this
    {
      pos <= |tokens|
    }

    function Rest(): seq<Token>
      requires Valid()
      reads this
    {
      tokens[pos..]
    }

    method NextToken() returns (t: Token)
      requires Valid()
      modifies this
      ensures Valid() && t == Head(old(Rest()))
      ensures Rest() == if t.Eof? then old(Rest()) else old(Rest())[1..]
    {
      if pos == |tokens| || tokens[pos].Eof? {
        return Eof;
      }
      t, pos := tokens[pos], pos + 1;
    }

    method SkipDatum() returns (r: Option<SkipError>)
      requires Valid()
      modifies this
      ensures Valid() && (r.Some? <==> Skip(old(Rest())).Err?)
      ensures r.Some? ==> Skip(old(Rest())) == Err(r.value)
      ensures r.None? ==> Skip(old(Rest())) == Ok(Rest())
      decreases |Rest()|
    {
      var t := NextToken();
      if t.Bad? || t.Eof? {
        return Some(UnterminatedComment);
      }
      match t {
        case LParen | VectorStart | ByteVectorStart =>
          r := SkipToCloser(RParen);
        case LBracket =>
          r := SkipToCloser(RBracket);
        case QuoteMark | Backtick | Comma | CommaAt =>
          r := SkipDatum();
        case RParen | RBracket | Dot =>
          return Some(ExpectedDatum);
        case BoolToken(_) | CharToken(_) | StringToken(_) | SymbolToken(_) | NumberToken(_) =>
          return None;
        case Eof | Bad =>
          assert false;
      }
    }

    method SkipToCloser(close: Token) returns (r: Option<SkipError>)
      requires Valid()
      modifies this
      ensures Valid() && (r.Some? <==> SkipUntil(old(Rest()), close).Err?)
      ensures r.Some? ==> SkipUntil(old(Rest()), close) == Err(r.value)
      ensures r.None? ==> SkipUntil(old(Rest()), close) == Ok(Rest())
    {
      while true
        invariant Valid()
        invariant SkipUntil(Rest(), close) == SkipUntil(old(Rest()), close)
        decreases |Rest()|
      {
        var t := NextToken();
        if t.Bad? {
          return Some(FromNextToken);
        }
        if t.Eof? {
          return Some(UnterminatedComment);
        }
        if t == close {
          return None;
        }
        if OpensNested(t) {
          r := SkipBrackets();
          if r.Some? {
            return;
          }
        }
      }
    }

    method SkipBrackets() returns (r: Option<SkipError>)
      requires Valid()
      modifies this
      ensures Valid() && (r.Some? <==> SkipNested(old(Rest()), 1).Err?)
      ensures r.Some? ==> SkipNested(old(Rest()), 1) == Err(r.value)
      ensures r.None? ==> SkipNested(old(Rest()), 1) == Ok(Rest())
    {
      var depth := 1;
      while depth > 0
        invariant Valid() && depth >= 0
        invariant SkipNested(Rest(), depth) == SkipNested(old(Rest()), 1)
        decreases |Rest()|
      {
        var t := NextToken();
        if t.Bad? {
          return Some(FromNextToken);
        }
        if t.Eof? {
          return Some(UnterminatedComment);
        }
        if OpensNested(t) {
          depth := depth + 1;
        } else if Closes(t) {
          depth := depth - 1;
        }
      }
      r := None;
    }
  }

  // ---- Agreement with parsing ----

  /** Where a datum parses, skipping it succeeds and stops at exactly the same token. */
  lemma SkippingAgreesWithParsing(ru: Rules, ts: seq<Token>, depth: nat)
    requires Datum(ru, ts, depth).Ok?
    ensures Skip(ts) == Ok(Datum(ru, ts, depth).value.rest)
  {
    hide Datum, Skip, Unparse, Denote, WellFormed;
    var c := ParsedIsSpelled(ru, ts, depth);
    SkipsTree(ru.isReal, c, Datum(ru, ts, depth).value.rest);
  }

  /** The tokens before `rest` spell a tree that the rules permit at this depth. */
  ghost predicate PassesTree(ru: Rules, c: Cst, ts: seq<Token>, rest: seq<Token>, depth: nat) {
    WellFormed(ru.isReal, c) && Permitted(ru, depth, Denote(ru.isReal, c)) && ts == Unparse(c) + rest
  }

  /** What is skipped parses exactly when the tokens passed are those of one permitted tree. */
  lemma SkippedParsesIff(ru: Rules, ts: seq<Token>, depth: nat)
    requires Skip(ts).Ok?
    ensures Datum(ru, ts, depth).Ok? <==> exists c :: PassesTree(ru, c, ts, Skip(ts).value, depth)
  {
    hide Datum, Skip, Unparse, Denote, WellFormed, Permitted;
    if Datum(ru, ts, depth).Ok? {
      SkippingAgreesWithParsing(ru, ts, depth);
      var c := ParsedIsSpelled(ru, ts, depth);
      assert PassesTree(ru, c, ts, Skip(ts).value, depth);
    } else if c :| PassesTree(ru, c, ts, Skip(ts).value, depth) {
      ParseInvertsUnparse(ru, c, Skip(ts).value, depth);
    }
  }

  /** Not everything skipped parses: a list closed by the wrong bracket inside is passed over. */
  lemma SkippingAcceptsMore(ru: Rules, rest: seq<Token>)
    ensures var ts := [LParen] + ([RBracket] + ([RParen] + rest)); Skip(ts) == Ok(rest) && Datum(ru, ts, 0) == Err(UnclosedList)
  {
    var us := [RParen] + rest;
    var vs := [RBracket] + us;
    Uncons(RParen, rest);
    Uncons(RBracket, us);
    Uncons(LParen, vs);
    assert SkipUntil(vs, RParen) == SkipUntil(us, RParen);
  }

  /** The tokens after a bracketed tree's opener. */
  function Inside(c: Cst): seq<Token>
    requires Bracketed(c)
    ensures Unparse(c) == [Unparse(c)[0]] + Inside(c) && OpensNested(Unparse(c)[0])
  {
    match c
    case ListOf(square, elems, tail) => UnparseAll(elems) + Ending(Closer(square), tail, [])
    case VectorOf(items) => UnparseAll(items) + [RParen]
    case BytesOf(tokens) => tokens + [RParen]
  }

  predicate Bracketed(c: Cst) {
    c.ListOf? || c.VectorOf? || c.BytesOf?
  }

  lemma TreeTokens(c: Cst, next: seq<Token>)
    ensures var ts := Unparse(c) + next;
      && ts != []
      && (c.Atom? ==> ts[0] == c.token && ts[1..] == next)
      && (c.Abbreviation? ==> ts[0] == Mark(c.kind) && ts[1..] == Unparse(c.of) + next)
      && (Bracketed(c) ==> OpensNested(ts[0]) && ts[1..] == Inside(c) + next)
      && (Bracketed(c) ==> (ts[0] == LBracket <==> c.ListOf? && c.square))
  {
    hide UnparseAll, Inside;
    if c.Abbreviation? {
      Regroup([Mark(c.kind)], Unparse(c.of), next);
    } else if Bracketed(c) {
      OpenerFirst(c);
      Regroup([Unparse(c)[0]], Inside(c), next);
    }
  }

  lemma OpenerFirst(c: Cst)
    requires Bracketed(c)
    ensures Unparse(c) != [] && (Unparse(c)[0] == LBracket <==> c.ListOf? && c.square)
  {
  }

  lemma InsideTokens(c: Cst, next: seq<Token>)
    requires Bracketed(c)
    ensures var closed := [CloserOf(c)] + next;
      && (c.ListOf? ==> Inside(c) + next == UnparseAll(c.elems) + Ending(CloserOf(c), c.tail, next))
      && (c.VectorOf? ==> Inside(c) + next == UnparseAll(c.items) + closed)
      && (c.BytesOf? ==> Inside(c) + next == c.tokens + closed)
      && closed[1..] == next
  {
    hide UnparseAll, Unparse;
    match c
    case ListOf(square, elems, tail) =>
      EndingSplits(Closer(square), tail, next);
      Regroup(UnparseAll(elems), Ending(Closer(square), tail, []), next);
    case VectorOf(items) => Regroup(UnparseAll(items), [RParen], next);
    case BytesOf(tokens) => Regroup(tokens, [RParen], next);
  }

  lemma EndingSplits(close: Token, tail: Option<Cst>, next: seq<Token>)
    ensures Ending(close, tail, next) == Ending(close, tail, []) + next
  {
    hide Unparse;
    if tail.Some? {
      var u := Unparse(tail.value);
      assert [close] + [] == [close];
      assert u + ([close] + next) == (u + [close]) + next;
      Regroup([Dot], u + [close], next);
    }
  }

  lemma EndingTokens(close: Token, tail: Option<Cst>, next: seq<Token>)
    ensures var e := Ending(close, tail, next);
      && e != []
      && (tail.None? ==> e[0] == close && e[1..] == next)
      && (tail.Some? ==> e[0] == Dot && e[1..] == Unparse(tail.value) + ([close] + next))
  {
  }

  lemma {:induction false} SkipsTree(isReal: string -> bool, c: Cst, rest: seq<Token>)
    requires WellFormed(isReal, c)
    ensures Skip(Unparse(c) + rest) == Ok(rest)
  {
    hide Unparse, SkipUntil;
    TreeTokens(c, rest);
    if c.Abbreviation? {
      SkipsTree(isReal, c.of, rest);
    } else if Bracketed(c) {
      SkipsInside(isReal, c, rest);
    }
  }

  function CloserOf(c: Cst): Token {
    if c.ListOf? then Closer(c.square) else RParen
  }

  lemma SkipsInside(isReal: string -> bool, c: Cst, rest: seq<Token>)
    requires Bracketed(c) && WellFormed(isReal, c)
    ensures SkipUntil(Inside(c) + rest, CloserOf(c)) == Ok(rest)
  {
    hide Unparse, UnparseAll, Inside, Ending;
    var close := CloserOf(c);
    var closed := [close] + rest;
    InsideTokens(c, rest);
    match c
    case ListOf(_, elems, tail) =>
      EndingTokens(close, tail, rest);
      UntilPassesAll(isReal, elems, Ending(close, tail, rest), close);
      if tail.Some? {
        UntilPasses(isReal, tail.value, closed, close);
      }
    case VectorOf(items) =>
      UntilPassesAll(isReal, items, closed, close);
    case BytesOf(tokens) =>
      UntilPassesBytes(tokens, closed, close);
  }

  lemma {:induction false} UntilPassesAll(isReal: string -> bool, cs: seq<Cst>, after: seq<Token>, close: Token)
    requires AllWellFormed(isReal, cs) && Closes(close)
    ensures SkipUntil(UnparseAll(cs) + after, close) == SkipUntil(after, close)
  {
    if cs == [] {
      assert UnparseAll(cs) + after == after;
    } else {
      var next := UnparseAll(cs[1..]) + after;
      Regroup(Unparse(cs[0]), UnparseAll(cs[1..]), after);
      UntilPasses(isReal, cs[0], next, close);
      UntilPassesAll(isReal, cs[1..], after, close);
    }
  }

  lemma {:induction false} UntilPassesBytes(tokens: seq<Token>, after: seq<Token>, close: Token)
    requires AllBytes(tokens) && Closes(close)
    ensures SkipUntil(tokens + after, close) == SkipUntil(after, close)
  {
    if tokens == [] {
      assert tokens + after == after;
    } else {
      assert (tokens + after)[1..] == tokens[1..] + after;
      UntilPassesBytes(tokens[1..], after, close);
    }
  }

  lemma {:induction false} UntilPasses(isReal: string -> bool, c: Cst, next: seq<Token>, close: Token)
    requires WellFormed(isReal, c) && Closes(close)
    ensures SkipUntil(Unparse(c) + next, close) == SkipUntil(next, close)
  {
    hide Unparse, Inside;
    TreeTokens(c, next);
    if c.Abbreviation? {
      UntilPasses(isReal, c.of, next, close);
    } else if Bracketed(c) {
      NestedPassesInside(isReal, c, next, 0);
    }
  }

  // ---- The bracket counter ----

  /** Passing a tree leaves the count as it was. */
  lemma {:induction false} NestedPasses(isReal: string -> bool, c: Cst, next: seq<Token>, depth: nat)
    requires WellFormed(isReal, c) && depth > 0
    ensures SkipNested(Unparse(c) + next, depth) == SkipNested(next, depth)
    decreases c, 1
  {
    hide Unparse, Inside;
    TreeTokens(c, next);
    if c.Abbreviation? {
      NestedPasses(isReal, c.of, next, depth);
    } else if Bracketed(c) {
      NestedPassesInside(isReal, c, next, depth);
    }
  }

  /** The rest of a bracketed tree closes the one bracket it was opened with. */
  lemma {:induction false} NestedPassesInside(isReal: string -> bool, c: Cst, next: seq<Token>, depth: nat)
    requires Bracketed(c) && WellFormed(isReal, c)
    ensures SkipNested(Inside(c) + next, depth + 1) == SkipNested(next, depth)
    decreases c, 0
  {
    hide Unparse, UnparseAll, Inside, Ending, SkipNested;
    var closed := [CloserOf(c)] + next;
    InsideTokens(c, next);
    NestedPassesToken(closed, depth + 1);
    match c
    case ListOf(_, elems, tail) =>
      var end := Ending(CloserOf(c), tail, next);
      EndingTokens(CloserOf(c), tail, next);
      NestedPassesAll(isReal, elems, end, depth + 1);
      NestedPassesToken(end, depth + 1);
      if tail.Some? {
        NestedPasses(isReal, tail.value, closed, depth + 1);
      }
    case VectorOf(items) =>
      NestedPassesAll(isReal, items, closed, depth + 1);
    case BytesOf(tokens) =>
      NestedPassesBytes(tokens, closed, depth + 1);
  }

  lemma NestedPassesToken(ts: seq<Token>, depth: nat)
    requires ts != [] && !ts[0].Bad? && !ts[0].Eof? && !OpensNested(ts[0]) && depth > 0
    ensures SkipNested(ts, depth) == SkipNested(ts[1..], if Closes(ts[0]) then depth - 1 else depth)
  {
  }

  lemma {:induction false} NestedPassesAll(isReal: string -> bool, cs: seq<Cst>, after: seq<Token>, depth: nat)
    requires AllWellFormed(isReal, cs) && depth > 0
    ensures SkipNested(UnparseAll(cs) + after, depth) == SkipNested(after, depth)
    decreases cs
  {
    if cs == [] {
      assert UnparseAll(cs) + after == after;
    } else {
      var next := UnparseAll(cs[1..]) + after;
      Regroup(Unparse(cs[0]), UnparseAll(cs[1..]), after);
      NestedPasses(isReal, cs[0], next, depth);
      NestedPassesAll(isReal, cs[1..], after, depth);
    }
  }

  lemma {:induction false} NestedPassesBytes(tokens: seq<Token>, after: seq<Token>, depth: nat)
    requires AllBytes(tokens) && depth > 0
    ensures SkipNested(tokens + after, depth) == SkipNested(after, depth)
  {
    if tokens == [] {
      assert tokens + after == after;
    } else {
      assert (tokens + after)[1..] == tokens[1..] + after;
      NestedPassesBytes(tokens[1..], after, depth);
    }
  }
}
