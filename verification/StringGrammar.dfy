/**
 String literals as a grammar: what the lexer accepts is exactly a spelling of pieces, its text
 is well-formed UTF-8, and every string of scalar values has a literal that reads back as it.
 */
module StringGrammar {
  import opened Wrappers
  import opened Utf8
  import opened StringLiterals

  /** `Raw` holds the bytes of one source character, which may be overlong. */
  datatype Piece = Raw(bytes: seq<Byte>) | Simple(letter: Byte) | Hex(x: Byte, digits: seq<Byte>)

  ghost predicate IsPiece(p: Piece) {
    match p
    case Raw(bytes) =>
      && bytes != [] && |bytes| == SequenceLength(bytes[0]) && Decode(bytes).Ok?
      && bytes[0] != QUOTE && bytes[0] != BACKSLASH && bytes[0] != NEWLINE
    case Simple(letter) => SimpleEscape(letter).Some? && !IsHexX(letter)
    case Hex(x, digits) =>
      IsHexX(x) && digits != [] && (forall i :: 0 <= i < |digits| ==> IsHexDigit(digits[i])) && IsScalar(HexNumber(digits))
  }

  function Spelling(p: Piece): seq<Byte> {
    match p
    case Raw(bytes) => bytes
    case Simple(letter) => [BACKSLASH, letter]
    case Hex(x, digits) => [BACKSLASH, x] + digits + [SEMICOLON]
  }

  /** The scalar value a piece stands for. */
  function Meaning(p: Piece): nat
    requires IsPiece(p)
  {
    match p
    case Raw(bytes) => Decode(bytes).value
    case Simple(letter) => SimpleEscape(letter).value
    case Hex(_, digits) => HexNumber(digits)
  }

  ghost predicate AllPieces(ps: seq<Piece>) {
    forall i :: 0 <= i < |ps| ==> IsPiece(ps[i])
  }

  function Spell(ps: seq<Piece>): seq<Byte> {
    if ps == [] then [] else Spelling(ps[0]) + Spell(ps[1..])
  }

  function Meanings(ps: seq<Piece>): seq<nat>
    requires AllPieces(ps)
  {
    if ps == [] then [] else [Meaning(ps[0])] + Meanings(ps[1..])
  }

  // ---- One piece ----

  lemma {:induction false} HexRunStops(digits: seq<Byte>, rest: seq<Byte>)
    requires forall i :: 0 <= i < |digits| ==> IsHexDigit(digits[i])
    requires rest == [] || !IsHexDigit(rest[0])
    ensures HexRun(digits + rest) == |digits|
  {
    if digits == [] {
      assert digits + rest == rest;
    } else {
      assert (digits + rest)[1..] == digits[1..] + rest;
      HexRunStops(digits[1..], rest);
    }
  }

  /** A hex escape is accepted exactly when its exact value is a scalar value. */
  lemma HexEscapeIsExact(digits: seq<Byte>, rest: seq<Byte>)
    requires digits != [] && forall i :: 0 <= i < |digits| ==> IsHexDigit(digits[i])
    ensures HexEscape(digits + ([SEMICOLON] + rest)) ==
      if IsScalar(HexNumber(digits)) then Ok(Read(HexNumber(digits), rest)) else Err(InvalidCodePoint)
    ensures HexEscape(digits) ==
      if IsScalar(HexNumber(digits)) then Ok(Read(HexNumber(digits), [])) else Err(InvalidCodePoint)
  {
    hide HexNumber, IsScalar;
    var s := digits + ([SEMICOLON] + rest);
    HexRunStops(digits, [SEMICOLON] + rest);
    HexRunStops(digits, []);
    assert digits + [] == digits;
    assert s[..|digits|] == digits && s[|digits| + 1..] == rest && digits[..|digits|] == digits;
  }

  /** Decoding looks no further than the sequence its lead byte announces. */
  lemma DecodeIsLocal(s: seq<Byte>)
    requires s != [] && SequenceLength(s[0]) <= |s|
    ensures Decode(s) == Decode(s[..SequenceLength(s[0])])
  {
    hide Continue, IsScalar, Payload;
    var n := SequenceLength(s[0]);
    var e := s[..n];
    assert e[0] == s[0];
    if Need(s[0]).Some? {
      assert Need(s[0]).value == n - 1;
      assert s[1..n] == e[1..n];
    }
  }

  lemma RawElement(bytes: seq<Byte>, rest: seq<Byte>)
    requires IsPiece(Raw(bytes))
    ensures Element(bytes + rest) == Ok(Read(Decode(bytes).value, rest))
  {
    hide Decode;
    var s := bytes + rest;
    assert s[0] == bytes[0] && s[..|bytes|] == bytes && s[|bytes|..] == rest;
    DecodeIsLocal(s);
    PlainElement(s);
    if s[0] < 0x80 {
      DecodeAscii(s);
    }
  }

  lemma DecodeAscii(s: seq<Byte>)
    requires s != [] && s[0] < 0x80
    ensures Decode(s) == Ok(s[0])
  {
    assert s[1..1] == [];
  }

  lemma ElementReadsPiece(p: Piece, rest: seq<Byte>)
    requires IsPiece(p)
    ensures var s := Spelling(p) + rest;
      s != [] && s[0] != QUOTE && Element(s) == Ok(Read(Meaning(p), rest))
  {
    hide HexEscape, Decode, HexNumber;
    match p
    case Raw(bytes) =>
      RawElement(bytes, rest);
    case Simple(letter) =>
      var s := [BACKSLASH, letter] + rest;
      assert s[2..] == rest;
    case Hex(x, digits) =>
      var s := [BACKSLASH, x] + digits + [SEMICOLON] + rest;
      assert s[2..] == digits + ([SEMICOLON] + rest);
      HexEscapeIsExact(digits, rest);
  }

  // ---- Whole literals ----

  /** The text of a spelled literal is the encoding of what its pieces mean. */
  lemma {:induction false} ReadingInvertsSpelling(ps: seq<Piece>, rest: seq<Byte>, text: seq<Byte>)
    requires AllPieces(ps)
    ensures Body(Spell(ps) + ([QUOTE] + rest), text) == Ok(Read(text + EncodeAll(Meanings(ps)), rest))
    decreases ps
  {
    hide Element, Encode, Spelling, Meaning, IsPiece;
    var closed := [QUOTE] + rest;
    if ps == [] {
      assert Spell(ps) + closed == closed && closed[1..] == rest;
      assert text + [] == text;
    } else {
      var next := Spell(ps[1..]) + closed;
      assert Spell(ps) + closed == Spelling(ps[0]) + next;
      ElementReadsPiece(ps[0], next);
      var e, more := Encode(Meaning(ps[0])), EncodeAll(Meanings(ps[1..]));
      ReadingInvertsSpelling(ps[1..], rest, text + e);
      assert (text + e) + more == text + (e + more);
    }
  }

  lemma HexPiece(s: seq<Byte>) returns (p: Piece)
    requires |s| > 1 && s[0] == BACKSLASH && IsHexX(s[1]) && HexEscape(s[2..]).Ok?
    requires HexEscape(s[2..]).value.rest != []
    ensures IsPiece(p) && Meaning(p) == HexEscape(s[2..]).value.value
    ensures s == Spelling(p) + HexEscape(s[2..]).value.rest
  {
    hide HexNumber, IsScalar;
    var t := s[2..];
    var n := HexRun(t);
    var digits := t[..n];
    p := Hex(s[1], digits);
    assert t == digits + ([t[n]] + t[n + 1..]);
    assert s == [s[0], s[1]] + t;
  }

  lemma RawPiece(s: seq<Byte>) returns (p: Piece)
    requires s != [] && s[0] != QUOTE && s[0] != BACKSLASH && Element(s).Ok?
    ensures IsPiece(p) && Meaning(p) == Element(s).value.value && s == Spelling(p) + Element(s).value.rest
  {
    hide Decode;
    var n := SequenceLength(s[0]);
    PlainElement(s);
    p := Raw(s[..n]);
    DecodeIsLocal(s);
    if s[0] < 0x80 {
      DecodeAscii(s);
    }
    assert s == s[..n] + s[n..];
  }

  /** A step that is not the last one reads a piece. */
  lemma PieceRead(s: seq<Byte>) returns (p: Piece)
    requires s != [] && s[0] != QUOTE && Element(s).Ok? && Element(s).value.rest != []
    ensures IsPiece(p) && Meaning(p) == Element(s).value.value && s == Spelling(p) + Element(s).value.rest
  {
    hide HexEscape, Decode, HexNumber;
    if s[0] == BACKSLASH && IsHexX(s[1]) {
      p := HexPiece(s);
    } else if s[0] == BACKSLASH {
      p := Simple(s[1]);
      assert s == [BACKSLASH, s[1]] + s[2..];
    } else {
      p := RawPiece(s);
    }
  }

  /** Whatever is accepted is a spelling of pieces, up to the first unescaped quote. */
  lemma {:induction false} AcceptedIsSpelled(s: seq<Byte>, text: seq<Byte>) returns (ps: seq<Piece>)
    requires Body(s, text).Ok?
    ensures var r := Body(s, text).value;
      AllPieces(ps) && s == Spell(ps) + ([QUOTE] + r.rest) && r.value == text + EncodeAll(Meanings(ps))
    decreases |s|
  {
    hide Element, Encode, Spelling, Meaning, IsPiece;
    var r := Body(s, text).value;
    if s[0] == QUOTE {
      ps := [];
      assert s == [] + ([QUOTE] + s[1..]) && text + [] == text;
    } else {
      var e := Element(s).value;
      assert Body(e.rest, text + Encode(e.value)) == Body(s, text);
      var p := PieceRead(s);
      var more := AcceptedIsSpelled(e.rest, text + Encode(e.value));
      ps := [p] + more;
      assert ps[1..] == more;
      var tail := EncodeAll(Meanings(more));
      assert EncodeAll(Meanings(ps)) == Encode(e.value) + tail by { MeaningsCons(p, more); }
      assert (text + Encode(e.value)) + tail == text + (Encode(e.value) + tail);
      assert Spell(ps) == Spelling(p) + Spell(more);
      assert Spelling(p) + (Spell(more) + ([QUOTE] + r.rest)) == (Spelling(p) + Spell(more)) + ([QUOTE] + r.rest);
    }
  }

  lemma MeaningsCons(p: Piece, more: seq<Piece>)
    requires IsPiece(p) && AllPieces(more)
    ensures AllPieces([p] + more) && Meanings([p] + more) == [Meaning(p)] + Meanings(more)
    ensures EncodeAll(Meanings([p] + more)) == Encode(Meaning(p)) + EncodeAll(Meanings(more))
  {
    hide IsPiece, Meaning, Encode;
    var ps := [p] + more;
    assert ps[1..] == more;
    var ms := Meanings(more);
    assert ([Meaning(p)] + ms)[1..] == ms;
  }

  lemma {:induction false} MeaningsAreScalars(ps: seq<Piece>)
    requires AllPieces(ps)
    ensures AllScalars(Meanings(ps))
  {
    if ps != [] {
      MeaningIsScalar(ps[0]);
      MeaningsAreScalars(ps[1..]);
    }
  }

  lemma MeaningIsScalar(p: Piece)
    requires IsPiece(p)
    ensures IsScalar(Meaning(p))
  {
    if p.Raw? {
      DecodedIsScalar(p.bytes);
    }
  }

  /** Every accepted string is well-formed UTF-8 in shortest form, whatever bytes the source used. */
  lemma AcceptedTextIsUtf8(s: seq<Byte>)
    requires Body(s, []).Ok?
    ensures IsUtf8(Body(s, []).value.value)
    ensures exists cps :: AllScalars(cps) && Body(s, []).value.value == EncodeAll(cps)
  {
    var ps := AcceptedIsSpelled(s, []);
    MeaningsAreScalars(ps);
    var cps := Meanings(ps);
    EncodedIsUtf8(cps);
    assert [] + EncodeAll(cps) == EncodeAll(cps);
  }

  // ---- Writing literals ----

  /** The shortest piece that stands for a scalar value. */
  function PieceFor(cp: nat): Piece {
    if cp == 0x22 || cp == 0x5C then Simple(cp)
    else if cp == 0x0A then Simple(0x6E)
    else Raw(Encode(cp))
  }

  function PiecesFor(cps: seq<nat>): seq<Piece> {
    if cps == [] then [] else [PieceFor(cps[0])] + PiecesFor(cps[1..])
  }

  lemma PieceForMeans(cp: nat)
    requires IsScalar(cp)
    ensures IsPiece(PieceFor(cp)) && Meaning(PieceFor(cp)) == cp
  {
    hide IsUtf8Char;
    EncodeIsShortest(cp);
    DecodeInvertsEncode(cp, []);
    assert Encode(cp) + [] == Encode(cp);
  }

  lemma {:induction false} PiecesForMean(cps: seq<nat>)
    requires AllScalars(cps)
    ensures AllPieces(PiecesFor(cps)) && Meanings(PiecesFor(cps)) == cps
  {
    hide IsPiece, PieceFor, Meaning;
    if cps != [] {
      PieceForMeans(cps[0]);
      PiecesForMean(cps[1..]);
      assert PiecesFor(cps)[1..] == PiecesFor(cps[1..]);
      assert cps == [cps[0]] + cps[1..];
    }
  }

  /** Every string of scalar values has a literal; reading it gives the string's encoding. */
  lemma EveryStringHasALiteral(cps: seq<nat>, rest: seq<Byte>)
    requires AllScalars(cps)
    ensures Body(Spell(PiecesFor(cps)) + ([QUOTE] + rest), []) == Ok(Read(EncodeAll(cps), rest))
  {
    PiecesForMean(cps);
    ReadingInvertsSpelling(PiecesFor(cps), rest, []);
    assert [] + EncodeAll(cps) == EncodeAll(cps);
  }
}
