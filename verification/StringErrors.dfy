/**
 What each escape stands for, how each string literal can go wrong, and that UTF-8 keeps the order
 of code points (eta/core/src/eta/reader/lexer.cpp and unicode.h).
 */
module StringErrors {
  import opened Wrappers
  import opened Utf8
  import opened StringLiterals
  import opened StringGrammar

  // ---- Letters ----

  function Code(c: char): Byte {
    if c as int < 256 then c as int else 0
  }

  /** The letters of the named escapes, and the characters they stand for (R7RS, section 6.7). */
  const LETTERS: map<char, nat> := map['a' := 7, 'b' := 8, 't' := 9, 'n' := 10, 'r' := 13, '"' := 34, '\\' := 92]

  /** The marks of a literal, as characters. */
  lemma MarksAre()
    ensures QUOTE == Code('"') && BACKSLASH == Code('\\') && SEMICOLON == Code(';') && NEWLINE == Code('\n')
  {
  }

  /** The letters that start a number. */
  predicate IsX(b: Byte) {
    b == Code('x') || b == Code('X')
  }

  lemma IsXIsHexX(b: Byte)
    ensures IsX(b) <==> IsHexX(b)
  {
  }

  lemma LettersStand(c: char)
    requires c in LETTERS
    ensures Code(c) == c as int && !IsX(Code(c)) && SimpleEscape(Code(c)) == Some(LETTERS[c])
  {
    assert c in ['a', 'b', 't', 'n', 'r', '"', '\\'];
  }

  lemma OtherLettersStandForNothing(b: Byte)
    requires forall c :: c in LETTERS ==> Code(c) != b
    ensures SimpleEscape(b) == None
  {
    assert 'a' in LETTERS && 'b' in LETTERS && 't' in LETTERS && 'n' in LETTERS && 'r' in LETTERS;
    assert '"' in LETTERS && '\\' in LETTERS;
    assert Code('a') != b && Code('b') != b && Code('t') != b && Code('n') != b && Code('r') != b;
    assert Code('"') != b && Code('\\') != b;
  }

  // ---- Hexadecimal numbers ----

  const LOWER := "0123456789abcdef"
  const UPPER := "0123456789ABCDEF"

  function HexText(n: nat, upper: bool): (s: seq<Byte>)
    ensures s != []
  {
    var digit := [Code((if upper then UPPER else LOWER)[n % 16])];
    if n < 16 then digit else HexText(n / 16, upper) + digit
  }

  lemma DigitStands(d: nat, upper: bool)
    requires d < 16
    ensures var b := Code((if upper then UPPER else LOWER)[d]); IsHexDigit(b) && HexValue(b) == d
  {
    if upper {
      assert d < 8 ==> d in {0, 1, 2, 3, 4, 5, 6, 7};
      assert d >= 8 ==> d in {8, 9, 10, 11, 12, 13, 14, 15};
    } else {
      assert d < 8 ==> d in {0, 1, 2, 3, 4, 5, 6, 7};
      assert d >= 8 ==> d in {8, 9, 10, 11, 12, 13, 14, 15};
    }
  }

  /** A byte is a hexadecimal digit exactly when one of the two tables has it. */
  lemma DigitsAre(b: Byte)
    ensures IsHexDigit(b) <==> exists c :: (c in LOWER || c in UPPER) && Code(c) == b
  {
    if IsHexDigit(b) {
      var d := HexValue(b);
      DigitStands(d, false);
      DigitStands(d, true);
      assert b == Code(LOWER[d]) || b == Code(UPPER[d]);
    }
    if c :| (c in LOWER || c in UPPER) && Code(c) == b {
      if c in LOWER {
        var d :| 0 <= d < 16 && LOWER[d] == c;
        DigitStands(d, false);
      } else {
        var d :| 0 <= d < 16 && UPPER[d] == c;
        DigitStands(d, true);
      }
    }
  }

  lemma {:induction false} HexTextStands(n: nat, upper: bool)
    ensures HexNumber(HexText(n, upper)) == n
    ensures forall i :: 0 <= i < |HexText(n, upper)| ==> IsHexDigit(HexText(n, upper)[i])
  {
    hide HexNumber, HexValue, IsHexDigit, Code;
    var digit := Code((if upper then UPPER else LOWER)[n % 16]);
    DigitStands(n % 16, upper);
    if n < 16 {
      HexNumberSnoc([], digit);
      NoHexDigits();
      assert [] + [digit] == [digit];
    } else {
      HexTextStands(n / 16, upper);
      HexNumberSnoc(HexText(n / 16, upper), digit);
    }
  }

  lemma NoHexDigits()
    ensures HexNumber([]) == 0
  {
  }

  /** A scalar value written in hexadecimal, in either case, reads as that value. */
  lemma HexIsRead(n: nat, upper: bool, x: Byte, rest: seq<Byte>)
    requires IsX(x)
    ensures Element([BACKSLASH, x] + (HexText(n, upper) + ([SEMICOLON] + rest)))
      == if IsScalar(n) then Ok(Read(n, rest)) else Err(InvalidCodePoint)
  {
    hide HexNumber, IsScalar, HexText, HexEscape;
    HexTextStands(n, upper);
    HexEscapeIsExact(HexText(n, upper), rest);
    var s := HexText(n, upper) + ([SEMICOLON] + rest);
    assert ([BACKSLASH, x] + s)[2..] == s;
  }

  // ---- Errors ----

  /** Pieces are read one after another, whatever follows them. */
  lemma {:induction false} PiecesAreRead(ps: seq<Piece>, after: seq<Byte>, text: seq<Byte>)
    requires AllPieces(ps)
    ensures Body(Spell(ps) + after, text) == Body(after, text + EncodeAll(Meanings(ps)))
    decreases ps
  {
    hide Element, Encode, Spelling, Meaning, IsPiece;
    if ps == [] {
      assert Spell(ps) + after == after && text + [] == text;
    } else {
      var next := Spell(ps[1..]) + after;
      assert Spell(ps) + after == Spelling(ps[0]) + next;
      ElementReadsPiece(ps[0], next);
      var e, more := Encode(Meaning(ps[0])), EncodeAll(Meanings(ps[1..]));
      PiecesAreRead(ps[1..], after, text + e);
      assert (text + e) + more == text + (e + more);
    }
  }

  /** The error that a literal's body ends in when no piece and no quote can be read there. */
  ghost predicate Fails(ps: seq<Piece>, after: seq<Byte>, e: LexError)
  {
    Body(Spell(ps) + after, []) == Err(e)
  }

  lemma StuckFails(ps: seq<Piece>, after: seq<Byte>)
    requires AllPieces(ps) && after != [] && after[0] != QUOTE && Element(after).Err?
    ensures Fails(ps, after, Element(after).error)
  {
    hide Element, Spell;
    PiecesAreRead(ps, after, []);
  }

  /** A literal may not end before its quote, nor run over the end of its line. */
  lemma UnterminatedFails(ps: seq<Piece>, rest: seq<Byte>)
    requires AllPieces(ps)
    ensures Fails(ps, [], UnterminatedString)
    ensures Fails(ps, [BACKSLASH], UnterminatedString)
    ensures Fails(ps, [NEWLINE] + rest, UnterminatedString)
  {
    hide Spell, Meanings;
    PiecesAreRead(ps, [], []);
    StuckFails(ps, [BACKSLASH]);
    StuckFails(ps, [NEWLINE] + rest);
  }

  /** After a backslash only a letter of the table, or `x`, may come. */
  lemma UnknownLetterFails(ps: seq<Piece>, b: Byte, rest: seq<Byte>)
    requires AllPieces(ps) && !IsX(b) && forall c :: c in LETTERS ==> Code(c) != b
    ensures Fails(ps, [BACKSLASH, b] + rest, InvalidToken)
  {
    IsXIsHexX(b);
    hide Code, IsX, IsHexX;
    OtherLettersStandForNothing(b);
    hide SimpleEscape, LETTERS;
    StuckFails(ps, [BACKSLASH, b] + rest);
  }

  /** After `x`, digits must come, then a semicolon; the number must be a scalar value. */
  lemma HexFails(ps: seq<Piece>, x: Byte, digits: seq<Byte>, rest: seq<Byte>)
    requires AllPieces(ps) && IsX(x) && forall i :: 0 <= i < |digits| ==> IsHexDigit(digits[i])
    ensures digits == [] && (rest == [] || !IsHexDigit(rest[0])) ==> Fails(ps, [BACKSLASH, x] + (digits + rest), InvalidToken)
    ensures rest != [] && !IsHexDigit(rest[0]) && rest[0] != SEMICOLON ==>
      Fails(ps, [BACKSLASH, x] + (digits + rest), InvalidToken)
    ensures digits != [] && !IsScalar(HexNumber(digits)) ==>
      Fails(ps, [BACKSLASH, x] + (digits + ([SEMICOLON] + rest)), InvalidCodePoint)
  {
    hide HexNumber, IsScalar, Spell, HexRun, IsHexDigit, Fails, AllPieces;
    if rest == [] || !IsHexDigit(rest[0]) {
      HexRunStops(digits, rest);
      var s := [BACKSLASH, x] + (digits + rest);
      assert s[2..] == digits + rest;
      if digits == [] || (rest != [] && rest[0] != SEMICOLON) {
        assert rest != [] ==> (digits + rest)[|digits|] == rest[0];
        assert Element(s) == Err(InvalidToken);
        StuckFails(ps, s);
      }
    }
    if digits != [] && !IsScalar(HexNumber(digits)) {
      HexEscapeIsExact(digits, rest);
      hide HexEscape;
      var s := [BACKSLASH, x] + (digits + ([SEMICOLON] + rest));
      assert s[2..] == digits + ([SEMICOLON] + rest);
      StuckFails(ps, s);
    }
  }

  /** Bytes that are no character fail as decoding them fails. */
  lemma BadBytesFail(ps: seq<Piece>, after: seq<Byte>)
    requires AllPieces(ps) && after != [] && after[0] >= 0x80 && Decode(after).Err?
    ensures Fails(ps, after, Decode(after).error)
  {
    hide Decode, Spell;
    StuckFails(ps, after);
  }

  // ---- Bytes that are no character ----

  /** A surrogate, encoded as if it were a character, is no code point. */
  lemma SurrogateFails(cp: nat, rest: seq<Byte>)
    requires 0xD800 <= cp <= 0xDFFF
    ensures Decode(Encode(cp) + rest) == Err(InvalidCodePoint)
  {
    var s := Encode(cp) + rest;
    LeadBits(s[0]);
    TailBits(cp / 64 % 64);
    TailBits(cp % 64);
    assert s[1..3] == Encode(cp)[1..];
    ContinueUpToThree(Payload(s[0]), s[1..3]);
    SixBits(cp);
  }

  lemma NeedOfLead(cp: nat)
    requires IsScalar(cp)
    ensures Encode(cp) != [] && Need(Encode(cp)[0]) == Some(|Encode(cp)| - 1)
    ensures forall i :: 0 < i < |Encode(cp)| ==> IsTail(Encode(cp)[i])
  {
    EncodeIsShortest(cp);
    LeadBits(Encode(cp)[0]);
  }

  lemma {:induction false} BadByteStops(code: nat, a: seq<Byte>, b: Byte, rest: seq<Byte>)
    requires (forall i :: 0 <= i < |a| ==> IsTail(a[i])) && !IsTail(b)
    ensures Continue(code, a + ([b] + rest)) == None
    decreases a
  {
    if a == [] {
      assert a + ([b] + rest) == [b] + rest;
    } else {
      assert (a + ([b] + rest))[1..] == a[1..] + ([b] + rest);
      BadByteStops(code * 64 + a[0] % 64, a[1..], b, rest);
    }
  }

  /** A character cut short, by the end of the source or by a byte that continues nothing. */
  lemma CutShortFails(cp: nat, k: nat, b: Byte, rest: seq<Byte>)
    requires IsScalar(cp) && 0 < k < |Encode(cp)| && !IsTail(b)
    ensures Decode(Encode(cp)[..k]) == Err(InvalidUtf8)
    ensures Decode(Encode(cp)[..k] + ([b] + rest)) == Err(InvalidUtf8)
  {
    NeedOfLead(cp);
    hide Encode, Need, IsTail, Payload, Continue;
    var e := Encode(cp);
    var need := |e| - 1;
    var s := e[..k] + ([b] + rest);
    if |s| > need {
      var more := rest[..need - k];
      assert s[1..need + 1] == e[1..k] + ([b] + more);
      BadByteStops(Payload(s[0]), e[1..k], b, more);
    }
  }

  /** Bytes that start no character, and the end of the source. */
  lemma BadLeadFails(b: Byte, rest: seq<Byte>)
    requires 0x80 <= b <= 0xC1 || b >= 0xF5
    ensures Decode([b] + rest) == Err(InvalidUtf8)
    ensures Decode([]) == Err(UnexpectedEOF)
  {
  }

  // ---- The order of code points ----

  /** `a` comes before `b` in byte order, at index `i`. */
  predicate ByteLess(a: seq<Byte>, b: seq<Byte>, i: nat) {
    i < |a| && i < |b| && a[..i] == b[..i] && a[i] < b[i]
  }

  lemma SixBits(a: nat)
    ensures a == a / 64 * 64 + a % 64
    ensures a == a / 4096 * 4096 + a / 64 % 64 * 64 + a % 64
    ensures a == a / 262144 * 262144 + a / 4096 % 64 * 4096 + a / 64 % 64 * 64 + a % 64
  {
    var b := a / 64;
    var c := b / 64;
    assert a == b * 64 + a % 64 && b == c * 64 + b % 64 && c == c / 64 * 64 + c % 64;
    assert c == a / 4096 && c / 64 == a / 262144;
  }

  lemma TwoByteOrder(a: nat, b: nat) returns (i: nat)
    requires 0x7F < a < b <= 0x7FF
    ensures ByteLess(Encode(a), Encode(b), i)
  {
    SixBits(a);
    SixBits(b);
    i := if a / 64 < b / 64 then 0 else 1;
  }

  lemma ThreeByteOrder(a: nat, b: nat) returns (i: nat)
    requires 0x7FF < a < b <= 0xFFFF
    ensures ByteLess(Encode(a), Encode(b), i)
  {
    SixBits(a);
    SixBits(b);
    i := if a / 4096 < b / 4096 then 0 else if a / 64 % 64 < b / 64 % 64 then 1 else 2;
  }

  lemma FourByteOrder(a: nat, b: nat) returns (i: nat)
    requires 0xFFFF < a < b <= MAX_CODE_POINT
    ensures ByteLess(Encode(a), Encode(b), i)
  {
    SixBits(a);
    SixBits(b);
    i := if a / 262144 < b / 262144 then 0
      else if a / 4096 % 64 < b / 4096 % 64 then 1
      else if a / 64 % 64 < b / 64 % 64 then 2
      else 3;
  }

  /** The bytes of a longer character start higher. */
  lemma LeadByte(a: nat)
    requires a <= MAX_CODE_POINT
    ensures Encode(a) != []
    ensures a <= 0x7F <==> Encode(a)[0] <= 0x7F
    ensures 0x7F < a <= 0x7FF <==> 0xC0 <= Encode(a)[0] < 0xE0
    ensures 0x7FF < a <= 0xFFFF <==> 0xE0 <= Encode(a)[0] < 0xF0
    ensures 0xFFFF < a <==> 0xF0 <= Encode(a)[0]
  {
  }

  /** The encoding compares, byte by byte, as the code points do. */
  lemma EncodingKeepsOrder(a: nat, b: nat) returns (i: nat)
    requires IsScalar(a) && IsScalar(b) && a < b
    ensures ByteLess(Encode(a), Encode(b), i)
  {
    if b <= 0x7F {
      i := 0;
    } else if 0x7F < a && b <= 0x7FF {
      i := TwoByteOrder(a, b);
    } else if 0x7FF < a && b <= 0xFFFF {
      i := ThreeByteOrder(a, b);
    } else if 0xFFFF < a {
      i := FourByteOrder(a, b);
    } else {
      i := 0;
      LeadByte(a);
      LeadByte(b);
      hide Encode;
    }
  }
}
