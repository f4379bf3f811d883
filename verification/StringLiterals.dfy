/**
 String literals and hex escapes: `consume_string` and `consume_hex_until_semicolon` of
 eta/core/src/eta/reader/lexer.cpp, over the bytes of the source.
 */
module StringLiterals {
  import opened Wrappers
  import opened Utf8

  const QUOTE: Byte := 0x22
  const BACKSLASH: Byte := 0x5C
  const SEMICOLON: Byte := 0x3B
  const NEWLINE: Byte := 0x0A

  predicate IsHexX(b: Byte) {
    b == 0x78 || b == 0x58
  }

  predicate IsHexDigit(b: Byte) {
    0x30 <= b <= 0x39 || 0x61 <= b <= 0x66 || 0x41 <= b <= 0x46
  }

  function HexValue(b: Byte): (v: nat)
    ensures v < 16
  {
    if 0x30 <= b <= 0x39 then b - 0x30
    else if 0x61 <= b <= 0x66 then b - 0x61 + 10
    else if 0x41 <= b <= 0x46 then b - 0x41 + 10
    else 0
  }

  /** The number a hex string spells, without any bound. */
  function HexNumber(digits: seq<Byte>): nat {
    if digits == [] then 0 else HexNumber(digits[..|digits| - 1]) * 16 + HexValue(digits[|digits| - 1])
  }

  function HexRun(s: seq<Byte>): (n: nat)
    ensures n <= |s| && forall i :: 0 <= i < n ==> IsHexDigit(s[i])
    ensures n < |s| ==> !IsHexDigit(s[n])
  {
    if s == [] || !IsHexDigit(s[0]) then 0 else 1 + HexRun(s[1..])
  }

  datatype Read<+T> = Read(value: T, rest: seq<Byte>)

  /** Digits up to a semicolon or the end of the source, spelling a scalar value. */
  function HexEscape(s: seq<Byte>): (r: Result<Read<nat>, LexError>)
    ensures r.Ok? ==> |r.value.rest| < |s| && IsScalar(r.value.value)
  {
    var n := HexRun(s);
    if n == 0 || (n < |s| && s[n] != SEMICOLON) then Err(InvalidToken)
    else if !IsScalar(HexNumber(s[..n])) then Err(InvalidCodePoint)
    else Ok(Read(HexNumber(s[..n]), if n < |s| then s[n + 1..] else []))
  }

  function SimpleEscape(b: Byte): (r: Option<Byte>)
    ensures r.Some? ==> r.value < 0x80
  {
    if b == 0x61 then Some(0x07)
    else if b == 0x62 then Some(0x08)
    else if b == 0x74 then Some(0x09)
    else if b == 0x6E then Some(0x0A)
    else if b == 0x72 then Some(0x0D)
    else if b == QUOTE then Some(QUOTE)
    else if b == BACKSLASH then Some(BACKSLASH)
    else None
  }

  /** What one step of the string loop contributes, when the string does not end here. */
  function Element(s: seq<Byte>): (r: Result<Read<nat>, LexError>)
    requires s != [] && s[0] != QUOTE
    ensures r.Ok? ==> |r.value.rest| < |s| && IsScalar(r.value.value)
  {
    if s[0] == BACKSLASH then
      if |s| == 1 then Err(UnterminatedString)
      else if IsHexX(s[1]) then HexEscape(s[2..])
      else
        match SimpleEscape(s[1])
        case Some(b) => Ok(Read(b, s[2..]))
        case None => Err(InvalidToken)
    else if s[0] == NEWLINE then Err(UnterminatedString)
    else if s[0] < 0x80 then Ok(Read(s[0], s[1..]))
    else
      match Decode(s)
      case Err(e) => Err(e)
      case Ok(cp) =>
        DecodedIsScalar(s);
        Ok(Read(cp, s[SequenceLength(s[0])..]))
  }

  /** The text of a string literal whose opening quote has been passed. */
  function Body(s: seq<Byte>, text: seq<Byte>): (r: Result<Read<seq<Byte>>, LexError>)
    ensures r.Ok? ==> |r.value.rest| < |s|
    decreases |s|
  {
    if s == [] then Err(UnterminatedString)
    else if s[0] == QUOTE then Ok(Read(text, s[1..]))
    else
      match Element(s)
      case Err(e) => Err(e)
      case Ok(e) => Body(e.rest, text + Encode(e.value))
  }

  // ---- The lexer ----

  newtype uint32 = x: int | 0 <= x < 0x1_0000_0000

  lemma GuardIsExact(code: int, v: int)
    requires 0 <= code && 0 <= v < 16
    ensures code > (MAX_CODE_POINT - v) / 16 <==> code * 16 + v > MAX_CODE_POINT
  {
  }

  lemma HexNumberSnoc(digits: seq<Byte>, b: Byte)
    ensures HexNumber(digits + [b]) == HexNumber(digits) * 16 + HexValue(b)
  {
    assert (digits + [b])[..|digits|] == digits;
  }

  lemma {:induction false} HexNumberGrows(digits: seq<Byte>, n: nat)
    requires n <= |digits|
    ensures HexNumber(digits[..n]) <= HexNumber(digits)
    decreases |digits|
  {
    if n < |digits| {
      HexNumberGrows(digits[..|digits| - 1], n);
      assert digits[..|digits| - 1][..n] == digits[..n];
    } else {
      assert digits[..n] == digits;
    }
  }

  /**
   The value of a hex string in 32-bit arithmetic: the guard keeps every step in range and
   rejects exactly the numbers beyond the Unicode range.
   */
  method HexCode(digits: seq<Byte>) returns (code: Option<uint32>)
    ensures code.Some? <==> HexNumber(digits) <= MAX_CODE_POINT
    ensures code.Some? ==> code.value as int == HexNumber(digits)
  {
    var value: uint32 := 0;
    var i := 0;
    while i < |digits|
      invariant 0 <= i <= |digits|
      invariant value as int == HexNumber(digits[..i]) <= MAX_CODE_POINT
    {
      var v: uint32 := HexValue(digits[i]) as uint32;
      GuardIsExact(value as int, v as int);
      HexNumberSnoc(digits[..i], digits[i]);
      assert digits[..i] + [digits[i]] == digits[..i + 1];
      if value > (0x10FFFF - v) / 16 {
        HexNumberGrows(digits, i + 1);
        return None;
      }
      value := value * 16 + v;
      i := i + 1;
    }
    assert digits[..i] == digits;
    code := Some(value);
  }

  class ByteLexer {
    const source: seq<Byte>
    var pos: nat

    constructor (source: seq<Byte>)
      ensures this.source == source && pos == 0 && Valid()
    {
      this.source, pos := source, 0;
    }

    ghost predicate Valid()
      reads this
    {
      pos <= |source|
    }

    ghost function Rest(): seq<Byte>
      requires Valid()
      reads this
    {
      source[pos..]
    }

    method ConsumeHexUntilSemicolon() returns (r: Result<nat, LexError>)
      requires Valid()
      modifies this
      ensures Valid() && (r.Ok? <==> HexEscape(old(Rest())).Ok?)
      ensures r.Ok? ==> HexEscape(old(Rest())) == Ok(Read(r.value, Rest()))
      ensures r.Err? ==> HexEscape(old(Rest())) == Err(r.error)
    {
      hide HexNumber;
      ghost var s := Rest();
      var start := pos;
      while pos < |source| && source[pos] != SEMICOLON
        invariant Valid() && start <= pos
        invariant HexRun(s) == pos - start + HexRun(Rest())
      {
        if !IsHexDigit(source[pos]) {
          assert HexRun(Rest()) == 0;
          assert s[pos - start] == source[pos];
          return Err(InvalidToken);
        }
        assert Rest()[1..] == source[pos + 1..];
        pos := pos + 1;
      }
      assert HexRun(Rest()) == 0;
      var digits := source[start..pos];
      assert digits == s[..pos - start];
      if pos < |source| {
        assert s[pos - start] == source[pos];
        assert s[pos - start + 1..] == source[pos + 1..];
        pos := pos + 1;
      }
      if digits == [] {
        return Err(InvalidToken);
      }
      var code := HexCode(digits);
      if code.None? || 0xD800 <= code.value <= 0xDFFF {
        return Err(InvalidCodePoint);
      }
      r := Ok(code.value as nat);
    }

    /** Appends the character an escape stands for; the backslash is passed already. */
    method ConsumeEscape(text: seq<Byte>) returns (r: Result<seq<Byte>, LexError>)
      requires Valid() && pos > 0 && source[pos - 1] == BACKSLASH
      modifies this
      ensures Valid()
      ensures var e := Element(old(source[pos - 1..]));
        && (e.Err? ==> r == Err(e.error))
        && (e.Ok? ==> r == Ok(text + Encode(e.value.value)) && Rest() == e.value.rest)
    {
      hide Encode, HexEscape;
      ghost var s := source[pos - 1..];
      if pos == |source| {
        return Err(UnterminatedString);
      }
      var letter := source[pos];
      assert s[1] == letter && s[2..] == source[pos + 1..];
      pos := pos + 1;
      if IsHexX(letter) {
        var code := ConsumeHexUntilSemicolon();
        if code.Err? {
          return Err(code.error);
        }
        var longer := AppendUtf8(text, code.value);
        return Ok(longer);
      }
      var simple := SimpleEscape(letter);
      if simple.None? {
        return Err(InvalidToken);
      }
      AsciiIsItself(simple.value);
      r := Ok(text + [simple.value]);
    }

    /** Called at the opening quote. */
    method ConsumeString() returns (r: Result<seq<Byte>, LexError>)
      requires Valid() && pos < |source| && source[pos] == QUOTE
      modifies this
      ensures Valid()
      ensures r.Err? ==> Body(old(source[pos + 1..]), []) == Err(r.error)
      ensures r.Ok? ==> Body(old(source[pos + 1..]), []) == Ok(Read(r.value, Rest()))
    {
      hide Element, Encode, Decode, IsScalar;
      pos := pos + 1;
      var text: seq<Byte> := [];
      while pos < |source|
        invariant Valid()
        invariant Body(Rest(), text) == Body(old(source[pos + 1..]), [])
        decreases |source| - pos
      {
        ghost var s := Rest();
        var c := source[pos];
        if c == QUOTE {
          pos := pos + 1;
          return Ok(text);
        }
        if c == BACKSLASH {
          pos := pos + 1;
          r := ConsumeEscape(text);
          if r.Err? {
            return;
          }
          text := r.value;
        } else if c == NEWLINE {
          PlainElement(s);
          return Err(UnterminatedString);
        } else if c < 0x80 {
          PlainElement(s);
          AsciiIsItself(c);
          text := text + [c];
          pos := pos + 1;
        } else {
          PlainElement(s);
          var cp := DecodeUtf8(source[pos..]);
          if cp.Err? {
            return Err(cp.error);
          }
          pos := pos + SequenceLength(c);
          text := AppendUtf8(text, cp.value);
        }
      }
      r := Err(UnterminatedString);
    }
  }

  lemma AsciiIsItself(b: Byte)
    requires b < 0x80
    ensures Encode(b) == [b]
  {
  }

  lemma PlainElement(s: seq<Byte>)
    requires s != [] && s[0] != QUOTE && s[0] != BACKSLASH
    ensures s[0] == NEWLINE ==> Element(s) == Err(UnterminatedString)
    ensures s[0] != NEWLINE && s[0] < 0x80 ==> Element(s) == Ok(Read(s[0], s[1..]))
    ensures s[0] >= 0x80 && Decode(s).Err? ==> Element(s) == Err(Decode(s).error)
    ensures s[0] >= 0x80 && Decode(s).Ok? ==>
      SequenceLength(s[0]) <= |s| && Element(s) == Ok(Read(Decode(s).value, s[SequenceLength(s[0])..]))
  {
    hide Decode;
    if Decode(s).Ok? {
      DecodedIsScalar(s);
    }
  }
}
