/**
 UTF-8 (RFC 3629): the encoder of eta/core/src/eta/reader/unicode.h and the decoder of
 eta/core/src/eta/reader/lexer.cpp. Shifts and masks of the source are written as division and
 remainder; the bit ranges it combines with `|` never overlap, so `|` is addition.
 */
module Utf8 {
  import opened Wrappers

  type Byte = b: nat | b < 256

  const MAX_CODE_POINT := 0x10FFFF
  const HIGH_SURROGATE_START := 0xD800
  const LOW_SURROGATE_END := 0xDFFF

  datatype LexError =
    | UnexpectedEOF | UnterminatedString | InvalidToken | InvalidUtf8 | InvalidCodePoint

  predicate IsScalar(cp: int) {
    0 <= cp <= MAX_CODE_POINT && !(HIGH_SURROGATE_START <= cp <= LOW_SURROGATE_END)
  }

  predicate IsTail(b: Byte) {
    0x80 <= b <= 0xBF
  }

  /** RFC 3629, section 4: one character in its shortest form. */
  predicate IsUtf8Char(s: seq<Byte>) {
    if |s| == 1 then s[0] <= 0x7F
    else if |s| == 2 then 0xC2 <= s[0] <= 0xDF && IsTail(s[1])
    else if |s| == 3 then
      && IsTail(s[2])
      && ((s[0] == 0xE0 && 0xA0 <= s[1] <= 0xBF)
          || (0xE1 <= s[0] <= 0xEC && IsTail(s[1]))
          || (s[0] == 0xED && 0x80 <= s[1] <= 0x9F)
          || (0xEE <= s[0] <= 0xEF && IsTail(s[1])))
    else
      && |s| == 4 && IsTail(s[2]) && IsTail(s[3])
      && ((s[0] == 0xF0 && 0x90 <= s[1] <= 0xBF)
          || (0xF1 <= s[0] <= 0xF3 && IsTail(s[1]))
          || (s[0] == 0xF4 && 0x80 <= s[1] <= 0x8F))
  }

  /** A string of such characters. */
  ghost predicate IsUtf8(s: seq<Byte>) {
    s == [] || exists n :: 1 <= n <= |s| && IsUtf8Char(s[..n]) && IsUtf8(s[n..])
  }

  // ---- The encoder ----

  /** The bytes of a code point; beyond the Unicode range nothing is written. */
  function Encode(cp: nat): seq<Byte> {
    if cp <= 0x7F then [cp]
    else if cp <= 0x7FF then [0xC0 + cp / 64, 0x80 + cp % 64]
    else if cp <= 0xFFFF then [0xE0 + cp / 4096, 0x80 + cp / 64 % 64, 0x80 + cp % 64]
    else if cp <= MAX_CODE_POINT then
      [0xF0 + cp / 262144, 0x80 + cp / 4096 % 64, 0x80 + cp / 64 % 64, 0x80 + cp % 64]
    else []
  }

  method AppendUtf8(s: seq<Byte>, cp: nat) returns (s': seq<Byte>)
    ensures s' == s + Encode(cp)
  {
    s' := s;
    if cp <= 0x7F {
      s' := s' + [cp];
    } else if cp <= 0x7FF {
      s' := s' + [0xC0 + cp / 64];
      s' := s' + [0x80 + cp % 64];
    } else if cp <= 0xFFFF {
      s' := s' + [0xE0 + cp / 4096];
      s' := s' + [0x80 + cp / 64 % 64];
      s' := s' + [0x80 + cp % 64];
    } else if cp <= 0x10FFFF {
      s' := s' + [0xF0 + cp / 262144];
      s' := s' + [0x80 + cp / 4096 % 64];
      s' := s' + [0x80 + cp / 64 % 64];
      s' := s' + [0x80 + cp % 64];
    }
  }

  // ---- The decoder ----

  /** How many continuation bytes a lead byte asks for; some lead bytes are rejected. */
  function Need(b0: Byte): Option<nat> {
    if b0 < 0x80 then Some(0)
    else if 0xC0 <= b0 <= 0xDF then if b0 % 32 < 2 then None else Some(1)
    else if 0xE0 <= b0 <= 0xEF then Some(2)
    else if 0xF0 <= b0 <= 0xF7 then if b0 % 8 > 4 then None else Some(3)
    else None
  }

  /** The payload bits of a lead byte. */
  function Payload(b0: Byte): nat {
    if b0 < 0x80 then b0 else if b0 <= 0xDF then b0 % 32 else if b0 <= 0xEF then b0 % 16 else b0 % 8
  }

  function Continue(code: nat, s: seq<Byte>): Option<nat>
    decreases |s|
  {
    if s == [] then Some(code)
    else if !IsTail(s[0]) then None
    else Continue(code * 64 + s[0] % 64, s[1..])
  }

  /** The scalar value at the front of a byte string. */
  function Decode(s: seq<Byte>): Result<nat, LexError> {
    if s == [] then Err(UnexpectedEOF)
    else
      match Need(s[0])
      case None => Err(InvalidUtf8)
      case Some(need) =>
        if |s| <= need then Err(InvalidUtf8)
        else
          match Continue(Payload(s[0]), s[1..need + 1])
          case None => Err(InvalidUtf8)
          case Some(code) => if IsScalar(code) then Ok(code) else Err(InvalidCodePoint)
  }

  /** The bytes the lexer passes over after decoding. */
  function SequenceLength(b0: Byte): nat {
    if b0 < 0x80 then 1 else if 0xC0 <= b0 <= 0xDF then 2 else if 0xE0 <= b0 <= 0xEF then 3 else 4
  }

  /** A truncated sequence is rejected at the first missing byte, a bad one at the first bad byte. */
  method DecodeUtf8(s: seq<Byte>) returns (r: Result<nat, LexError>)
    ensures r == Decode(s)
    ensures r.Ok? ==> IsScalar(r.value) && SequenceLength(s[0]) <= |s|
  {
    if s == [] {
      return Err(UnexpectedEOF);
    }
    var b0 := s[0];
    if b0 < 0x80 {
      assert s[1..1] == [];
      return Ok(b0);
    }
    var code: nat, need: nat := 0, 0;
    if 0xC0 <= b0 <= 0xDF {
      code, need := b0 % 32, 1;
      if code < 2 {
        return Err(InvalidUtf8);
      }
    } else if 0xE0 <= b0 <= 0xEF {
      code, need := b0 % 16, 2;
    } else if 0xF0 <= b0 <= 0xF7 {
      code, need := b0 % 8, 3;
      if code > 4 {
        return Err(InvalidUtf8);
      }
    } else {
      return Err(InvalidUtf8);
    }
    var i := 1;
    while i <= need
      invariant 1 <= i <= need + 1 && i <= |s|
      invariant |s| > need ==> Continue(Payload(b0), s[1..need + 1]) == Continue(code, s[i..need + 1])
    {
      if i >= |s| {
        return Err(InvalidUtf8);
      }
      var bx := s[i];
      if !(0x80 <= bx <= 0xBF) {
        return Err(InvalidUtf8);
      }
      code := code * 64 + bx % 64;
      assert |s| > need ==> s[i..need + 1][1..] == s[i + 1..need + 1];
      i := i + 1;
    }
    if code > MAX_CODE_POINT || (code >= HIGH_SURROGATE_START && code <= LOW_SURROGATE_END) {
      return Err(InvalidCodePoint);
    }
    r := Ok(code);
  }

  // ---- Round trips ----

  /** The six payload bits of a tail byte. */
  function Bits(b: Byte): nat {
    b % 64
  }

  lemma {:induction false} ContinueUpToThree(code: nat, s: seq<Byte>)
    requires |s| <= 3 && forall i :: 0 <= i < |s| ==> IsTail(s[i])
    ensures Continue(code, s) == Some(
      if |s| == 0 then code
      else if |s| == 1 then code * 64 + Bits(s[0])
      else if |s| == 2 then (code * 64 + Bits(s[0])) * 64 + Bits(s[1])
      else ((code * 64 + Bits(s[0])) * 64 + Bits(s[1])) * 64 + Bits(s[2]))
    decreases |s|
  {
    if |s| > 0 {
      ContinueUpToThree(code * 64 + Bits(s[0]), s[1..]);
    }
  }

  lemma Sextets(cp: nat)
    ensures cp == cp / 64 * 64 + cp % 64
    ensures cp / 64 == cp / 4096 * 64 + cp / 64 % 64
    ensures cp / 4096 == cp / 262144 * 64 + cp / 4096 % 64
  {
  }

  lemma Composed(high: nat, low: nat)
    requires low < 64
    ensures (high * 64 + low) / 64 == high && (high * 64 + low) % 64 == low
  {
  }

  lemma ComposedTwice(high: nat, a: nat, b: nat)
    requires a < 64 && b < 64
    ensures var cp := (high * 64 + a) * 64 + b;
      cp % 64 == b && cp / 64 % 64 == a && cp / 4096 == high
  {
    Composed(high * 64 + a, b);
    Composed(high, a);
    Sextets((high * 64 + a) * 64 + b);
  }

  lemma ComposedThrice(high: nat, a: nat, b: nat, c: nat)
    requires a < 64 && b < 64 && c < 64
    ensures var cp := ((high * 64 + a) * 64 + b) * 64 + c;
      cp % 64 == c && cp / 64 % 64 == b && cp / 4096 % 64 == a && cp / 262144 == high
  {
    var cp := ((high * 64 + a) * 64 + b) * 64 + c;
    ComposedTwice(high * 64 + a, b, c);
    Composed(high, a);
    Sextets(cp);
  }

  lemma TailBits(q: nat)
    requires q < 64
    ensures IsTail(0x80 + q) && Bits(0x80 + q) == q
  {
  }

  /** A lead byte announces its length and carries its payload. */
  lemma LeadBits(b0: Byte)
    ensures 0xC2 <= b0 <= 0xDF ==> Need(b0) == Some(1) && Payload(b0) == b0 - 0xC0
    ensures 0xE0 <= b0 <= 0xEF ==> Need(b0) == Some(2) && Payload(b0) == b0 - 0xE0
    ensures 0xF0 <= b0 <= 0xF4 ==> Need(b0) == Some(3) && Payload(b0) == b0 - 0xF0
  {
  }

  /** Every scalar value is written in its shortest form. */
  lemma EncodeIsShortest(cp: nat)
    requires IsScalar(cp)
    ensures IsUtf8Char(Encode(cp)) && SequenceLength(Encode(cp)[0]) == |Encode(cp)|
  {
  }

  /** Decoding inverts encoding, whatever follows. */
  lemma DecodeInvertsEncode(cp: nat, rest: seq<Byte>)
    requires IsScalar(cp)
    ensures Decode(Encode(cp) + rest) == Ok(cp)
  {
    var e := Encode(cp);
    var s := e + rest;
    EncodeIsShortest(cp);
    assert |e| > 1 ==> Need(e[0]) == Some(|e| - 1) by { LeadBits(e[0]); }
    assert s[0] == e[0] && s[1..|e|] == e[1..];
    PayloadOfEncoded(cp);
  }

  /** The payload bits of an encoded scalar value, put together, are the value. */
  lemma PayloadOfEncoded(cp: nat)
    requires IsScalar(cp)
    ensures Continue(Payload(Encode(cp)[0]), Encode(cp)[1..]) == Some(cp)
  {
    var e := Encode(cp);
    hide IsUtf8Char, Payload, IsTail, Bits;
    if |e| > 1 {
      LeadBits(e[0]);
      TailBits(cp % 64);
      TailBits(cp / 64 % 64);
      TailBits(cp / 4096 % 64);
      Sextets(cp);
    }
    SmallPayload(e[0]);
    hide Encode;
    ContinueUpToThree(Payload(e[0]), e[1..]);
  }

  lemma SmallPayload(b0: Byte)
    ensures b0 < 0x80 ==> Payload(b0) == b0
  {
  }

  /** A shortest-form character is the encoding of the scalar value it decodes to. */
  lemma EncodeInvertsDecode(s: seq<Byte>, n: nat)
    requires 1 <= n <= |s| && IsUtf8Char(s[..n])
    ensures Decode(s).Ok? && Encode(Decode(s).value) == s[..n] && n == SequenceLength(s[0])
  {
    var e := s[..n];
    assert e[0] == s[0] && s[1..n] == e[1..];
    LeadBits(s[0]);
    ValueOfShortest(e);
  }

  lemma ValueOfShortest(e: seq<Byte>)
    requires IsUtf8Char(e)
    ensures var v := Continue(Payload(e[0]), e[1..]);
      v.Some? && IsScalar(v.value) && Encode(v.value) == e
  {
    hide Payload, Bits, Encode, IsScalar;
    var tail := e[1..];
    LeadBits(e[0]);
    SmallPayload(e[0]);
    ContinueUpToThree(Payload(e[0]), tail);
    if |e| == 1 {
      OneByte(e[0]);
    } else if |e| == 2 {
      TwoBytes(e[0], e[1]);
    } else if |e| == 3 {
      ThreeBytes(e[0], e[1], e[2]);
    } else {
      FourBytes(e[0], e[1], e[2], e[3]);
    }
  }

  lemma OneByte(b0: Byte)
    requires IsUtf8Char([b0])
    ensures IsScalar(b0) && Encode(b0) == [b0]
  {
  }

  lemma TwoBytes(b0: Byte, b1: Byte)
    requires IsUtf8Char([b0, b1])
    ensures var cp := (b0 - 0xC0) * 64 + Bits(b1); IsScalar(cp) && Encode(cp) == [b0, b1]
  {
    var high, a := b0 - 0xC0, b1 - 0x80;
    TailBits(a);
    Composed(high, a);
  }

  lemma ThreeBytes(b0: Byte, b1: Byte, b2: Byte)
    requires IsUtf8Char([b0, b1, b2])
    ensures var cp := ((b0 - 0xE0) * 64 + Bits(b1)) * 64 + Bits(b2); IsScalar(cp) && Encode(cp) == [b0, b1, b2]
  {
    hide Bits;
    var high, a, b := b0 - 0xE0, b1 - 0x80, b2 - 0x80;
    TailBits(a);
    TailBits(b);
    ComposedTwice(high, a, b);
  }

  lemma FourBytes(b0: Byte, b1: Byte, b2: Byte, b3: Byte)
    requires IsUtf8Char([b0, b1, b2, b3])
    ensures var cp := (((b0 - 0xF0) * 64 + Bits(b1)) * 64 + Bits(b2)) * 64 + Bits(b3);
      IsScalar(cp) && Encode(cp) == [b0, b1, b2, b3]
  {
    hide Bits;
    var high, a, b, c := b0 - 0xF0, b1 - 0x80, b2 - 0x80, b3 - 0x80;
    TailBits(a);
    TailBits(b);
    TailBits(c);
    ComposedThrice(high, a, b, c);
  }

  /** The decoder also takes overlong three- and four-byte forms; what is written back is shorter. */
  lemma DecodedIsScalar(s: seq<Byte>)
    requires Decode(s).Ok?
    ensures IsScalar(Decode(s).value) && SequenceLength(s[0]) <= |s|
    ensures IsUtf8Char(Encode(Decode(s).value))
    ensures Encode(Decode(s).value) == s[..SequenceLength(s[0])] <==> IsUtf8Char(s[..SequenceLength(s[0])])
  {
    var cp, n := Decode(s).value, SequenceLength(s[0]);
    EncodeIsShortest(cp);
    if IsUtf8Char(s[..n]) {
      EncodeInvertsDecode(s, n);
    }
  }

  /** Accepted and not in shortest form, seen in the first two bytes. */
  lemma OverlongIsAccepted(s: seq<Byte>)
    requires Decode(s).Ok?
    ensures SequenceLength(s[0]) <= |s|
    ensures IsUtf8Char(s[..SequenceLength(s[0])]) <==> !((s[0] == 0xE0 && s[1] < 0xA0) || (s[0] == 0xF0 && s[1] < 0x90))
  {
    var n := SequenceLength(s[0]);
    var tail := s[1..n];
    TailsWereRead(Payload(s[0]), tail);
    ContinueUpToThree(Payload(s[0]), tail);
    LeadBits(s[0]);
    assert forall i :: 0 <= i < |tail| ==> tail[i] == s[i + 1];
    TailValues(tail);
  }

  lemma {:induction false} TailsWereRead(code: nat, s: seq<Byte>)
    requires Continue(code, s).Some?
    ensures forall i :: 0 <= i < |s| ==> IsTail(s[i])
    decreases |s|
  {
    if s != [] {
      TailsWereRead(code * 64 + s[0] % 64, s[1..]);
      assert forall i :: 0 < i < |s| ==> s[i] == s[1..][i - 1];
    }
  }

  lemma TailValues(s: seq<Byte>)
    requires forall i :: 0 <= i < |s| ==> IsTail(s[i])
    ensures forall i :: 0 <= i < |s| ==> Bits(s[i]) + 0x80 == s[i]
  {
    forall i | 0 <= i < |s| ensures Bits(s[i]) + 0x80 == s[i] {
      TailBits(s[i] - 0x80);
    }
  }

  lemma OverlongExamples()
    ensures Decode([0xE0, 0x80, 0x80]) == Ok(0) && !IsUtf8Char([0xE0, 0x80, 0x80])
    ensures Decode([0xF0, 0x80, 0x80, 0xAF]) == Ok(0x2F) && !IsUtf8Char([0xF0, 0x80, 0x80, 0xAF])
  {
    var a: seq<Byte> := [0xE0, 0x80, 0x80];
    var b: seq<Byte> := [0xF0, 0x80, 0x80, 0xAF];
    assert a[1..3] == [0x80, 0x80] && b[1..4] == [0x80, 0x80, 0xAF];
    ContinueUpToThree(0, a[1..3]);
    ContinueUpToThree(0, b[1..4]);
  }

  // ---- Strings of scalar values ----

  ghost predicate AllScalars(cps: seq<nat>) {
    forall i :: 0 <= i < |cps| ==> IsScalar(cps[i])
  }

  function EncodeAll(cps: seq<nat>): seq<Byte> {
    if cps == [] then [] else Encode(cps[0]) + EncodeAll(cps[1..])
  }

  /** Encoded strings are well formed. */
  lemma {:induction false} EncodedIsUtf8(cps: seq<nat>)
    requires AllScalars(cps)
    ensures IsUtf8(EncodeAll(cps))
  {
    if cps != [] {
      var e, s := Encode(cps[0]), EncodeAll(cps);
      EncodeIsShortest(cps[0]);
      EncodedIsUtf8(cps[1..]);
      assert s[..|e|] == e && s[|e|..] == EncodeAll(cps[1..]);
    }
  }
}
