/**
 Numeric literals: what `std::stoll` and `std::from_chars` make of a digit string, and the byte
 literals of eta/core/src/eta/reader/parser.cpp.
 */
module Numerals {
  import opened Wrappers

  const MAX_INT64 := 0x7FFF_FFFF_FFFF_FFFF
  const MAX_ULONG := 0xFFFF_FFFF_FFFF_FFFF

  /** A hexadecimal digit's value; other characters have none. */
  function DigitOf(c: char): (d: Option<nat>)
    ensures d.Some? ==> d.value < 16
  {
    if '0' <= c <= '9' then Some((c - '0') as nat)
    else if 'a' <= c <= 'f' then Some(10 + (c - 'a') as nat)
    else if 'A' <= c <= 'F' then Some(10 + (c - 'A') as nat)
    else None
  }

  predicate IsDigitIn(c: char, radix: nat) {
    DigitOf(c).Some? && DigitOf(c).value < radix
  }

  predicate IsNumeral(s: string, radix: nat) {
    forall i :: 0 <= i < |s| ==> IsDigitIn(s[i], radix)
  }

  /** The number a digit string spells. */
  function ValueOf(s: string, radix: nat): nat
    requires IsNumeral(s, radix)
  {
    if s == "" then 0
    else ValueOf(s[..|s| - 1], radix) * radix + DigitOf(s[|s| - 1]).value
  }

  function LeadingDigits(s: string, radix: nat): (n: nat)
    ensures n <= |s| && IsNumeral(s[..n], radix)
    ensures n < |s| ==> !IsDigitIn(s[n], radix)
  {
    if s == "" || !IsDigitIn(s[0], radix) then 0
    else
      var n := 1 + LeadingDigits(s[1..], radix);
      assert forall i :: 1 <= i < n ==> s[i] == s[1..][..n - 1][i - 1];
      n
  }

  lemma {:induction false} NumeralIsAllDigits(s: string, radix: nat)
    requires IsNumeral(s, radix)
    ensures LeadingDigits(s, radix) == |s|
  {
    if s != "" {
      NumeralIsAllDigits(s[1..], radix);
    }
  }

  /** An optional sign, then the longest run of digits; nothing when there is no digit or no room. */
  function ReadFixnum(text: string, radix: nat): Option<int> {
    var signed := text != "" && (text[0] == '+' || text[0] == '-');
    var digits := if signed then text[1..] else text;
    var n := LeadingDigits(digits, radix);
    if n == 0 then None
    else
      var magnitude: int := ValueOf(digits[..n], radix);
      var value := if signed && text[0] == '-' then -magnitude else magnitude;
      if -MAX_INT64 - 1 <= value <= MAX_INT64 then Some(value) else None
  }

  /** The unsigned conversion: no sign at all. */
  function FromChars(text: string, radix: nat): Option<nat> {
    var n := LeadingDigits(text, radix);
    if n == 0 then None
    else
      var value := ValueOf(text[..n], radix);
      if value <= MAX_ULONG then Some(value) else None
  }

  // ---- Decimal text ----

  function DigitChar(d: nat): (c: char)
    requires d < 10
    ensures IsDigitIn(c, 10) && DigitOf(c) == Some(d)
  {
    '0' + d as char
  }

  function Decimal(n: nat): (s: string)
    ensures s != "" && IsNumeral(s, 10)
  {
    if n < 10 then [DigitChar(n)] else Decimal(n / 10) + [DigitChar(n % 10)]
  }

  lemma {:induction false} DecimalValue(n: nat)
    ensures ValueOf(Decimal(n), 10) == n
  {
    var s := Decimal(n);
    if n < 10 {
      assert s[..0] == "";
      assert ValueOf(s[..0], 10) == 0;
    } else {
      DecimalValue(n / 10);
      assert s[..|s| - 1] == Decimal(n / 10);
    }
  }

  /** Different numbers have different decimal texts. */
  lemma DecimalInjective(m: nat, n: nat)
    requires Decimal(m) == Decimal(n)
    ensures m == n
  {
    DecimalValue(m);
    DecimalValue(n);
  }

  function SignedDecimal(n: int): string {
    if n < 0 then "-" + Decimal(-n) else Decimal(n)
  }

  /** Every 64-bit integer reads back from its decimal text; one beyond the range does not. */
  lemma SignedDecimalReadsBack(n: int)
    ensures ReadFixnum(SignedDecimal(n), 10) == if -MAX_INT64 - 1 <= n <= MAX_INT64 then Some(n) else None
  {
    var magnitude: nat := if n < 0 then -n else n;
    var digits := Decimal(magnitude);
    DecimalValue(magnitude);
    NumeralIsAllDigits(digits, 10);
    assert digits[..|digits|] == digits;
    assert IsDigitIn(digits[0], 10);
    if n < 0 {
      assert SignedDecimal(n)[1..] == digits;
    }
  }

  // ---- Byte literals ----

  datatype Radix = Binary | Octal | Ten | Hexadecimal {
    function Base(): (b: nat)
      ensures b >= 2
    {
      match this
      case Binary => 2
      case Octal => 8
      case Ten => 10
      case Hexadecimal => 16
    }
  }

  /** What the lexer collects for an integer: an optional sign and at least one digit. */
  ghost predicate IsFixnumText(text: string, radix: Radix) {
    && text != ""
    && (text[0] == '+' || text[0] == '-' ==> |text| > 1)
    && (text[0] != '+' && text[0] != '-' ==> IsDigitIn(text[0], radix.Base()))
    && IsNumeral(text[1..], radix.Base())
  }

  /**
   Base 10 and 16 go through `std::from_chars`, which stops at the first other character; base 2
   and 8 go through a loop that rejects it.
   */
  function ByteOf(text: string, radix: Radix): Option<nat> {
    var n := LeadingDigits(text, radix.Base());
    var wanted := if radix.Ten? || radix.Hexadecimal? then n > 0 else n == |text|;
    if wanted && ValueOf(text[..n], radix.Base()) <= 255 then Some(ValueOf(text[..n], radix.Base())) else None
  }

  /** Of the integers the lexer makes, exactly the unsigned ones up to 255 are bytes. */
  lemma ByteOfIsExact(text: string, radix: Radix)
    requires IsFixnumText(text, radix)
    ensures ByteOf(text, radix).Some? <==>
      IsNumeral(text, radix.Base()) && ValueOf(text, radix.Base()) <= 255
    ensures ByteOf(text, radix).Some? ==> ByteOf(text, radix).value == ValueOf(text, radix.Base())
  {
    hide ValueOf;
    if IsNumeral(text, radix.Base()) {
      NumeralIsAllDigits(text, radix.Base());
      assert text[..|text|] == text;
    } else {
      assert forall i :: 1 <= i < |text| ==> text[i] == text[1..][i - 1];
      assert !IsDigitIn(text[0], radix.Base());
    }
  }

  lemma ScaledIsLarger(v: nat, d: nat, radix: nat)
    requires radix > 0
    ensures v <= v * radix + d
  {
    assert v * radix >= v;
  }

  lemma {:induction false} PrefixIsSmaller(s: string, n: nat, radix: nat)
    requires radix > 0 && n <= |s| && IsNumeral(s, radix)
    ensures IsNumeral(s[..n], radix) && ValueOf(s[..n], radix) <= ValueOf(s, radix)
    decreases |s|
  {
    if n < |s| {
      var shorter := s[..|s| - 1];
      PrefixIsSmaller(shorter, n, radix);
      assert shorter[..n] == s[..n];
      ScaledIsLarger(ValueOf(shorter, radix), DigitOf(s[|s| - 1]).value, radix);
    } else {
      assert s[..n] == s;
    }
  }

  lemma Overflows(value: nat, d: nat, radix: nat)
    requires radix > 0 && d <= 255
    ensures value > (255 - d) / radix <==> value * radix + d > 255
  {
    var q := (255 - d) / radix;
    if value > q {
      assert value * radix >= (q + 1) * radix;
    } else {
      assert value * radix <= q * radix;
    }
  }

  method ParseByteLiteral(text: string, radix: Radix) returns (byte: Option<nat>)
    ensures byte == ByteOf(text, radix)
  {
    var base := radix.Base();
    var value: nat := 0;
    if radix.Ten? || radix.Hexadecimal? {
      hide ValueOf;
      var r := FromChars(text, base);
      if r.None? {
        return None;
      }
      value := r.value;
    } else {
      var checked := ParseDigits(text, base);
      if checked.None? {
        return None;
      }
      value := checked.value;
    }
    if value > 255 {
      return None;
    }
    byte := Some(value);
  }

  /** The guard before each multiplication rejects exactly the numerals above 255. */
  method ParseDigits(text: string, base: nat) returns (v: Option<nat>)
    requires base >= 2
    ensures v.Some? <==> LeadingDigits(text, base) == |text| && ValueOf(text[..|text|], base) <= 255
    ensures v.Some? ==> v.value == ValueOf(text[..|text|], base)
  {
    hide ValueOf;
    assert text[..|text|] == text;
    var value: nat := 0;
    NoDigits(base);
    var i := 0;
    while i < |text|
      invariant 0 <= i <= |text| && IsNumeral(text[..i], base)
      invariant value == ValueOf(text[..i], base) <= 255
    {
      var d := DigitOf(text[i]);
      if d.None? || d.value >= base {
        return None;
      }
      OneMoreDigit(text, i, base);
      Overflows(value, d.value, base);
      if value > (255 - d.value) / base {
        if IsNumeral(text, base) {
          PrefixIsSmaller(text, i + 1, base);
        }
        return None;
      }
      value := value * base + d.value;
      i := i + 1;
    }
    assert text[..i] == text;
    NumeralIsAllDigits(text, base);
    v := Some(value);
  }

  lemma NoDigits(radix: nat)
    ensures ValueOf("", radix) == 0
  {
  }

  lemma OneMoreDigit(s: string, i: nat, radix: nat)
    requires i < |s| && IsNumeral(s[..i], radix) && IsDigitIn(s[i], radix)
    ensures IsNumeral(s[..i + 1], radix)
    ensures ValueOf(s[..i + 1], radix) == ValueOf(s[..i], radix) * radix + DigitOf(s[i]).value
  {
    var longer := s[..i + 1];
    assert longer[..i] == s[..i];
    assert forall j :: 0 <= j < i ==> longer[j] == s[..i][j];
  }
}
