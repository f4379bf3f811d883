/**
 Line-level text handling shared by eta.lock and eta.toml: trimming, comments,
 quoted strings, and searching outside quotes. Both source files carry the same loops.
 */
module TomlText {
  import opened Wrappers

  predicate IsSpace(c: char) {
    c == ' ' || c == '\t' || c == '\n' || c == '\r' || c == '\U{0B}' || c == '\U{0C}'
  }

  predicate IsDigit(c: char) { '0' <= c <= '9' }

  predicate IsAlpha(c: char) { 'a' <= c <= 'z' || 'A' <= c <= 'Z' }

  predicate OneLine(s: string) {
    '\n' !in s
  }

  // ---- Trimming ----

  function TrimStart(s: string): string {
    if s != "" && IsSpace(s[0]) then TrimStart(s[1..]) else s
  }

  function TrimEnd(s: string): string {
    if s != "" && IsSpace(s[|s| - 1]) then TrimEnd(s[..|s| - 1]) else s
  }

  function Trimmed(s: string): string {
    TrimEnd(TrimStart(s))
  }

  /** Text that trimming leaves alone. */
  predicate Tight(s: string) {
    s != "" && !IsSpace(s[0]) && !IsSpace(s[|s| - 1])
  }

  method Trim(value: string) returns (r: string)
    ensures r == Trimmed(value)
  {
    var start := 0;
    while start < |value| && IsSpace(value[start])
      invariant 0 <= start <= |value|
      invariant TrimStart(value) == TrimStart(value[start..])
    {
      assert value[start..][1..] == value[start + 1..];
      start := start + 1;
    }
    var end := |value|;
    assert value[start..end] == value[start..] == TrimStart(value);
    while end > start && IsSpace(value[end - 1])
      invariant start <= end <= |value|
      invariant Trimmed(value) == TrimEnd(value[start..end])
    {
      var s := value[start..end];
      assert s[|s| - 1] == value[end - 1] && s[..|s| - 1] == value[start..end - 1];
      end := end - 1;
    }
    r := value[start..end];
    assert r != "" ==> r[|r| - 1] == value[end - 1];
  }

  lemma TrimSpaceBefore(s: string)
    ensures Trimmed(" " + s) == Trimmed(s)
  {
    assert (" " + s)[1..] == s;
  }

  lemma TrimSpacesAround(s: string)
    requires Tight(s)
    ensures Trimmed(s) == s && Trimmed(" " + s) == s && Trimmed(s + " ") == s && Trimmed(" " + s + " ") == s
  {
    var t := s + " ";
    assert t[..|t| - 1] == s && t[0] == s[0];
    assert (" " + s)[1..] == s;
    assert (" " + s + " ")[1..] == t;
  }

  // ---- Scanning ----

  /** Where a scan stands relative to double quotes: the `in_string` and `escaped` flags. */
  datatype Mode = Outside | Inside | Escaped

  function Next(m: Mode, c: char): Mode {
    match m
    case Escaped => Inside
    case Inside => if c == '\\' then Escaped else if c == '"' then Outside else Inside
    case Outside => if c == '"' then Inside else Outside
  }

  function Run(m: Mode, s: string): Mode
    decreases |s|
  {
    if s == "" then m else Run(Next(m, s[0]), s[1..])
  }

  /** Index of the first `needle` outside quotes, or `|s|`. */
  function Find(m: Mode, s: string, needle: char): (r: nat)
    ensures r <= |s|
    decreases |s|
  {
    if s == "" then 0
    else if m == Outside && s[0] != '"' && s[0] == needle then 0
    else 1 + Find(Next(m, s[0]), s[1..], needle)
  }

  function ModeOf(inString: bool, escaped: bool): Mode {
    if escaped then Escaped else if inString then Inside else Outside
  }

  /** One round of the scanning loops: `stop` at an unquoted needle, else the new flags. */
  method ScanStep(c: char, needle: char, inString: bool, escaped: bool)
    returns (stop: bool, inString': bool, escaped': bool)
    requires escaped ==> inString
    ensures escaped' ==> inString'
    ensures stop <==> ModeOf(inString, escaped) == Outside && c != '"' && c == needle
    ensures !stop ==> ModeOf(inString', escaped') == Next(ModeOf(inString, escaped), c)
  {
    stop, inString', escaped' := false, inString, escaped;
    if escaped {
      escaped' := false;
    } else if inString && c == '\\' {
      escaped' := true;
    } else if c == '"' {
      inString' := !inString;
    } else if !inString && c == needle {
      stop := true;
    }
  }

  method FindFrom(value: string, from: nat, needle: char) returns (i: nat)
    requires from <= |value|
    ensures i == from + Find(Outside, value[from..], needle)
  {
    var inString, escaped := false, false;
    i := from;
    while i < |value|
      invariant from <= i <= |value| && (escaped ==> inString)
      invariant from + Find(Outside, value[from..], needle)
        == i + Find(ModeOf(inString, escaped), value[i..], needle)
    {
      var stop, inString', escaped' := ScanStep(value[i], needle, inString, escaped);
      if stop {
        return;
      }
      assert value[i..][1..] == value[i + 1..];
      inString, escaped := inString', escaped';
      i := i + 1;
    }
  }

  /** Drops a trailing comment: everything from the first unquoted '#'. */
  method StripComment(value: string) returns (r: string)
    ensures r == WithoutComment(value)
  {
    var i := FindFrom(value, 0, '#');
    assert value[0..] == value;
    r := value[..i];
  }

  function WithoutComment(s: string): string {
    s[..Find(Outside, s, '#')]
  }

  method FindUnquotedChar(value: string, needle: char) returns (r: Option<nat>)
    ensures r == Unquoted(value, needle)
  {
    var i := FindFrom(value, 0, needle);
    assert value[0..] == value;
    r := if i < |value| then Some(i) else None;
  }

  function Unquoted(s: string, needle: char): (r: Option<nat>)
    ensures r.Some? ==> r.value < |s|
  {
    var i := Find(Outside, s, needle);
    if i < |s| then Some(i) else None
  }

  /** A prefix in which nothing is found is scanned over. */
  lemma {:induction false} FindPast(m: Mode, a: string, b: string, needle: char)
    requires Find(m, a, needle) == |a|
    ensures Find(m, a + b, needle) == |a| + Find(Run(m, a), b, needle)
    ensures Run(m, a + b) == Run(Run(m, a), b)
    decreases |a|
  {
    if a == "" {
      assert a + b == b;
    } else {
      assert (a + b)[1..] == a[1..] + b;
      FindPast(Next(m, a[0]), a[1..], b, needle);
    }
  }

  /** Text without quotes or needles. */
  predicate PlainFor(s: string, needle: char) {
    forall i :: 0 <= i < |s| ==> s[i] != '"' && s[i] != needle
  }

  lemma {:induction false} FindPastPlain(a: string, b: string, needle: char)
    requires PlainFor(a, needle)
    ensures Find(Outside, a, needle) == |a| && Run(Outside, a) == Outside
    ensures Find(Outside, a + b, needle) == |a| + Find(Outside, b, needle)
  {
    if a == "" {
      assert a + b == b;
    } else {
      assert (a + b)[1..] == a[1..] + b;
      FindPastPlain(a[1..], b, needle);
    }
  }

  // ---- Quoted strings ----

  function EscapeChar(c: char): string {
    if c == '\\' then "\\\\"
    else if c == '"' then "\\\""
    else if c == '\n' then "\\n"
    else if c == '\r' then "\\r"
    else if c == '\t' then "\\t"
    else [c]
  }

  function Escape(s: string): string {
    if s == "" then "" else EscapeChar(s[0]) + Escape(s[1..])
  }

  method EscapeString(value: string) returns (out: string)
    ensures out == Escape(value)
  {
    out := "";
    var i := 0;
    while i < |value|
      invariant 0 <= i <= |value|
      invariant out + Escape(value[i..]) == Escape(value)
    {
      assert value[i..][1..] == value[i + 1..];
      assert out + (EscapeChar(value[i]) + Escape(value[i + 1..])) == (out + EscapeChar(value[i])) + Escape(value[i + 1..]);
      out := out + EscapeChar(value[i]);
      i := i + 1;
    }
  }

  function UnescapeChar(c: char): Option<char> {
    if c == 'n' then Some('\n')
    else if c == 'r' then Some('\r')
    else if c == 't' then Some('\t')
    else if c == '\\' then Some('\\')
    else if c == '"' then Some('"')
    else None
  }

  /** The text between the quotes; a bare quote stands for itself. */
  function Unescape(escaped: bool, s: string): Option<string>
    decreases |s|
  {
    if s == "" then if escaped then None else Some("")
    else if escaped then
      match UnescapeChar(s[0])
      case Some(c) => Prepend([c], Unescape(false, s[1..]))
      case None => None
    else if s[0] == '\\' then Unescape(true, s[1..])
    else Prepend([s[0]], Unescape(false, s[1..]))
  }

  function Prepend(a: string, r: Option<string>): Option<string> {
    match r
    case Some(b) => Some(a + b)
    case None => None
  }

  lemma PrependPrepend(a: string, c: char, r: Option<string>)
    ensures Prepend(a, Prepend([c], r)) == Prepend(a + [c], r)
  {
    if r.Some? { assert a + ([c] + r.value) == a + [c] + r.value; }
  }

  function Quoted(s: string): string {
    "\"" + Escape(s) + "\""
  }

  /** The value of a quoted string, or None where the parser reports an error. */
  function Unquote(value: string): Option<string> {
    var text := Trimmed(value);
    if |text| < 2 || text[0] != '"' || text[|text| - 1] != '"' then None
    else Unescape(false, text[1..|text| - 1])
  }

  method ParseQuotedString(value: string) returns (r: Option<string>)
    ensures r == Unquote(value)
  {
    var text := Trim(value);
    if |text| < 2 || text[0] != '"' || text[|text| - 1] != '"' {
      return None;
    }
    ghost var end := |text| - 1;
    var out := "";
    var escaped := false;
    var i := 1;
    assert forall t :: Prepend("", Some(t)) == Some(t) by {
      forall t ensures Prepend("", Some(t)) == Some(t) { assert "" + t == t; }
    }
    while i + 1 < |text|
      invariant 1 <= i <= end
      invariant Unescape(false, text[1..end]) == Prepend(out, Unescape(escaped, text[i..end]))
    {
      var c := text[i];
      assert text[i..end][0] == c && text[i..end][1..] == text[i + 1..end];
      if escaped {
        var u := UnescapeChar(c);
        if u.None? {
          return None;
        }
        PrependPrepend(out, u.value, Unescape(false, text[i + 1..end]));
        out := out + [u.value];
        escaped := false;
      } else if c == '\\' {
        escaped := true;
      } else {
        PrependPrepend(out, c, Unescape(false, text[i + 1..end]));
        out := out + [c];
      }
      i := i + 1;
    }
    assert text[i..end] == "";
    if escaped {
      return None;
    }
    assert out + "" == out;
    r := Some(out);
  }

  lemma UnescapeEscapedChar(c: char, rest: string)
    ensures Unescape(false, EscapeChar(c) + rest) == Prepend([c], Unescape(false, rest))
  {
    var e := EscapeChar(c);
    var s := e + rest;
    if |e| == 1 {
      assert s[1..] == rest;
    } else {
      assert s[1..][1..] == rest && s[1..][0] == e[1];
    }
  }

  /** Unescaping inverts escaping, for every string. */
  lemma {:induction false} UnescapeEscape(s: string)
    ensures Unescape(false, Escape(s)) == Some(s)
  {
    if s != "" {
      UnescapeEscape(s[1..]);
      UnescapeEscapedChar(s[0], Escape(s[1..]));
      assert s == [s[0]] + s[1..];
    }
  }

  lemma ScanEscapedChar(c: char, needle: char)
    ensures var e := EscapeChar(c); Find(Inside, e, needle) == |e| && Run(Inside, e) == Inside && OneLine(e)
  {
    var e := EscapeChar(c);
    if |e| == 1 {
      assert e[1..] == "";
    } else {
      assert e[1..] == [e[1]] && [e[1]][1..] == "";
      assert Run(Escaped, [e[1]]) == Inside && Find(Escaped, [e[1]], needle) == 1;
    }
  }

  /** Inside the quotes an escaped string is scanned over, whatever it contains. */
  lemma {:induction false} ScanEscaped(s: string, needle: char)
    ensures Find(Inside, Escape(s), needle) == |Escape(s)| && Run(Inside, Escape(s)) == Inside
    ensures OneLine(Escape(s))
  {
    if s != "" {
      var e := EscapeChar(s[0]);
      ScanEscapedChar(s[0], needle);
      ScanEscaped(s[1..], needle);
      FindPast(Inside, e, Escape(s[1..]), needle);
    }
  }

  /** A quoted string is tight, is scanned over from outside, and reads back as written. */
  lemma QuotedFacts(s: string, needle: char)
    ensures Tight(Quoted(s)) && OneLine(Quoted(s))
    ensures Find(Outside, Quoted(s), needle) == |Quoted(s)| && Run(Outside, Quoted(s)) == Outside
    ensures Unquote(Quoted(s)) == Some(s) && Unquote(" " + Quoted(s)) == Some(s)
  {
    ScanEscaped(s, needle);
    FindPast(Inside, Escape(s), "\"", needle);
    var q := Quoted(s);
    assert q[1..] == Escape(s) + "\"";
    TrimSpacesAround(q);
    assert q[1..|q| - 1] == Escape(s);
    UnescapeEscape(s);
  }

  lemma {:induction false} EscapeConcat(a: string, b: string)
    ensures Escape(a + b) == Escape(a) + Escape(b)
  {
    if a == "" {
      assert a + b == b;
    } else {
      assert (a + b)[1..] == a[1..] + b;
      EscapeConcat(a[1..], b);
    }
  }

  // ---- Lines ----

  /** The text up to the first newline. */
  function LineLength(s: string): (n: nat)
    ensures n <= |s| && '\n' !in s[..n] && (n < |s| ==> s[n] == '\n')
  {
    if s == "" || s[0] == '\n' then 0
    else
      assert s[..1 + LineLength(s[1..])] == [s[0]] + s[1..][..LineLength(s[1..])];
      1 + LineLength(s[1..])
  }

  /** The lines `std::getline` yields; a final newline opens no further line. */
  function Lines(s: string): seq<string>
    decreases |s|
  {
    if s == "" then []
    else
      var n := LineLength(s);
      if n == |s| then [s] else [s[..n]] + Lines(s[n + 1..])
  }

  method GetLine(rest: string) returns (line: string, rest': string)
    requires rest != ""
    ensures |rest'| < |rest| && Lines(rest) == [line] + Lines(rest')
    ensures '\n' !in line
  {
    var n := LineLength(rest);
    if n == |rest| {
      assert rest[..n] == rest;
      return rest, "";
    }
    return rest[..n], rest[n + 1..];
  }

  function Assemble(lines: seq<string>): string {
    if lines == [] then "" else lines[0] + "\n" + Assemble(lines[1..])
  }

  lemma LineLengthOf(line: string, rest: string)
    requires OneLine(line)
    ensures LineLength(line + "\n" + rest) == |line|
  {
    var s := line + "\n" + rest;
    var n := LineLength(s);
    assert s[|line|] == '\n';
  }

  /** Splitting inverts assembling when no line contains a newline. */
  lemma {:induction false} LinesOfAssembled(lines: seq<string>)
    requires forall i :: 0 <= i < |lines| ==> OneLine(lines[i])
    ensures Lines(Assemble(lines)) == lines
  {
    if lines != [] {
      LineLengthOf(lines[0], Assemble(lines[1..]));
      LinesOfAssembled(lines[1..]);
      var s := Assemble(lines);
      assert s[..|lines[0]|] == lines[0] && s[|lines[0]| + 1..] == Assemble(lines[1..]);
    }
  }

  lemma {:induction false} AssembleConcat(a: seq<string>, b: seq<string>)
    ensures Assemble(a + b) == Assemble(a) + Assemble(b)
  {
    if a == [] {
      assert a + b == b;
    } else {
      assert (a + b)[1..] == a[1..] + b;
      AssembleConcat(a[1..], b);
      assert a[0] + "\n" + (Assemble(a[1..]) + Assemble(b)) == (a[0] + "\n" + Assemble(a[1..])) + Assemble(b);
    }
  }

  lemma AssembleSnoc(lines: seq<string>, line: string)
    ensures Assemble(lines + [line]) == Assemble(lines) + line + "\n"
  {
    AssembleConcat(lines, [line]);
    assert [line][1..] == [];
    assert Assemble([line]) == line + "\n" + "";
    assert Assemble(lines) + (line + "\n") == Assemble(lines) + line + "\n";
  }

  // ---- Assignments ----

  /** What one line says, after dropping its comment and trimming. */
  datatype Statement = Blank | Header(text: string) | NoAssignment | EmptyKey | Assign(key: string, value: string)

  function StatementOf(line: string): (s: Statement)
    ensures s.Header? ==> s.text != ""
  {
    var stripped := Trimmed(WithoutComment(line));
    if stripped == "" then Blank
    else if stripped[0] == '[' then Header(stripped)
    else
      match Unquoted(stripped, '=')
      case None => NoAssignment
      case Some(eq) =>
        if Trimmed(stripped[..eq]) == "" then EmptyKey
        else Assign(Trimmed(stripped[..eq]), stripped[eq + 1..])
  }

  method ReadStatement(line: string) returns (s: Statement)
    ensures s == StatementOf(line)
  {
    var uncommented := StripComment(line);
    var stripped := Trim(uncommented);
    if stripped == "" {
      return Blank;
    }
    if stripped[0] == '[' {
      return Header(stripped);
    }
    var eq := FindUnquotedChar(stripped, '=');
    if eq.None? {
      return NoAssignment;
    }
    var key := Trim(stripped[..eq.value]);
    if key == "" {
      return EmptyKey;
    }
    return Assign(key, stripped[eq.value + 1..]);
  }

  /** A key that an assignment line can carry as it stands. */
  predicate PlainKey(key: string) {
    Tight(key) && key[0] != '[' && PlainFor(key, '#') && PlainFor(key, '=')
  }

  lemma HeaderLine(h: string)
    requires Tight(h) && h[0] == '[' && PlainFor(h, '#')
    ensures StatementOf(h) == Header(h)
  {
    FindPastPlain(h, "", '#');
    assert h + "" == h && h[..|h|] == h;
    TrimSpacesAround(h);
  }

  function AssignmentText(key: string, value: string): string {
    key + " = " + value
  }

  /** Writing `key = value` reads back as that assignment when the value hides no comment. */
  lemma AssignmentLine(key: string, value: string)
    requires PlainKey(key) && Tight(value)
    requires Find(Outside, value, '#') == |value|
    ensures StatementOf(AssignmentText(key, value)) == Assign(key, " " + value)
  {
    var line := key + " = " + value;
    NoCommentInAssignment(key, value);
    EqualsInAssignment(key, value);
    TrimSpacesAround(line);
    TrimSpacesAround(key);
  }

  lemma NoCommentInAssignment(key: string, value: string)
    requires PlainKey(key) && Tight(value)
    requires Find(Outside, value, '#') == |value|
    ensures WithoutComment(key + " = " + value) == key + " = " + value
    ensures Tight(key + " = " + value) && (key + " = " + value)[0] == key[0]
  {
    var line := key + " = " + value;
    assert line == (key + " = ") + value;
    FindPastPlain(key + " = ", value, '#');
    assert line[..|line|] == line;
    assert line[|line| - 1] == value[|value| - 1];
  }

  lemma EqualsInAssignment(key: string, value: string)
    requires PlainKey(key)
    ensures var line := key + " = " + value;
      && Unquoted(line, '=') == Some(|key| + 1)
      && line[..|key| + 1] == key + " " && line[|key| + 2..] == " " + value
  {
    var line := key + " = " + value;
    assert line == (key + " ") + ("= " + value);
    FindPastPlain(key + " ", "= " + value, '=');
  }
}
