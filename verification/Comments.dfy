/**
 What comments, blank lines and white space do to an eta.toml or eta.lock: nothing. A '#' inside
 quotes starts no comment, and one outside ends the line
 (eta/core/src/eta/package/manifest.cpp and lockfile.cpp).
 */
module Comments {
  import opened Wrappers
  import opened Numerals
  import opened TomlText
  import M = Manifests
  import MR = ManifestRoundTrip
  import L = Lockfiles
  import LR = LockfileRoundTrip

  // ---- The pieces of a line ----

  /** A stretch without quotes or '#', or what stands between two quotes. */
  datatype Piece = Bare(text: string) | InQuotes(raw: string)

  /** Between quotes, a quote or a backslash only comes after a backslash. */
  predicate IsRaw(raw: string) {
    if raw == "" then true
    else if raw[0] == '"' then false
    else if raw[0] == '\\' then |raw| > 1 && IsRaw(raw[2..])
    else IsRaw(raw[1..])
  }

  predicate IsPiece(p: Piece) {
    match p
    case Bare(text) => '"' !in text && '#' !in text
    case InQuotes(raw) => IsRaw(raw)
  }

  predicate ArePieces(ps: seq<Piece>) {
    forall i :: 0 <= i < |ps| ==> IsPiece(ps[i])
  }

  function PieceText(p: Piece): string {
    match p
    case Bare(text) => text
    case InQuotes(raw) => "\"" + raw + "\""
  }

  function Text(ps: seq<Piece>): string {
    if ps == [] then "" else PieceText(ps[0]) + Text(ps[1..])
  }

  // ---- Scanning the pieces ----

  /** A scan from outside comes out at the end, outside, without having met a '#'. */
  predicate Passes(s: string) {
    Find(Outside, s, '#') == |s| && Run(Outside, s) == Outside
  }

  lemma PassesTogether(a: string, b: string)
    requires Passes(a) && Passes(b)
    ensures Passes(a + b)
  {
    FindPast(Outside, a, b, '#');
  }

  lemma {:induction false} RawScans(raw: string)
    requires IsRaw(raw)
    ensures Find(Inside, raw, '#') == |raw| && Run(Inside, raw) == Inside
  {
    if raw != "" {
      if raw[0] == '\\' {
        assert raw[1..][1..] == raw[2..];
        RawScans(raw[2..]);
      } else {
        RawScans(raw[1..]);
      }
    }
  }

  lemma PiecePasses(p: Piece)
    requires IsPiece(p)
    ensures Passes(PieceText(p))
  {
    match p {
      case Bare(text) =>
        FindPastPlain(text, "", '#');
      case InQuotes(raw) =>
        RawScans(raw);
        FindPast(Inside, raw, "\"", '#');
        var q := PieceText(p);
        assert q[1..] == raw + "\"";
        assert "\""[1..] == "";
    }
  }

  lemma {:induction false} PiecesPass(ps: seq<Piece>)
    requires ArePieces(ps)
    ensures Passes(Text(ps))
  {
    hide Passes, PieceText;
    if ps == [] {
      NothingPasses();
    } else {
      PiecePasses(ps[0]);
      PiecesPass(ps[1..]);
      PassesTogether(PieceText(ps[0]), Text(ps[1..]));
    }
  }

  lemma NothingPasses()
    ensures Passes("")
  {
  }

  lemma CommentCut(s: string, c: string)
    requires Passes(s)
    ensures WithoutComment(s) == s && WithoutComment(s + "#" + c) == s
  {
    assert s + "#" + c == s + ("#" + c);
    FindPast(Outside, s, "#" + c, '#');
    assert s[..|s|] == s;
  }

  /** Whatever the comment says, the line without it is what stands before the '#'. */
  lemma CommentIsDropped(ps: seq<Piece>, c: string)
    requires ArePieces(ps)
    ensures WithoutComment(Text(ps)) == Text(ps)
    ensures WithoutComment(Text(ps) + "#" + c) == Text(ps)
  {
    hide Passes, WithoutComment;
    PiecesPass(ps);
    CommentCut(Text(ps), c);
  }

  // ---- Every line ----

  /** A quote that nothing closes. */
  predicate IsOpen(rest: string) {
    rest != "" && rest[0] == '"' && StaysOpen(rest[1..])
  }

  predicate StaysOpen(s: string) {
    if s == "" then true
    else if s[0] == '"' then false
    else if s[0] == '\\' then |s| == 1 || StaysOpen(s[2..])
    else StaysOpen(s[1..])
  }

  /** What follows the pieces of a line: nothing, a comment, or a quote that is never closed. */
  predicate IsRest(rest: string) {
    rest == "" || rest[0] == '#' || IsOpen(rest)
  }

  lemma {:induction false} OpenScans(s: string)
    requires StaysOpen(s)
    ensures Find(Inside, s, '#') == |s|
  {
    if s != "" {
      if s[0] == '\\' {
        if |s| > 1 {
          assert s[1..][1..] == s[2..];
          OpenScans(s[2..]);
        } else {
          assert s[1..] == "";
        }
      } else {
        OpenScans(s[1..]);
      }
    }
  }

  lemma {:induction false} ClosingQuote(s: string) returns (n: nat)
    requires !StaysOpen(s)
    ensures n < |s| && IsRaw(s[..n]) && s[n] == '"'
  {
    if s[0] == '"' {
      n := 0;
    } else if s[0] == '\\' {
      var k := ClosingQuote(s[2..]);
      n := k + 2;
      assert s[..n][2..] == s[2..][..k];
    } else {
      var k := ClosingQuote(s[1..]);
      n := k + 1;
      assert s[..n][1..] == s[1..][..k];
    }
  }

  lemma RestKept(ps: seq<Piece>, rest: string)
    requires ArePieces(ps) && IsRest(rest)
    ensures WithoutComment(Text(ps) + rest) == if IsOpen(rest) then Text(ps) + rest else Text(ps)
  {
    var s := Text(ps) + rest;
    PiecesPass(ps);
    FindPast(Outside, Text(ps), rest, '#');
    if IsOpen(rest) {
      OpenScans(rest[1..]);
      assert s[..|s|] == s;
    } else {
      assert s[..|Text(ps)|] == Text(ps);
    }
  }

  lemma OneMorePiece(p: Piece, ps: seq<Piece>, rest: string)
    requires IsPiece(p) && ArePieces(ps)
    ensures ArePieces([p] + ps) && Text([p] + ps) + rest == PieceText(p) + (Text(ps) + rest)
  {
    hide PieceText;
    assert ([p] + ps)[1..] == ps;
  }

  lemma {:induction false} LineSplits(s: string) returns (ps: seq<Piece>, rest: string)
    ensures ArePieces(ps) && IsRest(rest) && s == Text(ps) + rest
    decreases |s|
  {
    hide Text, ArePieces;
    if IsRest(s) {
      ps, rest := [], s;
      NoPieces(s);
    } else {
      hide IsRest;
      var p, n;
      if s[0] == '"' {
        n := FirstQuoted(s);
        p := InQuotes(s[1..n - 1]);
      } else {
        p, n := Bare([s[0]]), 1;
      }
      var more;
      more, rest := LineSplits(s[n..]);
      OneMorePiece(p, more, rest);
      ps := [p] + more;
    }
  }

  lemma NoPieces(s: string)
    ensures ArePieces([]) && Text([]) + s == s
  {
  }

  /** A line that starts with a quote that something closes. */
  lemma FirstQuoted(s: string) returns (n: nat)
    requires s != "" && s[0] == '"' && !IsOpen(s)
    ensures 2 <= n <= |s| && IsRaw(s[1..n - 1]) && PieceText(InQuotes(s[1..n - 1])) + s[n..] == s
  {
    hide StaysOpen, IsRaw;
    var k := ClosingQuote(s[1..]);
    n := k + 2;
    assert s[1..][..k] == s[1..n - 1];
  }

  /** Every line is pieces and a rest; only a comment among the rests is dropped. */
  lemma EveryLine(s: string) returns (ps: seq<Piece>, rest: string)
    ensures ArePieces(ps) && IsRest(rest) && s == Text(ps) + rest
    ensures WithoutComment(s) == if IsOpen(rest) then s else Text(ps)
  {
    hide *;
    ps, rest := LineSplits(s);
    RestKept(ps, rest);
  }

  // ---- Comments and white space around a line ----

  /** White space that a line can hold. */
  predicate AllBlank(s: string) {
    forall i :: 0 <= i < |s| ==> s[i] == ' ' || s[i] == '\t' || s[i] == '\r' || s[i] == '\U{0B}' || s[i] == '\U{0C}'
  }

  predicate IsComment(c: string) {
    c == "" || c[0] == '#'
  }

  ghost predicate IsSplit(a: string, ps: seq<Piece>, c: string) {
    ArePieces(ps) && IsComment(c) && a == Text(ps) + c
  }

  /** Every quote of the line is closed, up to its comment. */
  ghost predicate IsClosed(a: string) {
    exists ps, c :: IsSplit(a, ps, c)
  }

  predicate IsDress(a: string, b: string, pre: string, post: string, c: string) {
    AllBlank(pre) && AllBlank(post) && IsComment(c) && b == pre + a + post + c
  }

  /** `b` is the line `a` with white space around it and a comment at its end, or `a` itself. */
  ghost predicate Decorates(a: string, b: string) {
    b == a || (IsClosed(a) && exists pre, post, c :: IsDress(a, b, pre, post, c))
  }

  /** A line of white space and comment only. */
  ghost predicate IsIdle(b: string) {
    exists pre, c :: IsDress("", b, pre, "", c)
  }

  lemma {:induction false} TrimStartPast(pre: string, s: string)
    requires AllBlank(pre)
    ensures TrimStart(pre + s) == TrimStart(s)
  {
    if pre == "" {
      assert pre + s == s;
    } else {
      assert (pre + s)[1..] == pre[1..] + s;
      TrimStartPast(pre[1..], s);
    }
  }

  lemma {:induction false} TrimEndPast(s: string, post: string)
    requires AllBlank(post)
    ensures TrimEnd(s + post) == TrimEnd(s)
    decreases |post|
  {
    if post == "" {
      assert s + post == s;
    } else {
      var n := |post| - 1;
      assert (s + post)[..|s + post| - 1] == s + post[..n];
      TrimEndPast(s, post[..n]);
    }
  }

  lemma {:induction false} TrimStartOf(s: string, post: string)
    requires AllBlank(post)
    ensures TrimStart(s) != "" ==> TrimStart(s + post) == TrimStart(s) + post
    ensures TrimStart(s) == "" ==> TrimStart(s + post) == ""
  {
    if s == "" {
      assert s + post == post && post + "" == post;
      TrimStartPast(post, "");
    } else {
      assert (s + post)[1..] == s[1..] + post;
      TrimStartOf(s[1..], post);
    }
  }

  lemma TrimBetween(pre: string, s: string, post: string)
    requires AllBlank(pre) && AllBlank(post)
    ensures Trimmed(pre + s + post) == Trimmed(s)
  {
    hide TrimStart, TrimEnd, AllBlank;
    assert pre + s + post == pre + (s + post);
    TrimStartPast(pre, s + post);
    TrimStartOf(s, post);
    TrimEndPast(TrimStart(s), post);
  }

  lemma BlankPasses(s: string)
    requires AllBlank(s)
    ensures Passes(s)
  {
    FindPastPlain(s, "", '#');
  }

  lemma WithoutItsComment(s: string, c: string)
    requires Passes(s) && IsComment(c)
    ensures WithoutComment(s + c) == s
  {
    hide Passes, WithoutComment;
    if c == "" {
      CommentCut(s, "");
      assert s + c == s;
    } else {
      CommentCut(s, c[1..]);
      assert s + c == s + "#" + c[1..];
    }
  }

  /** Dressing a closed line changes nothing but the white space around what it says. */
  lemma DressIsDropped(a: string, b: string, pre: string, post: string, c: string)
    requires IsClosed(a) && IsDress(a, b, pre, post, c)
    ensures Trimmed(WithoutComment(b)) == Trimmed(WithoutComment(a))
  {
    hide Passes, WithoutComment, Trimmed, AllBlank, Text, ArePieces;
    var ps, own :| IsSplit(a, ps, own);
    var s := Text(ps);
    PiecesPass(ps);
    BlankPasses(pre);
    BlankPasses(post);
    PassesTogether(pre, s);
    PassesTogether(pre + s, post);
    WithoutItsComment(s, own);
    if own == "" {
      assert s + own == s;
      WithoutItsComment(pre + s + post, c);
      TrimBetween(pre, s, post);
    } else {
      assert b == (pre + s) + (own + post + c);
      WithoutItsComment(pre + s, own + post + c);
      NoPost(pre + s);
      NothingIsBlank();
      TrimBetween(pre, s, "");
    }
  }

  lemma NoPost(s: string)
    ensures s + "" == s
  {
  }

  lemma NothingIsBlank()
    ensures AllBlank("")
  {
  }

  lemma DecoratedSaysTheSame(a: string, b: string)
    requires Decorates(a, b)
    ensures StatementOf(b) == StatementOf(a)
  {
    hide IsClosed, IsDress, WithoutComment, Trimmed, Unquoted;
    if b != a {
      var pre, post, c :| IsDress(a, b, pre, post, c);
      DressIsDropped(a, b, pre, post, c);
    }
  }

  lemma IdleSaysNothing(b: string)
    requires IsIdle(b)
    ensures StatementOf(b) == Blank
  {
    hide IsDress, WithoutComment, Trimmed, Unquoted, IsClosed;
    var pre, c :| IsDress("", b, pre, "", c);
    NothingIsClosed();
    DressIsDropped("", b, pre, "", c);
    NothingLeft();
  }

  lemma NothingIsClosed()
    ensures IsClosed("")
  {
    assert Text([]) + "" == "";
    assert IsSplit("", [], "");
  }

  lemma NothingLeft()
    ensures Trimmed(WithoutComment("")) == ""
  {
  }

  // ---- White space inside a line ----

  /** Around '=' any white space will do, or none. */
  lemma SpacedAssignment(key: string, gap: string, value: string)
    requires PlainKey(key) && AllBlank(gap) && Passes(value) && (value != "" ==> !IsSpace(value[|value| - 1]))
    ensures StatementOf(key + gap + "=" + value) == Assign(key, value)
  {
    var line := key + gap + "=" + value;
    var left := key + gap;
    assert line == left + ("=" + value) && line == (left + "=") + value;
    GapIsPlain(key, gap);
    FindPastPlain(left + "=", value, '#');
    assert line[..|line|] == line;
    FindPastPlain(left, "=" + value, '=');
    TightStays(line);
    TightStays(key);
    TrimBetween("", key, gap);
    assert "" + key + gap == left;
    assert line[..|left|] == left && line[|left| + 1..] == value;
  }

  lemma GapIsPlain(key: string, gap: string)
    requires PlainKey(key) && AllBlank(gap)
    ensures PlainFor(key + gap + "=", '#') && PlainFor(key + gap, '=')
  {
  }

  lemma TightStays(s: string)
    requires Tight(s)
    ensures Trimmed(s) == s
  {
  }

  /** A quoted value reads back whatever white space is around it. */
  lemma SpacedString(pre: string, s: string, post: string)
    requires AllBlank(pre) && AllBlank(post)
    ensures Unquote(pre + Quoted(s) + post) == Some(s)
  {
    hide Unescape, Quoted, Trimmed;
    QuotedFacts(s, '#');
    TrimBetween(pre, Quoted(s), post);
    TightStays(Quoted(s));
    SameTrimmed(pre + Quoted(s) + post, Quoted(s));
  }

  lemma SameTrimmed(a: string, b: string)
    requires Trimmed(a) == Trimmed(b)
    ensures Unquote(a) == Unquote(b)
  {
  }

  /** A schema version in decimal digits reads as its number. */
  lemma SpacedInteger(pre: string, n: nat, post: string)
    requires AllBlank(pre) && AllBlank(post)
    ensures L.IntegerOf(pre + Decimal(n) + post) == Some(n)
  {
    hide Trimmed, Decimal, L.DigitValue;
    DecimalDigits(n);
    TrimBetween(pre, Decimal(n), post);
    TightStays(Decimal(n));
  }

  lemma {:induction false} DecimalDigits(n: nat)
    ensures L.AllDigits(Decimal(n)) && Tight(Decimal(n)) && L.DigitValue(Decimal(n)) == n
  {
    var s := Decimal(n);
    if n < 10 {
      assert s[..0] == "";
    } else {
      DecimalDigits(n / 10);
      assert s[..|s| - 1] == Decimal(n / 10);
      assert s[|s| - 1] == DigitChar(n % 10);
    }
  }

  // ---- Whole files ----

  /** Lines with comments and white space added, and none inserted. */
  ghost predicate LineByLine(xs: seq<string>, ys: seq<string>) {
    |xs| == |ys| && forall i :: 0 <= i < |xs| ==> Decorates(xs[i], ys[i])
  }

  /** Lines with comments and white space added, and blank or comment lines between them. */
  ghost predicate Adorns(xs: seq<string>, ys: seq<string>)
    decreases |ys|
  {
    if ys == [] then xs == []
    else
      || (IsIdle(ys[0]) && Adorns(xs, ys[1..]))
      || (xs != [] && Decorates(xs[0], ys[0]) && Adorns(xs[1..], ys[1..]))
  }

  lemma RestLineByLine(xs: seq<string>, ys: seq<string>)
    requires LineByLine(xs, ys) && xs != []
    ensures Decorates(xs[0], ys[0]) && LineByLine(xs[1..], ys[1..])
  {
    hide Decorates;
  }

  // ---- Manifests ----

  lemma {:induction false} ManifestSteps(st: M.ParseState, xs: seq<string>, ys: seq<string>, line: nat)
    requires LineByLine(xs, ys)
    ensures M.Steps(st, ys, line) == M.Steps(st, xs, line)
    decreases |xs|
  {
    hide M.Step, StatementOf, Decorates, LineByLine;
    if xs == [] {
      assert ys == [] by { NoLines(ys); }
    } else {
      RestLineByLine(xs, ys);
      SameLength(xs, ys);
      DecoratedSaysTheSame(xs[0], ys[0]);
      var st' := M.Step(st, StatementOf(xs[0]));
      if st'.Ok? {
        ManifestSteps(st'.value, xs[1..], ys[1..], line + 1);
      }
    }
  }

  lemma NoLines(ys: seq<string>)
    requires LineByLine([], ys)
    ensures ys == []
  {
  }

  lemma SameLength(xs: seq<string>, ys: seq<string>)
    requires LineByLine(xs, ys)
    ensures |xs| == |ys|
  {
  }

  /** Comments and white space in the lines of any text leave the manifest, or the error, as it was. */
  lemma ManifestIgnoresComments(text: string, text': string)
    requires LineByLine(Lines(text), Lines(text'))
    ensures M.Read(text') == M.Read(text)
  {
    hide M.Step, StatementOf, LineByLine, M.FieldError, Lines;
    ManifestSteps(M.START, Lines(text), Lines(text'), 0);
  }

  /** Lines between the others change the number of an erroneous line, and nothing else. */
  lemma {:induction false} AdornedManifestSteps(st: M.ParseState, xs: seq<string>, ys: seq<string>, line: nat, line': nat)
    requires Adorns(xs, ys)
    ensures M.Steps(st, xs, line).Ok? ==> M.Steps(st, ys, line') == M.Steps(st, xs, line)
    ensures M.Steps(st, xs, line).Err? ==>
      M.Steps(st, ys, line').Err? && M.Steps(st, ys, line').error.code == M.Steps(st, xs, line).error.code
    decreases |ys|
  {
    hide M.Step, StatementOf, Decorates, IsIdle;
    if ys != [] {
      if IsIdle(ys[0]) && Adorns(xs, ys[1..]) {
        IdleSaysNothing(ys[0]);
        ManifestSkips(st);
        AdornedManifestSteps(st, xs, ys[1..], line, line' + 1);
      } else {
        DecoratedSaysTheSame(xs[0], ys[0]);
        var st' := M.Step(st, StatementOf(xs[0]));
        if st'.Ok? {
          AdornedManifestSteps(st'.value, xs[1..], ys[1..], line + 1, line' + 1);
        }
      }
    }
  }

  lemma ManifestSkips(st: M.ParseState)
    ensures M.Step(st, Blank) == Ok(st)
  {
  }

  lemma ManifestIgnoresLayout(text: string, text': string)
    requires Adorns(Lines(text), Lines(text'))
    ensures M.Read(text).Ok? ==> M.Read(text') == M.Read(text)
    ensures M.Read(text).Err? ==> M.Read(text').Err? && M.Read(text').error.code == M.Read(text).error.code
  {
    hide M.Step, StatementOf, Adorns, M.FieldError, Lines, M.Steps;
    AdornedManifestSteps(M.START, Lines(text), Lines(text'), 0, 0);
  }

  /** The error names the first line that cannot be read, and what is wrong with it. */
  lemma {:induction false} ManifestErrorLine(st: M.ParseState, lines: seq<string>, line: nat)
    requires M.Steps(st, lines, line).Err?
    ensures
      var e := M.Steps(st, lines, line).error;
      && line < e.line <= line + |lines|
      && M.Steps(st, lines[..e.line - line - 1], line).Ok?
      && M.Step(M.Steps(st, lines[..e.line - line - 1], line).value, StatementOf(lines[e.line - line - 1])) == Err(e.code)
    decreases |lines|
  {
    hide M.Step, StatementOf;
    var st' := M.Step(st, StatementOf(lines[0]));
    if st'.Ok? {
      ManifestErrorLine(st'.value, lines[1..], line + 1);
      var n := M.Steps(st, lines, line).error.line - line - 1;
      assert lines[..n][0] == lines[0] && lines[..n][1..] == lines[1..][..n - 1];
    } else {
      assert lines[..0] == [];
    }
  }

  // ---- Lockfiles ----

  lemma {:induction false} LockfileSteps(st: L.ParseState, xs: seq<string>, ys: seq<string>, line: nat)
    requires LineByLine(xs, ys) && st.Valid()
    ensures L.Steps(st, ys, line) == L.Steps(st, xs, line)
    decreases |xs|
  {
    hide L.Step, StatementOf, Decorates, LineByLine;
    if xs == [] {
      assert ys == [] by { NoLines(ys); }
    } else {
      RestLineByLine(xs, ys);
      SameLength(xs, ys);
      DecoratedSaysTheSame(xs[0], ys[0]);
      var st' := L.Step(st, StatementOf(xs[0]), line + 1);
      if st'.Ok? {
        LockfileSteps(st'.value, xs[1..], ys[1..], line + 1);
      }
    }
  }

  lemma LockfileIgnoresComments(text: string, text': string)
    requires LineByLine(Lines(text), Lines(text'))
    ensures L.Parse(text') == L.Parse(text)
  {
    hide L.Step, StatementOf, LineByLine, L.FirstError, Lines;
    LockfileSteps(L.START, Lines(text), Lines(text'), 0);
  }

  /** A step's error carries the line it was made on; the line decides nothing else. */
  lemma StepOnLine(st: L.ParseState, s: Statement, line: nat, line': nat)
    requires st.Valid()
    ensures L.Step(st, s, line).Ok? ==> L.Step(st, s, line') == L.Step(st, s, line)
    ensures L.Step(st, s, line).Err? ==>
      L.Step(st, s, line') == Err(L.Step(st, s, line).error.(line := line')) && L.Step(st, s, line).error.line == line
  {
  }

  lemma {:induction false} AdornedLockfileSteps(st: L.ParseState, xs: seq<string>, ys: seq<string>, line: nat, line': nat)
    requires Adorns(xs, ys) && st.Valid()
    ensures L.Steps(st, xs, line).Ok? ==> L.Steps(st, ys, line') == L.Steps(st, xs, line)
    ensures L.Steps(st, xs, line).Err? ==>
      L.Steps(st, ys, line').Err? && L.Steps(st, ys, line').error.code == L.Steps(st, xs, line).error.code
    decreases |ys|
  {
    hide L.Step, StatementOf, Decorates, IsIdle;
    if ys != [] {
      if IsIdle(ys[0]) && Adorns(xs, ys[1..]) {
        IdleSaysNothing(ys[0]);
        LockfileSkips(st, line' + 1);
        AdornedLockfileSteps(st, xs, ys[1..], line, line' + 1);
      } else {
        DecoratedSaysTheSame(xs[0], ys[0]);
        StepOnLine(st, StatementOf(xs[0]), line + 1, line' + 1);
        var st' := L.Step(st, StatementOf(xs[0]), line + 1);
        if st'.Ok? {
          AdornedLockfileSteps(st'.value, xs[1..], ys[1..], line + 1, line' + 1);
        }
      }
    }
  }

  lemma LockfileSkips(st: L.ParseState, line: nat)
    requires st.Valid()
    ensures L.Step(st, Blank, line) == Ok(st)
  {
  }

  lemma LockfileIgnoresLayout(text: string, text': string)
    requires Adorns(Lines(text), Lines(text'))
    ensures L.Parse(text).Ok? ==> L.Parse(text') == L.Parse(text)
    ensures L.Parse(text).Err? ==> L.Parse(text').Err? && L.Parse(text').error.code == L.Parse(text).error.code
  {
    hide L.Step, StatementOf, Adorns, L.FirstError, Lines, L.Steps;
    AdornedLockfileSteps(L.START, Lines(text), Lines(text'), 0, 0);
  }

  lemma {:induction false} LockfileErrorLine(st: L.ParseState, lines: seq<string>, line: nat)
    requires st.Valid() && L.Steps(st, lines, line).Err?
    ensures
      var e := L.Steps(st, lines, line).error;
      && line < e.line <= line + |lines|
      && L.Steps(st, lines[..e.line - line - 1], line).Ok?
      && L.Step(L.Steps(st, lines[..e.line - line - 1], line).value, StatementOf(lines[e.line - line - 1]), e.line) == Err(e)
    decreases |lines|
  {
    hide L.Step, StatementOf;
    StepOnLine(st, StatementOf(lines[0]), line + 1, line + 1);
    var st' := L.Step(st, StatementOf(lines[0]), line + 1);
    if st'.Ok? {
      LockfileErrorLine(st'.value, lines[1..], line + 1);
      var n := L.Steps(st, lines, line).error.line - line - 1;
      assert lines[..n][0] == lines[0] && lines[..n][1..] == lines[1..][..n - 1];
    } else {
      assert lines[..0] == [];
    }
  }

  // ---- Written files ----

  ghost predicate IsPieced(s: string) {
    exists ps :: ArePieces(ps) && s == Text(ps)
  }

  lemma {:induction false} TextsTogether(ps: seq<Piece>, qs: seq<Piece>)
    ensures Text(ps + qs) == Text(ps) + Text(qs)
  {
    hide PieceText;
    if ps == [] {
      assert ps + qs == qs;
    } else {
      assert (ps + qs)[1..] == ps[1..] + qs;
      TextsTogether(ps[1..], qs);
    }
  }

  lemma PiecedTogether(a: string, b: string)
    requires IsPieced(a) && IsPieced(b)
    ensures IsPieced(a + b)
  {
    hide Text, IsPiece;
    var ps :| ArePieces(ps) && a == Text(ps);
    var qs :| ArePieces(qs) && b == Text(qs);
    TextsTogether(ps, qs);
    assert ArePieces(ps + qs);
  }

  lemma OnePieced(p: Piece)
    requires IsPiece(p)
    ensures IsPieced(PieceText(p))
  {
    hide PieceText, IsPiece;
    assert [p][1..] == [];
    assert Text([p]) == PieceText(p) + "";
    assert ArePieces([p]);
  }

  lemma BarePieced(s: string)
    requires '"' !in s && '#' !in s
    ensures IsPieced(s)
  {
    OnePieced(Bare(s));
  }

  lemma {:induction false} EscapedIsRaw(s: string)
    ensures IsRaw(Escape(s))
  {
    if s != "" {
      EscapedIsRaw(s[1..]);
      var e, rest := EscapeChar(s[0]), Escape(s[1..]);
      if |e| == 1 {
        assert (e + rest)[1..] == rest;
      } else {
        assert (e + rest)[2..] == rest;
      }
    }
  }

  lemma QuotedPieced(s: string)
    ensures IsPieced(Quoted(s))
  {
    EscapedIsRaw(s);
    OnePieced(InQuotes(Escape(s)));
  }

  lemma PiecedIsClosed(s: string)
    requires IsPieced(s)
    ensures IsClosed(s)
  {
    hide Text, ArePieces;
    var ps :| ArePieces(ps) && s == Text(ps);
    assert s == Text(ps) + "";
    assert IsSplit(s, ps, "");
  }

  lemma PairPieced(key: string, value: string)
    requires '"' !in key && '#' !in key
    ensures IsPieced(AssignmentText(key, Quoted(value)))
  {
    hide IsPieced, Quoted;
    BarePieced(key + " = ");
    QuotedPieced(value);
    PiecedTogether(key + " = ", Quoted(value));
  }

  ghost predicate AllPieced(lines: seq<string>) {
    forall i :: 0 <= i < |lines| ==> IsPieced(lines[i])
  }

  lemma TablePieced(d: M.ManifestDependency)
    ensures IsPieced(M.TableText(d))
  {
    hide IsPieced, AssignmentText, Quoted;
    match d.kind {
      case Path =>
        PairPieced("path", d.path);
      case Git =>
        PairPieced("git", d.git);
        PairPieced("rev", d.rev);
        ListedPieced(M.PairText("git", d.git), M.PairText("rev", d.rev));
      case Tarball =>
        PairPieced("tarball", d.tarball);
        PairPieced("sha256", d.sha256);
        ListedPieced(M.PairText("tarball", d.tarball), M.PairText("sha256", d.sha256));
    }
  }

  lemma ListedPieced(a: string, b: string)
    requires IsPieced(a) && IsPieced(b)
    ensures IsPieced(a + ", " + b)
  {
    hide IsPieced;
    BarePieced(", ");
    PiecedTogether(a, ", ");
    PiecedTogether(a + ", ", b);
  }

  lemma DependencyPieced(d: M.ManifestDependency)
    requires M.ValidPackageName(d.name)
    ensures IsPieced(M.DependencyText(d))
  {
    hide IsPieced, M.TableText;
    NameIsBare(d.name);
    TablePieced(d);
    var t := M.TableText(d);
    BarePieced(d.name + " = { ");
    BarePieced(" }");
    PiecedTogether(d.name + " = { ", t);
    PiecedTogether(d.name + " = { " + t, " }");
    assert d.name + " = " + ("{ " + t + " }") == d.name + " = { " + t + " }";
  }

  lemma NameIsBare(name: string)
    requires M.ValidPackageName(name)
    ensures '"' !in name && '#' !in name
  {
    assert !M.NameChar('"') && !M.NameChar('#');
  }

  lemma {:induction false} DependenciesPieced(ds: seq<M.ManifestDependency>)
    requires forall i :: 0 <= i < |ds| ==> M.ValidPackageName(ds[i].name)
    ensures AllPieced(M.DependencyLines(ds))
  {
    hide IsPieced, M.DependencyText, M.ValidPackageName;
    if ds != [] {
      DependencyPieced(ds[0]);
      DependenciesPieced(ds[1..]);
    }
  }

  lemma HeadPieced(m: M.Manifest)
    ensures AllPieced(M.HeadLines(m))
  {
    hide IsPieced, AssignmentText, Quoted;
    PairPieced("name", m.name);
    PairPieced("version", m.version);
    PairPieced("license", m.license);
    PairPieced("eta", m.eta);
    SectionsPieced();
  }

  lemma SectionsPieced()
    ensures IsPieced("[package]") && IsPieced("") && IsPieced("[compatibility]") && IsPieced("[dependencies]")
  {
    hide IsPieced;
    BarePieced("[package]");
    BarePieced("");
    BarePieced("[compatibility]");
    BarePieced("[dependencies]");
  }

  /** A written manifest with comments, white space and blank lines added reads back as it was. */
  lemma CommentedManifestReadsBack(m: M.Manifest, lines: seq<string>)
    requires MR.Valid(m) && MR.OwnFieldsOnly(m)
    requires Adorns(M.ManifestLines(m), lines) && forall i :: 0 <= i < |lines| ==> OneLine(lines[i])
    ensures M.Read(Assemble(lines)) == Ok(m)
  {
    hide M.Read, Adorns, M.HeadLines, M.DependencyLines, M.FieldError, MR.ValidDependency, MR.OwnFields, OneLine;
    MR.RoundTrip(m);
    MR.ManifestLinesAreOneLine(m);
    LinesOfAssembled(M.ManifestLines(m));
    LinesOfAssembled(lines);
    ManifestIgnoresLayout(M.Render(m), Assemble(lines));
  }

  /** Every line of a written manifest takes a comment. */
  lemma WrittenManifestIsClosed(m: M.Manifest, i: nat)
    requires MR.Valid(m) && i < |M.ManifestLines(m)|
    ensures IsClosed(M.ManifestLines(m)[i])
  {
    hide IsPieced, IsClosed, M.HeadLines, M.DependencyLines, M.FieldError, M.ValidPackageName, MR.DistinctNames, MR.NamesApart;
    HeadPieced(m);
    DependenciesPieced(m.dependencies);
    DependenciesPieced(m.devDependencies);
    BarePieced("");
    BarePieced("[dev-dependencies]");
    PiecedIsClosed(M.ManifestLines(m)[i]);
  }

  lemma {:induction false} EntriesPieced(ds: seq<L.LockedDependency>)
    ensures IsPieced(L.EntriesText(ds))
  {
    hide IsPieced, Quoted;
    if ds == [] {
      BarePieced("");
    } else {
      QuotedPieced(ds[0].name + "@" + ds[0].version);
      if |ds| > 1 {
        EntriesPieced(ds[1..]);
        ListedPieced(L.EntryText(ds[0]), L.EntriesText(ds[1..]));
      }
    }
  }

  lemma PackagePieced(p: L.LockfilePackage)
    ensures AllPieced(L.PackageLines(p))
  {
    hide IsPieced, Quoted, L.EntriesText;
    BarePieced("");
    BarePieced("[[package]]");
    PairPieced("name", p.name);
    PairPieced("version", p.version);
    PairPieced("source", p.source);
    EntriesPieced(p.dependencies);
    ListPieced(L.EntriesText(p.dependencies));
  }

  lemma ListPieced(entries: string)
    requires IsPieced(entries)
    ensures IsPieced(AssignmentText("dependencies", "[" + entries + "]"))
  {
    hide IsPieced;
    BarePieced("dependencies = [");
    BarePieced("]");
    PiecedTogether("dependencies = [", entries);
    PiecedTogether("dependencies = [" + entries, "]");
    assert "dependencies" + " = " + ("[" + entries + "]") == "dependencies = [" + entries + "]";
  }

  lemma {:induction false} PackagesPieced(ps: seq<L.LockfilePackage>)
    ensures AllPieced(L.AllPackageLines(ps))
  {
    hide IsPieced, L.PackageLines;
    if ps != [] {
      PackagePieced(ps[0]);
      PackagesPieced(ps[1..]);
    }
  }

  lemma HeaderClosed()
    ensures IsClosed(L.HEADER[0]) && IsClosed(L.HEADER[1])
  {
    assert L.HEADER[0] == Text([]) + L.HEADER[0];
    assert IsSplit(L.HEADER[0], [], L.HEADER[0]);
    BarePieced(L.HEADER[1]);
    PiecedIsClosed(L.HEADER[1]);
  }

  /** A written lockfile with comments, white space and blank lines added reads back as it was. */
  lemma CommentedLockfileReadsBack(ps: seq<L.LockfilePackage>, lines: seq<string>)
    requires LR.WellFormed(ps)
    requires Adorns(L.HEADER + L.AllPackageLines(ps), lines) && forall i :: 0 <= i < |lines| ==> OneLine(lines[i])
    ensures L.Parse(Assemble(lines)) == Ok(L.Lockfile(1, ps))
  {
    hide L.Parse, Adorns, L.AllPackageLines, OneLine, LR.WellFormed;
    LR.RoundTrip(ps);
    LR.HeaderReads();
    LR.NoNewlines(ps);
    LinesOfAssembled(L.HEADER + L.AllPackageLines(ps));
    LinesOfAssembled(lines);
    LockfileIgnoresLayout(L.Render(ps), Assemble(lines));
  }

  /** Every line of a written lockfile takes a comment. */
  lemma WrittenLockfileIsClosed(ps: seq<L.LockfilePackage>, i: nat)
    requires i < |L.HEADER + L.AllPackageLines(ps)|
    ensures IsClosed((L.HEADER + L.AllPackageLines(ps))[i])
  {
    hide IsPieced, IsClosed, L.AllPackageLines;
    HeaderClosed();
    if i >= 2 {
      PackagesPieced(ps);
      PiecedIsClosed(L.AllPackageLines(ps)[i - 2]);
    }
  }
}
