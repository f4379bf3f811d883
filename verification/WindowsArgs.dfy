/**
 Windows command lines: `quote_windows_arg` and `build_windows_command_line` of
 eta/cli/src/eta/cli/main_eta.cpp, against Microsoft's documented rules for parsing C++
 command-line arguments.
 */
module WindowsArgs {

  predicate IsBlank(c: char) {
    c == ' ' || c == '\t'
  }

  function Backslashes(n: nat): (s: string)
    ensures |s| == n
  {
    seq(n, _ => '\\')
  }

  // ---- Building the line ----

  predicate NeedsQuotes(arg: string) {
    exists i :: 0 <= i < |arg| && (IsBlank(arg[i]) || arg[i] == '"')
  }

  /** The rest of a quoted argument when `pending` backslashes have been seen but not written. */
  function QuotedRest(s: string, pending: nat): string {
    if s == "" then Backslashes(2 * pending) + "\""
    else if s[0] == '\\' then QuotedRest(s[1..], pending + 1)
    else if s[0] == '"' then Backslashes(2 * pending + 1) + ("\"" + QuotedRest(s[1..], 0))
    else Backslashes(pending) + ([s[0]] + QuotedRest(s[1..], 0))
  }

  function QuotedArg(arg: string): string {
    if arg == "" then "\"\"" else if NeedsQuotes(arg) then "\"" + QuotedRest(arg, 0) else arg
  }

  function QuotedArgs(args: seq<string>): string {
    if args == [] then "" else QuotedArgs(args[..|args| - 1]) + " " + QuotedArg(args[|args| - 1])
  }

  function CommandLine(program: string, args: seq<string>): string {
    QuotedArg(program) + QuotedArgs(args)
  }

  method QuoteWindowsArg(arg: string) returns (out: string)
    ensures out == QuotedArg(arg)
  {
    if arg == "" {
      return "\"\"";
    }
    var needsQuotes := false;
    var i := 0;
    while i < |arg| && !needsQuotes
      invariant 0 <= i <= |arg|
      invariant needsQuotes ==> NeedsQuotes(arg)
      invariant !needsQuotes ==> forall j :: 0 <= j < i ==> !IsBlank(arg[j]) && arg[j] != '"'
    {
      needsQuotes := IsBlank(arg[i]) || arg[i] == '"';
      i := i + 1;
    }
    if !needsQuotes {
      return arg;
    }
    out := "\"";
    var backslashes := 0;
    i := 0;
    while i < |arg|
      invariant 0 <= i <= |arg|
      invariant out + QuotedRest(arg[i..], backslashes) == "\"" + QuotedRest(arg, 0)
    {
      var c := arg[i];
      ghost var before, rest := out, QuotedRest(arg[i + 1..], 0);
      if c == '\\' {
        backslashes := backslashes + 1;
      } else if c == '"' {
        out := out + Backslashes(backslashes * 2 + 1) + "\"";
        assert out + rest == before + (Backslashes(2 * backslashes + 1) + ("\"" + rest));
        backslashes := 0;
      } else {
        out := out + Backslashes(backslashes) + [c];
        assert out + rest == before + (Backslashes(backslashes) + ([c] + rest));
        backslashes := 0;
      }
      i := i + 1;
    }
    out := out + Backslashes(backslashes * 2) + "\"";
  }

  method BuildWindowsCommandLine(program: string, args: seq<string>) returns (command: string)
    ensures command == CommandLine(program, args)
  {
    command := QuoteWindowsArg(program);
    var i := 0;
    while i < |args|
      invariant 0 <= i <= |args|
      invariant command == QuotedArg(program) + QuotedArgs(args[..i])
    {
      var arg := QuoteWindowsArg(args[i]);
      assert args[..i + 1][..i] == args[..i];
      command := command + " " + arg;
      i := i + 1;
    }
    assert args[..i] == args;
  }

  // ---- Microsoft's parsing rules ----

  function BackslashRun(s: string): (n: nat)
    ensures n <= |s| && forall i :: 0 <= i < n ==> s[i] == '\\'
    ensures n < |s| ==> s[n] != '\\'
  {
    if s == "" || s[0] != '\\' then 0 else 1 + BackslashRun(s[1..])
  }

  datatype ArgEnd = ArgEnd(text: string, rest: string)

  /**
   Reads on in one argument. Backslashes are literal unless a quote follows the run: then each
   pair gives one backslash and an odd one makes the quote literal. Inside quotes a doubled quote
   is a literal one; outside, a blank ends the argument.
   */
  function ReadArg(s: string, quoted: bool, text: string): (r: ArgEnd)
    ensures |r.rest| <= |s|
    ensures s != "" && !IsBlank(s[0]) ==> |r.rest| < |s|
    decreases |s|
  {
    var n := BackslashRun(s);
    if s == "" then ArgEnd(text, "")
    else if n > 0 then
      if n < |s| && s[n] == '"' then
        if n % 2 == 1 then ReadArg(s[n + 1..], quoted, text + Backslashes(n / 2) + "\"")
        else ReadArg(s[n..], quoted, text + Backslashes(n / 2))
      else ReadArg(s[n..], quoted, text + Backslashes(n))
    else if s[0] == '"' then
      if quoted && |s| > 1 && s[1] == '"' then ReadArg(s[2..], true, text + "\"")
      else ReadArg(s[1..], !quoted, text)
    else if IsBlank(s[0]) && !quoted then ArgEnd(text, s)
    else ReadArg(s[1..], quoted, text + [s[0]])
  }

  function SkipBlanks(s: string): (r: string)
    ensures |r| <= |s| && (r != "" ==> !IsBlank(r[0]))
  {
    if s != "" && IsBlank(s[0]) then SkipBlanks(s[1..]) else s
  }

  /** The arguments after the program name. */
  function Split(s: string): seq<string>
    decreases |s|
  {
    var t := SkipBlanks(s);
    if t == "" then []
    else
      var a := ReadArg(t, false, "");
      [a.text] + Split(a.rest)
  }

  /** The program name is special: quotes only switch, and backslashes mean nothing. */
  function AfterProgram(s: string, quoted: bool): string {
    if s == "" then ""
    else if s[0] == '"' then AfterProgram(s[1..], !quoted)
    else if IsBlank(s[0]) && !quoted then s
    else AfterProgram(s[1..], quoted)
  }

  function ParsedArgs(line: string): seq<string> {
    Split(AfterProgram(line, false))
  }

  // ---- One argument survives ----

  lemma Regroup(a: string, b: string, c: string)
    ensures (a + b) + c == a + (b + c)
  {
  }

  lemma FirstAndRest(s: string, rest: string)
    requires s != ""
    ensures s == [s[0]] + s[1..] && (s + rest)[0] == s[0] && (s + rest)[1..] == s[1..] + rest
  {
  }

  lemma TakeAndDrop(s: string, n: nat)
    requires n <= |s|
    ensures s == s[..n] + s[n..]
  {
  }

  predicate EndsArg(rest: string) {
    rest == "" || IsBlank(rest[0])
  }

  lemma {:induction false} RunOf(n: nat, rest: string)
    requires rest == "" || rest[0] != '\\'
    ensures BackslashRun(Backslashes(n) + rest) == n
    ensures (Backslashes(n) + rest)[n..] == rest
    decreases n
  {
    var s := Backslashes(n) + rest;
    if n == 0 {
      assert s == rest;
    } else {
      assert s[1..] == Backslashes(n - 1) + rest;
      RunOf(n - 1, rest);
    }
  }

  /** A quoted argument is read back: pending backslashes, then the rest of its text. */
  lemma {:induction false} QuotedReadsBack(s: string, pending: nat, rest: string, text: string)
    requires EndsArg(rest)
    ensures ReadArg(QuotedRest(s, pending) + rest, true, text) == ArgEnd(text + Backslashes(pending) + s, rest)
    decreases |s|
  {
    hide ReadArg, BackslashRun;
    if s == "" {
      ClosingQuote(pending, rest, text);
      assert QuotedRest(s, pending) + rest == Backslashes(2 * pending) + ("\"" + rest);
      assert text + Backslashes(pending) + s == text + Backslashes(pending);
    } else {
      var more := QuotedRest(s[1..], 0) + rest;
      assert s == [s[0]] + s[1..];
      if s[0] == '\\' {
        QuotedReadsBack(s[1..], pending + 1, rest, text);
        assert text + Backslashes(pending + 1) + s[1..] == text + Backslashes(pending) + s;
      } else if s[0] == '"' {
        assert QuotedRest(s, pending) + rest == Backslashes(2 * pending + 1) + ("\"" + more);
        LiteralQuote(pending, more, text);
        QuotedReadsBack(s[1..], 0, rest, text + Backslashes(pending) + "\"");
        assert text + Backslashes(pending) + "\"" + Backslashes(0) + s[1..] == text + Backslashes(pending) + s;
      } else {
        assert QuotedRest(s, pending) + rest == Backslashes(pending) + ([s[0]] + more);
        OtherChar(pending, s[0], more, text);
        QuotedReadsBack(s[1..], 0, rest, text + Backslashes(pending) + [s[0]]);
        assert text + Backslashes(pending) + [s[0]] + Backslashes(0) + s[1..] == text + Backslashes(pending) + s;
      }
    }
  }

  lemma ClosingQuote(n: nat, rest: string, text: string)
    requires EndsArg(rest)
    ensures ReadArg(Backslashes(2 * n) + ("\"" + rest), true, text) == ArgEnd(text + Backslashes(n), rest)
  {
    var q := "\"" + rest;
    RunOf(2 * n, q);
    assert q[1..] == rest;
    RunOf(0, rest);
    assert Backslashes(0) + rest == rest;
    assert text + Backslashes(0) == text;
    assert ReadArg(rest, false, text + Backslashes(n)) == ArgEnd(text + Backslashes(n), rest);
    RunOf(0, q);
    assert Backslashes(0) + q == q;
    assert ReadArg(q, true, text + Backslashes(n)) == ReadArg(rest, false, text + Backslashes(n));
  }

  lemma LiteralQuote(n: nat, more: string, text: string)
    ensures ReadArg(Backslashes(2 * n + 1) + ("\"" + more), true, text) == ReadArg(more, true, text + Backslashes(n) + "\"")
  {
    var q := "\"" + more;
    var s := Backslashes(2 * n + 1) + q;
    RunOf(2 * n + 1, q);
    Odd(n);
    assert s[2 * n + 1] == '"' && s[2 * n + 2..] == more;
    hide BackslashRun, Backslashes;
    assert ReadArg(s, true, text) == ReadArg(more, true, text + Backslashes(n) + "\"");
  }

  lemma Odd(n: nat)
    ensures (2 * n + 1) % 2 == 1 && (2 * n + 1) / 2 == n
  {
  }

  lemma OtherChar(n: nat, c: char, more: string, text: string)
    requires c != '\\' && c != '"'
    ensures ReadArg(Backslashes(n) + ([c] + more), true, text) == ReadArg(more, true, text + Backslashes(n) + [c])
  {
    var q := [c] + more;
    RunOf(n, q);
    RunOf(0, q);
    assert Backslashes(0) + q == q && q[1..] == more && text + Backslashes(0) == text;
    assert ReadArg(q, true, text + Backslashes(n)) == ReadArg(more, true, text + Backslashes(n) + [c]);
  }

  /** An argument written as it is, is read as it is. */
  lemma {:induction false} PlainReadsBack(s: string, rest: string, text: string)
    requires EndsArg(rest) && !NeedsQuotes(s)
    ensures ReadArg(s + rest, false, text) == ArgEnd(text + s, rest)
    decreases |s|
  {
    hide ReadArg, BackslashRun, Backslashes, NeedsQuotes;
    if s == "" {
      assert s + rest == rest && text + s == text;
      ArgEnds(rest, text);
    } else {
      var n := BackslashRun(s);
      RunInside(s, rest);
      NotQuoted(s);
      if n > 0 {
        PlainRun(s + rest, text);
        PlainReadsBack(s[n..], rest, text + Backslashes(n));
        Regroup(text, Backslashes(n), s[n..]);
      } else {
        FirstAndRest(s, rest);
        PlainChar(s + rest, text);
        PlainReadsBack(s[1..], rest, text + [s[0]]);
        Regroup(text, [s[0]], s[1..]);
      }
    }
  }

  lemma ArgEnds(rest: string, text: string)
    requires EndsArg(rest)
    ensures ReadArg(rest, false, text) == ArgEnd(text, rest)
  {
  }

  lemma PlainRun(s: string, text: string)
    requires var n := BackslashRun(s); n > 0 && (n < |s| ==> s[n] != '"')
    ensures ReadArg(s, false, text) == ReadArg(s[BackslashRun(s)..], false, text + Backslashes(BackslashRun(s)))
  {
    hide BackslashRun;
  }

  lemma PlainChar(s: string, text: string)
    requires s != "" && BackslashRun(s) == 0 && s[0] != '"' && !IsBlank(s[0])
    ensures ReadArg(s, false, text) == ReadArg(s[1..], false, text + [s[0]])
  {
    hide BackslashRun;
  }

  lemma NotQuoted(s: string)
    requires !NeedsQuotes(s)
    ensures forall k :: 0 <= k <= |s| ==> !NeedsQuotes(s[k..])
    ensures forall k :: 0 <= k < |s| ==> s[k] != '"' && !IsBlank(s[k])
  {
  }

  lemma RunInside(s: string, rest: string)
    requires EndsArg(rest) && !NeedsQuotes(s)
    ensures var n := BackslashRun(s);
      && BackslashRun(s + rest) == n && s == Backslashes(n) + s[n..]
      && (s + rest)[n..] == s[n..] + rest
      && (n < |s + rest| ==> (s + rest)[n] != '"')
  {
    var n := BackslashRun(s);
    NotQuoted(s);
    assert s[..n] == Backslashes(n);
    hide Backslashes, BackslashRun, NeedsQuotes;
    TakeAndDrop(s, n);
    Regroup(s[..n], s[n..], rest);
    var t := s[n..] + rest;
    assert t != "" ==> t[0] == if n < |s| then s[n] else rest[0];
    RunOf(n, t);
    assert n < |s + rest| ==> (s + rest)[n] == t[0];
  }

  lemma ArgReadsBack(arg: string, rest: string)
    requires EndsArg(rest)
    ensures ReadArg(QuotedArg(arg) + rest, false, "") == ArgEnd(arg, rest)
  {
    hide QuotedRest;
    if arg == "" || NeedsQuotes(arg) {
      QuotedReadsBack(arg, 0, rest, "");
      var body := QuotedRest(arg, 0) + rest;
      EmptyQuoted();
      assert QuotedArg(arg) + rest == "\"" + body;
      assert ("\"" + body)[1..] == body;
      assert "" + Backslashes(0) + arg == arg;
    } else {
      PlainReadsBack(arg, rest, "");
    }
  }

  lemma EmptyQuoted()
    ensures "\"" + QuotedRest("", 0) == "\"\""
  {
    assert QuotedRest("", 0) == Backslashes(0) + "\"" == "\"";
  }

  // ---- All arguments survive ----

  lemma {:induction false} ArgsReadBack(args: seq<string>, rest: string)
    requires EndsArg(rest)
    ensures Split(QuotedArgs(args) + rest) == args + Split(rest)
    decreases |args|
  {
    hide Split, QuotedArg;
    if args == [] {
      assert QuotedArgs(args) + rest == rest && args + Split(rest) == Split(rest);
    } else {
      var before, arg := args[..|args| - 1], args[|args| - 1];
      var after := " " + (QuotedArg(arg) + rest);
      assert QuotedArgs(args) + rest == QuotedArgs(before) + after;
      ArgsReadBack(before, after);
      OneMoreArg(arg, rest);
      assert args == before + [arg];
      assert before + ([arg] + Split(rest)) == args + Split(rest);
    }
  }

  lemma OneMoreArg(arg: string, rest: string)
    requires EndsArg(rest)
    ensures Split(" " + (QuotedArg(arg) + rest)) == [arg] + Split(rest)
  {
    var t := QuotedArg(arg) + rest;
    QuotedStarts(arg);
    ArgReadsBack(arg, rest);
    assert (" " + t)[1..] == t;
    hide ReadArg, QuotedArg, QuotedRest;
    assert t != "" && t[0] == QuotedArg(arg)[0] && SkipBlanks(t) == t;
    assert SkipBlanks(" " + t) == SkipBlanks(t);
  }

  lemma QuotedStarts(arg: string)
    ensures QuotedArg(arg) != "" && !IsBlank(QuotedArg(arg)[0])
  {
    if arg != "" && !NeedsQuotes(arg) {
      NotQuoted(arg);
    }
  }

  // ---- The program name ----

  /** Blanks come after an even number of quotes only, and the quotes in it are even in number. */
  predicate SafeInside(s: string, odd: bool) {
    if s == "" then !odd
    else if s[0] == '"' then SafeInside(s[1..], !odd)
    else (IsBlank(s[0]) ==> !odd) && SafeInside(s[1..], odd)
  }

  predicate SafeProgram(program: string) {
    NeedsQuotes(program) ==> SafeInside(program, false)
  }

  lemma {:induction false} AfterBackslashes(n: nat, s: string, quoted: bool)
    ensures AfterProgram(Backslashes(n) + s, quoted) == AfterProgram(s, quoted)
    decreases n
  {
    var t := Backslashes(n) + s;
    if n == 0 {
      assert t == s;
    } else {
      assert t[1..] == Backslashes(n - 1) + s;
      AfterBackslashes(n - 1, s, quoted);
    }
  }

  /** How the three kinds of character in a quoted program name are passed. */
  lemma PassQuote(pending: nat, more: string, quoted: bool)
    ensures AfterProgram(Backslashes(2 * pending + 1) + ("\"" + more), quoted) == AfterProgram(more, !quoted)
  {
    AfterBackslashes(2 * pending + 1, "\"" + more, quoted);
    AfterQuote(more, quoted);
  }

  lemma PassChar(pending: nat, c: char, more: string, quoted: bool)
    requires c != '"' && (IsBlank(c) ==> quoted)
    ensures AfterProgram(Backslashes(pending) + ([c] + more), quoted) == AfterProgram(more, quoted)
  {
    AfterBackslashes(pending, [c] + more, quoted);
    assert ([c] + more)[1..] == more;
  }

  lemma PassEnd(pending: nat, rest: string, quoted: bool)
    ensures AfterProgram(QuotedRest("", pending) + rest, quoted) == AfterProgram(rest, !quoted)
  {
    assert QuotedRest("", pending) + rest == Backslashes(2 * pending) + ("\"" + rest);
    AfterBackslashes(2 * pending, "\"" + rest, quoted);
    AfterQuote(rest, quoted);
  }

  /** The name ends too early: at a blank outside its quotes. */
  predicate StopsInside(s: string, odd: bool) {
    if s == "" then false
    else if s[0] == '"' then StopsInside(s[1..], !odd)
    else (IsBlank(s[0]) && odd) || StopsInside(s[1..], odd)
  }

  /**
   A name that does not stop early is passed as a whole, and what follows is read inside or
   outside quotes by the parity of the quotes in it; `odd` is that parity so far.
   */
  lemma {:induction false} PassesWhole(s: string, pending: nat, odd: bool, rest: string)
    requires !StopsInside(s, odd)
    ensures AfterProgram(QuotedRest(s, pending) + rest, !odd) == AfterProgram(rest, !SafeInside(s, odd))
    decreases |s|
  {
    hide AfterProgram, Backslashes;
    if s == "" {
      PassEnd(pending, rest, !odd);
    } else {
      var more := QuotedRest(s[1..], 0) + rest;
      if s[0] == '\\' {
        PassesWhole(s[1..], pending + 1, odd, rest);
      } else if s[0] == '"' {
        assert QuotedRest(s, pending) + rest == Backslashes(2 * pending + 1) + ("\"" + more);
        PassQuote(pending, more, !odd);
        PassesWhole(s[1..], 0, !odd, rest);
      } else {
        assert QuotedRest(s, pending) + rest == Backslashes(pending) + ([s[0]] + more);
        PassChar(pending, s[0], more, !odd);
        PassesWhole(s[1..], 0, odd, rest);
      }
    }
  }

  lemma {:induction false} QuotedEnds(s: string, pending: nat)
    ensures var q := QuotedRest(s, pending); q != "" && q[|q| - 1] == '"'
    decreases |s|
  {
    if s != "" {
      if s[0] == '\\' {
        QuotedEnds(s[1..], pending + 1);
      } else {
        QuotedEnds(s[1..], 0);
      }
    }
  }

  /** A name that stops early leaves text that still holds its closing quote. */
  lemma {:induction false} LeavesQuote(s: string, pending: nat, odd: bool)
    requires StopsInside(s, odd)
    ensures var left := AfterProgram(QuotedRest(s, pending), !odd); left != "" && left[|left| - 1] == '"'
    decreases |s|
  {
    hide AfterProgram, Backslashes;
    var more := QuotedRest(s[1..], 0);
    if s[0] == '\\' {
      LeavesQuote(s[1..], pending + 1, odd);
    } else if s[0] == '"' {
      PassQuote(pending, more, !odd);
      LeavesQuote(s[1..], 0, !odd);
    } else if IsBlank(s[0]) && odd {
      AfterBackslashes(pending, [s[0]] + more, false);
      StopsAtBlank([s[0]] + more);
      QuotedEnds(s[1..], 0);
    } else {
      PassChar(pending, s[0], more, !odd);
      LeavesQuote(s[1..], 0, odd);
    }
  }

  lemma StopsAtBlank(s: string)
    requires s != "" && IsBlank(s[0])
    ensures AfterProgram(s, false) == s
  {
  }

  lemma AfterQuote(s: string, quoted: bool)
    ensures AfterProgram("\"" + s, quoted) == AfterProgram(s, !quoted)
  {
    assert ("\"" + s)[1..] == s;
  }

  lemma AfterBlank(rest: string)
    requires EndsArg(rest)
    ensures AfterProgram(rest, false) == rest
  {
  }

  lemma {:induction false} PlainProgramPassed(program: string, rest: string)
    requires !NeedsQuotes(program) && EndsArg(rest)
    ensures AfterProgram(program + rest, false) == rest
    decreases |program|
  {
    NotQuoted(program);
    if program == "" {
      assert program + rest == rest;
    } else {
      assert (program + rest)[1..] == program[1..] + rest;
      PlainProgramPassed(program[1..], rest);
    }
  }

  lemma ProgramPassed(program: string, rest: string)
    requires SafeProgram(program) && EndsArg(rest)
    ensures AfterProgram(QuotedArg(program) + rest, false) == rest
  {
    if program == "" || NeedsQuotes(program) {
      hide AfterProgram, QuotedRest;
      var body := QuotedRest(program, 0) + rest;
      EmptyQuoted();
      Regroup("\"", QuotedRest(program, 0), rest);
      AfterQuote(body, false);
      SafeDoesNotStop(program, false);
      PassesWhole(program, 0, false, rest);
      AfterBlank(rest);
    } else {
      PlainProgramPassed(program, rest);
    }
  }

  lemma {:induction false} SafeDoesNotStop(s: string, odd: bool)
    requires SafeInside(s, odd)
    ensures !StopsInside(s, odd)
  {
    if s != "" {
      SafeDoesNotStop(s[1..], if s[0] == '"' then !odd else odd);
    }
  }

  ghost predicate ArgsSurvive(program: string) {
    forall args :: ParsedArgs(CommandLine(program, args)) == args
  }

  /** Whatever the arguments, they survive, exactly when the program name is a safe one. */
  lemma ArgumentsSurvive(program: string)
    ensures ArgsSurvive(program) <==> SafeProgram(program)
  {
    hide AfterProgram, QuotedArg, SafeInside;
    if SafeProgram(program) {
      forall args ensures ParsedArgs(CommandLine(program, args)) == args {
        SafeArgsSurvive(program, args);
      }
    } else {
      UnsafeLosesArgs(program);
    }
  }

  lemma SafeArgsSurvive(program: string, args: seq<string>)
    requires SafeProgram(program)
    ensures ParsedArgs(CommandLine(program, args)) == args
  {
    hide AfterProgram, QuotedArg, SafeProgram;
    ArgsStart(args);
    ProgramPassed(program, QuotedArgs(args));
    ArgsReadBack(args, "");
    assert QuotedArgs(args) + "" == QuotedArgs(args);
    assert args + [] == args;
  }

  lemma {:induction false} ArgsStart(args: seq<string>)
    ensures EndsArg(QuotedArgs(args))
    decreases |args|
  {
    hide QuotedArg;
    if args != [] {
      ArgsStart(args[..|args| - 1]);
    }
  }

  lemma UnsafeLosesArgs(program: string)
    requires !SafeProgram(program)
    ensures exists args :: ParsedArgs(CommandLine(program, args)) != args
  {
    hide AfterProgram, QuotedRest, StopsInside, SafeInside;
    var q := QuotedRest(program, 0);
    if StopsInside(program, false) {
      LeavesQuote(program, 0, false);
      AfterQuote(q, false);
      assert CommandLine(program, []) == "\"" + q;
      var left := AfterProgram(q, true);
      KeepsNonBlank(left);
      assert ParsedArgs(CommandLine(program, [])) != [];
    } else {
      var rest := " a";
      PassesWhole(program, 0, false, rest);
      AfterQuote(q + rest, false);
      OneArg();
      assert CommandLine(program, ["a"]) == "\"" + (q + rest);
      SwallowedToTheEnd(rest);
      assert ParsedArgs(CommandLine(program, ["a"])) == [];
    }
  }

  lemma OneArg()
    ensures QuotedArgs(["a"]) == " a"
  {
    assert ["a"][..0] == [];
    assert QuotedArgs([]) == "";
  }

  lemma {:induction false} SwallowedToTheEnd(s: string)
    requires forall i :: 0 <= i < |s| ==> s[i] != '"'
    ensures AfterProgram(s, true) == ""
  {
    if s != "" { SwallowedToTheEnd(s[1..]); }
  }

  lemma {:induction false} KeepsNonBlank(s: string)
    requires s != "" && !IsBlank(s[|s| - 1])
    ensures SkipBlanks(s) != ""
  {
    if IsBlank(s[0]) {
      KeepsNonBlank(s[1..]);
    }
  }

  /** A name without quotes, as every Windows path is, is safe. */
  lemma {:induction false} QuoteFreeIsSafe(program: string)
    requires forall i :: 0 <= i < |program| ==> program[i] != '"'
    ensures SafeInside(program, false) && SafeProgram(program)
  {
    if program != "" { QuoteFreeIsSafe(program[1..]); }
  }
}
