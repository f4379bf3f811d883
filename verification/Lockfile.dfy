/** The lockfile format: eta/core/src/eta/package/lockfile.cpp. */
module Lockfiles {
  import opened Wrappers
  import opened Sorting
  import opened TomlText

  datatype LockedDependency = LockedDependency(name: string, version: string)

  datatype LockfilePackage =
    LockfilePackage(name: string, version: string, source: string, dependencies: seq<LockedDependency>)

  datatype Lockfile = Lockfile(schemaVersion: int, packages: seq<LockfilePackage>)

  datatype ErrorCode = ParseError | MissingRequiredField | InvalidValue | UnsupportedValue

  datatype LockfileError = LockfileError(code: ErrorCode, line: nat)

  // ---- Values ----

  predicate AllDigits(s: string) {
    forall i :: 0 <= i < |s| ==> IsDigit(s[i])
  }

  function DigitValue(s: string): nat
    requires AllDigits(s)
  {
    if s == "" then 0 else DigitValue(s[..|s| - 1]) * 10 + (s[|s| - 1] as int - '0' as int)
  }

  function IntegerOf(value: string): Option<int> {
    var text := Trimmed(value);
    if text == "" || !AllDigits(text) then None else Some(DigitValue(text))
  }

  method ParseInteger(value: string) returns (r: Option<int>)
    ensures r == IntegerOf(value)
  {
    var text := Trim(value);
    if text == "" {
      return None;
    }
    var number := 0;
    var i := 0;
    while i < |text|
      invariant 0 <= i <= |text|
      invariant AllDigits(text[..i]) && number == DigitValue(text[..i])
    {
      if !IsDigit(text[i]) {
        return None;
      }
      assert text[..i + 1][..i] == text[..i];
      number := number * 10 + (text[i] as int - '0' as int);
      i := i + 1;
    }
    assert text[..i] == text;
    r := Some(number);
  }

  predicate SemverChar(c: char) {
    IsDigit(c) || IsAlpha(c) || c == '.' || c == '-' || c == '+'
  }

  /** Some digit, and nothing but digits, letters, dots, dashes and pluses. */
  predicate Semverish(s: string) {
    && (forall i :: 0 <= i < |s| ==> SemverChar(s[i]))
    && (exists i :: 0 <= i < |s| && IsDigit(s[i]))
  }

  method CheckSemverish(value: string) returns (r: bool)
    ensures r == Semverish(value)
  {
    if value == "" {
      return false;
    }
    var hasDigit := false;
    var i := 0;
    while i < |value|
      invariant 0 <= i <= |value|
      invariant forall j :: 0 <= j < i ==> SemverChar(value[j])
      invariant hasDigit <==> exists j :: 0 <= j < i && IsDigit(value[j])
    {
      if !SemverChar(value[i]) {
        return false;
      }
      if IsDigit(value[i]) {
        hasDigit := true;
      }
      i := i + 1;
    }
    r := hasDigit;
  }

  // ---- Dependency lists ----

  function IndexOf(s: string, c: char): (r: nat)
    ensures r <= |s| && c !in s[..r] && (r < |s| ==> s[r] == c)
  {
    if s == "" || s[0] == c then 0
    else
      assert s[..1 + IndexOf(s[1..], c)] == [s[0]] + s[1..][..IndexOf(s[1..], c)];
      1 + IndexOf(s[1..], c)
  }

  /** A `name@version` entry, split at its first '@'. */
  function DependencyOf(entry: string): Option<LockedDependency> {
    match Unquote(entry)
    case None => None
    case Some(s) =>
      var at := IndexOf(s, '@');
      if at == 0 || at + 1 >= |s| then None
      else Some(LockedDependency(s[..at], s[at + 1..]))
  }

  function ConsDependency(entry: string, rest: Option<seq<LockedDependency>>): Option<seq<LockedDependency>> {
    if entry == "" then rest
    else
      match (DependencyOf(entry), rest)
      case (Some(d), ds) => PrependAll([d], ds)
      case _ => None
  }

  /** The comma-separated entries between the brackets; blank entries are skipped. */
  function Entries(body: string): Option<seq<LockedDependency>>
    decreases |body|
  {
    if body == "" then Some([])
    else
      var next := Find(Outside, body, ',');
      ConsDependency(Trimmed(body[..next]), if next == |body| then Some([]) else Entries(body[next + 1..]))
  }

  function DependencyList(value: string): Option<seq<LockedDependency>> {
    var text := Trimmed(value);
    if |text| < 2 || text[0] != '[' || text[|text| - 1] != ']' then None
    else Entries(text[1..|text| - 1])
  }

  function PrependAll(ds: seq<LockedDependency>, r: Option<seq<LockedDependency>>): Option<seq<LockedDependency>> {
    match r
    case Some(rest) => Some(ds + rest)
    case None => None
  }

  method ParseDependencyList(value: string) returns (r: Option<seq<LockedDependency>>)
    ensures r == DependencyList(value)
  {
    hide DependencyOf, Find, Trimmed, PrependAll, Entries;
    var text := Trim(value);
    if |text| < 2 || text[0] != '[' || text[|text| - 1] != ']' {
      return None;
    }
    var dependencies: seq<LockedDependency> := [];
    var body := text[1..|text| - 1];
    var cursor := 0;
    assert body[0..] == body;
    PrependNothing(Entries(body));
    PrependToNone([]);
    while cursor < |body|
      invariant 0 <= cursor <= |body|
      invariant Entries(body) == PrependAll(dependencies, Entries(body[cursor..]))
    {
      var next := FindFrom(body, cursor, ',');
      EntriesAt(body, cursor, next);
      ghost var rest := if next == |body| then Some([]) else Entries(body[next + 1..]);
      var entry := Trim(body[cursor..next]);
      PrependToNone(dependencies);
      if entry != "" {
        var d := ParseDependency(entry);
        if d.None? {
          return None;
        }
        PrependOne(dependencies, d.value, rest);
        dependencies := dependencies + [d.value];
        PrependToNone(dependencies);
      }
      if next == |body| {
        return Some(dependencies);
      }
      cursor := next + 1;
    }
    assert body[cursor..] == "";
    PrependToNone(dependencies);
    r := Some(dependencies);
  }

  lemma PrependToNone(ds: seq<LockedDependency>)
    ensures PrependAll(ds, Entries("")) == Some(ds) == PrependAll(ds, Some([]))
    ensures PrependAll(ds, None) == None
  {
    assert ds + [] == ds;
  }

  method ParseDependency(entry: string) returns (r: Option<LockedDependency>)
    ensures r == DependencyOf(entry)
  {
    var parsed := ParseQuotedString(entry);
    if parsed.None? {
      return None;
    }
    var at := IndexOf(parsed.value, '@');
    if at == 0 || at + 1 >= |parsed.value| {
      return None;
    }
    r := Some(LockedDependency(parsed.value[..at], parsed.value[at + 1..]));
  }

  lemma EntriesAt(body: string, cursor: nat, next: nat)
    requires cursor < |body| && next == cursor + Find(Outside, body[cursor..], ',')
    ensures Entries(body[cursor..]) ==
      ConsDependency(Trimmed(body[cursor..next]), if next == |body| then Some([]) else Entries(body[next + 1..]))
  {
    var here := body[cursor..];
    assert here[..next - cursor] == body[cursor..next];
    assert next < |body| ==> here[next - cursor + 1..] == body[next + 1..];
  }

  lemma PrependNothing(r: Option<seq<LockedDependency>>)
    ensures PrependAll([], r) == r
  {
    if r.Some? { assert [] + r.value == r.value; }
  }

  lemma PrependOne(ds: seq<LockedDependency>, d: LockedDependency, r: Option<seq<LockedDependency>>)
    ensures PrependAll(ds, PrependAll([d], r)) == PrependAll(ds + [d], r)
  {
    if r.Some? { assert ds + ([d] + r.value) == ds + [d] + r.value; }
  }

  // ---- Parsing a lockfile ----

  datatype Section = Root | Package

  /** Package fields always belong to the last package opened. */
  datatype ParseState = ParseState(lockfile: Lockfile, section: Section) {
    predicate Valid() {
      section.Package? ==> lockfile.packages != []
    }

    function Last(): LockfilePackage
      requires lockfile.packages != []
    {
      lockfile.packages[|lockfile.packages| - 1]
    }

    function WithLast(p: LockfilePackage): (r: ParseState)
      requires lockfile.packages != []
      ensures |r.lockfile.packages| == |lockfile.packages|
    {
      this.(lockfile := lockfile.(packages := lockfile.packages[|lockfile.packages| - 1 := p]))
    }
  }

  const START := ParseState(Lockfile(1, []), Root)

  function Field(key: string, value: string, p: LockfilePackage): Option<LockfilePackage> {
    if key == "dependencies" then
      match DependencyList(value)
      case Some(ds) => Some(p.(dependencies := ds))
      case None => None
    else if key == "name" || key == "version" || key == "source" then
      match Unquote(value)
      case None => None
      case Some(s) =>
        Some(if key == "name" then p.(name := s) else if key == "version" then p.(version := s) else p.(source := s))
    else Some(p)
  }

  function Step(st: ParseState, s: Statement, line: nat): (r: Result<ParseState, LockfileError>)
    requires st.Valid()
    ensures r.Ok? ==> r.value.Valid()
  {
    match s
    case Blank => Ok(st)
    case Header(text) =>
      if text == "[[package]]" then
        Ok(ParseState(st.lockfile.(packages := st.lockfile.packages + [LockfilePackage("", "", "", [])]), Package))
      else Err(LockfileError(UnsupportedValue, line))
    case NoAssignment => Err(LockfileError(ParseError, line))
    case EmptyKey => Err(LockfileError(ParseError, line))
    case Assign(key, value) =>
      if st.section.Root? then
        if key != "version" then Ok(st)
        else
          match IntegerOf(value)
          case Some(n) => Ok(st.(lockfile := st.lockfile.(schemaVersion := n)))
          case None => Err(LockfileError(ParseError, line))
      else
        match Field(key, value, st.Last())
        case Some(p) => Ok(st.WithLast(p))
        case None => Err(LockfileError(ParseError, line))
  }

  /** Runs the remaining lines; `line` is the number of the line before them. */
  function Steps(st: ParseState, lines: seq<string>, line: nat): (r: Result<ParseState, LockfileError>)
    requires st.Valid()
    ensures r.Ok? ==> r.value.Valid()
    decreases |lines|
  {
    if lines == [] then Ok(st)
    else
      match Step(st, StatementOf(lines[0]), line + 1)
      case Ok(st') => Steps(st', lines[1..], line + 1)
      case Err(e) => Err(e)
  }

  /** What a read dependency must satisfy; splitting at the first '@' keeps '@' out of the name. */
  predicate ValidDependency(d: LockedDependency) {
    d.name != "" && d.version != "" && Semverish(d.version)
  }

  function PackageError(p: LockfilePackage): Option<ErrorCode> {
    if p.name == "" || p.version == "" || p.source == "" then Some(MissingRequiredField)
    else if !Semverish(p.version) then Some(InvalidValue)
    else if exists i :: 0 <= i < |p.dependencies| && !ValidDependency(p.dependencies[i]) then Some(InvalidValue)
    else None
  }

  function FirstError(ps: seq<LockfilePackage>): Option<ErrorCode> {
    if ps == [] then None
    else match PackageError(ps[0])
      case Some(e) => Some(e)
      case None => FirstError(ps[1..])
  }

  function Parse(text: string): Result<Lockfile, LockfileError> {
    match Steps(START, Lines(text), 0)
    case Err(e) => Err(e)
    case Ok(st) =>
      if st.lockfile.schemaVersion != 1 then Err(LockfileError(InvalidValue, 0))
      else match FirstError(st.lockfile.packages)
        case Some(e) => Err(LockfileError(e, 0))
        case None => Ok(st.lockfile)
  }

  method ParseLockfile(text: string) returns (r: Result<Lockfile, LockfileError>)
    ensures r == Parse(text)
  {
    var st := START;
    var rest := text;
    var lineNo := 0;
    while rest != ""
      invariant st.Valid()
      invariant Steps(START, Lines(text), 0) == Steps(st, Lines(rest), lineNo)
      decreases |rest|
    {
      var line, rest' := GetLine(rest);
      ghost var all := Lines(rest);
      assert all[0] == line && all[1..] == Lines(rest');
      lineNo := lineNo + 1;
      var stepped := ParseLine(st, line, lineNo);
      if stepped.Err? {
        return Err(stepped.error);
      }
      st, rest := stepped.value, rest';
    }
    if st.lockfile.schemaVersion != 1 {
      return Err(LockfileError(InvalidValue, 0));
    }
    var packages := st.lockfile.packages;
    var i := 0;
    assert packages[0..] == packages;
    while i < |packages|
      invariant 0 <= i <= |packages|
      invariant FirstError(packages) == FirstError(packages[i..])
    {
      assert packages[i..][1..] == packages[i + 1..];
      var e := CheckPackage(packages[i]);
      if e.Some? {
        return Err(LockfileError(e.value, 0));
      }
      i := i + 1;
    }
    r := Ok(st.lockfile);
  }

  method ParseLine(st: ParseState, line: string, lineNo: nat) returns (r: Result<ParseState, LockfileError>)
    requires st.Valid()
    ensures r == Step(st, StatementOf(line), lineNo)
  {
    var s := ReadStatement(line);
    match s {
      case Blank =>
        return Ok(st);
      case Header(text) =>
        if text == "[[package]]" {
          var packages := st.lockfile.packages + [LockfilePackage("", "", "", [])];
          return Ok(ParseState(st.lockfile.(packages := packages), Package));
        }
        return Err(LockfileError(UnsupportedValue, lineNo));
      case NoAssignment =>
        return Err(LockfileError(ParseError, lineNo));
      case EmptyKey =>
        return Err(LockfileError(ParseError, lineNo));
      case Assign(key, value) =>
        if st.section.Root? {
          if key == "version" {
            var parsed := ParseInteger(value);
            if parsed.None? {
              return Err(LockfileError(ParseError, lineNo));
            }
            return Ok(st.(lockfile := st.lockfile.(schemaVersion := parsed.value)));
          }
          return Ok(st);
        }
        var pkg := st.Last();
        if key == "name" || key == "version" || key == "source" {
          var parsed := ParseQuotedString(value);
          if parsed.None? {
            return Err(LockfileError(ParseError, lineNo));
          }
          if key == "name" {
            pkg := pkg.(name := parsed.value);
          } else if key == "version" {
            pkg := pkg.(version := parsed.value);
          } else {
            pkg := pkg.(source := parsed.value);
          }
        } else if key == "dependencies" {
          var parsed := ParseDependencyList(value);
          if parsed.None? {
            return Err(LockfileError(ParseError, lineNo));
          }
          pkg := pkg.(dependencies := parsed.value);
        }
        return Ok(st.WithLast(pkg));
    }
  }

  method CheckPackage(p: LockfilePackage) returns (e: Option<ErrorCode>)
    ensures e == PackageError(p)
  {
    if p.name == "" || p.version == "" || p.source == "" {
      return Some(MissingRequiredField);
    }
    var ok := CheckSemverish(p.version);
    if !ok {
      return Some(InvalidValue);
    }
    var i := 0;
    while i < |p.dependencies|
      invariant 0 <= i <= |p.dependencies|
      invariant forall j :: 0 <= j < i ==> ValidDependency(p.dependencies[j])
    {
      var d := p.dependencies[i];
      if d.name == "" || d.version == "" {
        assert !ValidDependency(p.dependencies[i]);
        return Some(InvalidValue);
      }
      ok := CheckSemverish(d.version);
      if !ok {
        assert !ValidDependency(p.dependencies[i]);
        return Some(InvalidValue);
      }
      i := i + 1;
    }
    e := None;
  }

  // ---- Writing a lockfile ----

  predicate DependencyBefore(a: LockedDependency, b: LockedDependency) {
    if a.name != b.name then Less(a.name, b.name) else Less(a.version, b.version)
  }

  predicate PackageBefore(a: LockfilePackage, b: LockfilePackage) {
    if (a.source == "root") != (b.source == "root") then a.source == "root"
    else if a.name != b.name then Less(a.name, b.name)
    else if a.version != b.version then Less(a.version, b.version)
    else Less(a.source, b.source)
  }

  lemma OrdersAreWeak()
    ensures StrictWeakOrder(DependencyBefore)
    ensures StrictWeakOrder(PackageBefore)
  {
    LessIsTotalOrder();
  }

  function EntryText(d: LockedDependency): string {
    Quoted(d.name + "@" + d.version)
  }

  function EntriesText(ds: seq<LockedDependency>): string {
    if ds == [] then ""
    else if |ds| == 1 then EntryText(ds[0])
    else EntryText(ds[0]) + ", " + EntriesText(ds[1..])
  }

  function PackageLines(p: LockfilePackage): seq<string> {
    ["", "[[package]]",
     AssignmentText("name", Quoted(p.name)),
     AssignmentText("version", Quoted(p.version)),
     AssignmentText("source", Quoted(p.source)),
     AssignmentText("dependencies", "[" + EntriesText(p.dependencies) + "]")]
  }

  function AllPackageLines(ps: seq<LockfilePackage>): seq<string> {
    if ps == [] then [] else PackageLines(ps[0]) + AllPackageLines(ps[1..])
  }

  const HEADER := ["# Auto-generated by eta - DO NOT EDIT.", "version = 1"]

  /** The lockfile text of packages in the given order. */
  function Render(ps: seq<LockfilePackage>): string {
    Assemble(HEADER + AllPackageLines(ps))
  }

  /** The same row with its dependencies sorted. */
  ghost predicate SortedRow(p: LockfilePackage, y: LockfilePackage) {
    && y == p.(dependencies := y.dependencies)
    && SortedPermutation(p.dependencies, y.dependencies, DependencyBefore)
  }

  ghost predicate SortedRows(ps: seq<LockfilePackage>, ys: seq<LockfilePackage>) {
    |ps| == |ys| && forall i :: 0 <= i < |ps| ==> SortedRow(ps[i], ys[i])
  }

  /** `ys` is `xs` in writing order: packages sorted, and each package's dependencies sorted. */
  ghost predicate WritingOrder(xs: seq<LockfilePackage>, ys: seq<LockfilePackage>) {
    exists ps: seq<LockfilePackage> :: SortedPermutation(xs, ps, PackageBefore) && SortedRows(ps, ys)
  }

  method WriteLockfile(lockfile: Lockfile) returns (out: string, ghost written: seq<LockfilePackage>)
    ensures WritingOrder(lockfile.packages, written)
    ensures out == Render(written)
  {
    OrdersAreWeak();
    var packages := Sort(lockfile.packages, PackageBefore);
    out := "# Auto-generated by eta - DO NOT EDIT.\n";
    out := out + "version = 1\n";
    HeaderText();
    written := [];
    var i := 0;
    while i < |packages|
      invariant 0 <= i <= |packages| && SortedRows(packages[..i], written)
      invariant out == Render(written)
    {
      var pkg := packages[i];
      var sorted := Sort(pkg.dependencies, DependencyBefore);
      pkg := pkg.(dependencies := sorted);
      var text := WritePackage(pkg);
      RenderOneMore(written, pkg);
      assert SortedRow(packages[i], pkg);
      assert packages[..i + 1] == packages[..i] + [packages[i]];
      out := out + text;
      written := written + [pkg];
      i := i + 1;
    }
    assert packages[..i] == packages;
  }

  method WritePackage(pkg: LockfilePackage) returns (out: string)
    ensures out == Assemble(PackageLines(pkg))
  {
    hide Assemble, Quoted, EntriesText;
    out := "\n[[package]]\n";
    ghost var lines := ["", "[[package]]"];
    PackageHeader();
    out := WriteField(out, "name", pkg.name, lines);
    lines := lines + [AssignmentText("name", Quoted(pkg.name))];
    out := WriteField(out, "version", pkg.version, lines);
    lines := lines + [AssignmentText("version", Quoted(pkg.version))];
    out := WriteField(out, "source", pkg.source, lines);
    lines := lines + [AssignmentText("source", Quoted(pkg.source))];
    var entries := WriteEntries(pkg.dependencies);
    AssembleSnoc(lines, AssignmentText("dependencies", "[" + entries + "]"));
    out := out + ("dependencies" + " = " + ("[" + entries + "]")) + "\n";
    assert lines + [AssignmentText("dependencies", "[" + entries + "]")] == PackageLines(pkg);
  }

  lemma PackageHeader()
    ensures Assemble(["", "[[package]]"]) == "\n[[package]]\n"
  {
    assert ["", "[[package]]"][1..] == ["[[package]]"] && ["[[package]]"][1..] == [];
  }

  method WriteField(out: string, key: string, value: string, ghost lines: seq<string>) returns (out': string)
    requires out == Assemble(lines)
    ensures out' == Assemble(lines + [AssignmentText(key, Quoted(value))])
  {
    var escaped := EscapeString(value);
    AssembleSnoc(lines, AssignmentText(key, Quoted(value)));
    out' := out + (key + " = " + ("\"" + escaped + "\"")) + "\n";
  }

  method WriteEntries(ds: seq<LockedDependency>) returns (out: string)
    ensures out == EntriesText(ds)
  {
    out := "";
    var i := 0;
    while i < |ds|
      invariant 0 <= i <= |ds|
      invariant out == EntriesText(ds[..i])
    {
      if i != 0 {
        out := out + ", ";
      }
      var name := EscapeString(ds[i].name);
      var version := EscapeString(ds[i].version);
      EntriesTextOneMore(ds[..i], ds[i]);
      assert ds[..i + 1] == ds[..i] + [ds[i]];
      EntryTextEscaped(ds[i]);
      out := out + ("\"" + (name + "@" + version) + "\"");
      i := i + 1;
    }
    assert ds[..i] == ds;
  }

  lemma EntryTextEscaped(d: LockedDependency)
    ensures EntryText(d) == "\"" + (Escape(d.name) + "@" + Escape(d.version)) + "\""
  {
    EscapeConcat(d.name + "@", d.version);
    EscapeConcat(d.name, "@");
    assert "@"[1..] == "" && Escape("@") == "@";
  }

  lemma {:induction false} EntriesTextOneMore(ds: seq<LockedDependency>, d: LockedDependency)
    ensures EntriesText(ds + [d]) == EntriesText(ds) + (if ds == [] then "" else ", ") + EntryText(d)
  {
    hide EntryText;
    if |ds| >= 1 {
      assert (ds + [d])[1..] == ds[1..] + [d];
      EntriesTextOneMore(ds[1..], d);
    }
  }

  lemma HeaderText()
    ensures Render([]) == "# Auto-generated by eta - DO NOT EDIT.\n" + "version = 1\n"
  {
    assert HEADER + [] == HEADER;
    assert HEADER[1..] == ["version = 1"] && ["version = 1"][1..] == [];
  }

  lemma {:induction false} AllPackageLinesConcat(a: seq<LockfilePackage>, b: seq<LockfilePackage>)
    ensures AllPackageLines(a + b) == AllPackageLines(a) + AllPackageLines(b)
  {
    if a == [] {
      assert a + b == b;
    } else {
      assert (a + b)[1..] == a[1..] + b;
      AllPackageLinesConcat(a[1..], b);
    }
  }

  lemma RenderOneMore(ps: seq<LockfilePackage>, p: LockfilePackage)
    ensures Render(ps + [p]) == Render(ps) + Assemble(PackageLines(p))
  {
    AllPackageLinesConcat(ps, [p]);
    assert AllPackageLines([p]) == PackageLines(p) + [];
    AssembleConcat(HEADER + AllPackageLines(ps), PackageLines(p));
    assert HEADER + AllPackageLines(ps + [p]) == HEADER + AllPackageLines(ps) + PackageLines(p);
  }
}
