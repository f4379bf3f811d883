/** The manifest format: eta/core/src/eta/package/manifest.cpp. */
module Manifests {
  import opened Wrappers
  import opened Sorting
  import opened TomlText

  datatype DependencyKind = Path | Git | Tarball

  datatype ManifestDependency = ManifestDependency(
    name: string, kind: DependencyKind,
    path: string, git: string, rev: string, tarball: string, sha256: string)

  datatype Manifest = Manifest(
    name: string, version: string, license: string, eta: string,
    dependencies: seq<ManifestDependency>, devDependencies: seq<ManifestDependency>)

  datatype ErrorCode = ParseError | MissingRequiredField | InvalidValue | UnsupportedValue

  datatype ManifestError = ManifestError(code: ErrorCode, line: nat)

  // ---- Validators ----

  predicate IsHexDigit(c: char) {
    IsDigit(c) || 'a' <= c <= 'f' || 'A' <= c <= 'F'
  }

  predicate ValidHex(s: string, length: nat) {
    |s| == length && forall i :: 0 <= i < |s| ==> IsHexDigit(s[i])
  }

  predicate NameChar(c: char) {
    'a' <= c <= 'z' || IsDigit(c) || c == '_' || c == '-'
  }

  /** The pattern [a-z][a-z0-9_-]{0,63}. */
  predicate ValidPackageName(s: string) {
    1 <= |s| <= 64 && 'a' <= s[0] <= 'z' && forall i :: 0 <= i < |s| ==> NameChar(s[i])
  }

  function DigitRun(s: string): (n: nat)
    ensures n <= |s| && forall i :: 0 <= i < n ==> IsDigit(s[i])
  {
    if s == "" || !IsDigit(s[0]) then 0 else 1 + DigitRun(s[1..])
  }

  predicate IdentifierChar(c: char) {
    IsDigit(c) || IsAlpha(c) || c == '.' || c == '-'
  }

  function IdentifierRun(s: string): (n: nat)
    ensures n <= |s| && forall i :: 0 <= i < n ==> IdentifierChar(s[i])
  {
    if s == "" || !IdentifierChar(s[0]) then 0 else 1 + IdentifierRun(s[1..])
  }

  predicate BuildPart(s: string) {
    s == "" || (s[0] == '+' && |s| > 1 && IdentifierRun(s[1..]) == |s| - 1)
  }

  predicate PreReleasePart(s: string) {
    if s != "" && s[0] == '-' then
      var n := IdentifierRun(s[1..]);
      n > 0 && BuildPart(s[1 + n..])
    else BuildPart(s)
  }

  predicate DottedNumbers(s: string, dots: nat) {
    var n := DigitRun(s);
    n > 0 &&
    if dots == 0 then PreReleasePart(s[n..])
    else n < |s| && s[n] == '.' && DottedNumbers(s[n + 1..], dots - 1)
  }

  /** MAJOR.MINOR.PATCH, then optionally -PRERELEASE, then optionally +BUILD. */
  predicate ValidSemver(s: string) {
    DottedNumbers(s, 2)
  }

  predicate SpdxChar(c: char) {
    IsDigit(c) || IsAlpha(c) || c == ' ' || c == '-' || c == '.' || c == '+' || c == '(' || c == ')' || c == ':'
  }

  predicate LooksLikeSpdx(s: string) {
    && (forall i :: 0 <= i < |s| ==> SpdxChar(s[i]))
    && (exists i :: 0 <= i < |s| && (IsDigit(s[i]) || IsAlpha(s[i])))
  }

  predicate RangeChar(c: char) {
    IsDigit(c) || IsAlpha(c) || c in " ,.-+<>=^~*"
  }

  predicate LooksLikeRange(s: string) {
    && (forall i :: 0 <= i < |s| ==> RangeChar(s[i]))
    && (exists i :: 0 <= i < |s| && IsDigit(s[i]))
  }

  // ---- Inline tables ----

  /** The `seen_*` flags. */
  datatype Seen = Seen(path: bool, git: bool, rev: bool, tarball: bool, sha256: bool)

  const UNSEEN := Seen(false, false, false, false, false)

  datatype TableState = TableState(dep: ManifestDependency, seen: Seen)

  function SetKey(st: TableState, key: string, value: string): Result<TableState, ErrorCode> {
    var (dep, seen) := (st.dep, st.seen);
    if key == "path" then
      if seen.path then Err(ParseError) else Ok(TableState(dep.(path := value), seen.(path := true)))
    else if key == "git" then
      if seen.git then Err(ParseError) else Ok(TableState(dep.(git := value), seen.(git := true)))
    else if key == "rev" then
      if seen.rev then Err(ParseError) else Ok(TableState(dep.(rev := value), seen.(rev := true)))
    else if key == "tarball" then
      if seen.tarball then Err(ParseError) else Ok(TableState(dep.(tarball := value), seen.(tarball := true)))
    else if key == "sha256" then
      if seen.sha256 then Err(ParseError) else Ok(TableState(dep.(sha256 := value), seen.(sha256 := true)))
    else Err(UnsupportedValue)
  }

  /** One `key = "value"` pair between commas; blank pairs are skipped. */
  function PairStep(st: TableState, pair: string): Result<TableState, ErrorCode> {
    if pair == "" then Ok(st)
    else
      match Unquoted(pair, '=')
      case None => Err(ParseError)
      case Some(eq) =>
        match Unquote(pair[eq + 1..])
        case None => Err(ParseError)
        case Some(value) => SetKey(st, Trimmed(pair[..eq]), value)
  }

  function Pairs(st: TableState, body: string): Result<TableState, ErrorCode>
    decreases |body|
  {
    if body == "" then Ok(st)
    else
      var next := Find(Outside, body, ',');
      match PairStep(st, Trimmed(body[..next]))
      case Err(e) => Err(e)
      case Ok(st') => if next == |body| then Ok(st') else Pairs(st', body[next + 1..])
  }

  /** Exactly one source kind, with what that kind requires. */
  function Finish(st: TableState): Result<ManifestDependency, ErrorCode> {
    var (dep, seen) := (st.dep, st.seen);
    var kinds := (if seen.path then 1 else 0) + (if seen.git then 1 else 0) + (if seen.tarball then 1 else 0);
    if kinds != 1 then Err(MissingRequiredField)
    else if seen.path then
      if dep.path == "" then Err(MissingRequiredField) else Ok(dep.(kind := Path))
    else if seen.git then
      if !seen.rev || dep.git == "" || dep.rev == "" then Err(MissingRequiredField)
      else if !ValidHex(dep.rev, 40) then Err(InvalidValue)
      else Ok(dep.(kind := Git))
    else if !seen.sha256 || dep.tarball == "" || dep.sha256 == "" then Err(MissingRequiredField)
    else if !ValidHex(dep.sha256, 64) then Err(InvalidValue)
    else Ok(dep.(kind := Tarball))
  }

  function NewTable(name: string): TableState {
    TableState(ManifestDependency(name, Path, "", "", "", "", ""), UNSEEN)
  }

  function InlineTable(name: string, value: string): Result<ManifestDependency, ErrorCode> {
    var text := Trimmed(value);
    if |text| < 2 || text[0] != '{' || text[|text| - 1] != '}' then Err(UnsupportedValue)
    else
      match Pairs(NewTable(name), text[1..|text| - 1])
      case Err(e) => Err(e)
      case Ok(st) => Finish(st)
  }

  method ParseDependencyInlineTable(name: string, value: string) returns (r: Result<ManifestDependency, ErrorCode>)
    ensures r == InlineTable(name, value)
  {
    hide Finish, Trimmed, Pairs;
    var text := Trim(value);
    if |text| < 2 || text[0] != '{' || text[|text| - 1] != '}' {
      return Err(UnsupportedValue);
    }
    var st := ReadPairs(NewTable(name), text[1..|text| - 1]);
    if st.Err? {
      return Err(st.error);
    }
    r := Finish(st.value);
  }

  method ReadPairs(st0: TableState, body: string) returns (r: Result<TableState, ErrorCode>)
    ensures r == Pairs(st0, body)
  {
    hide PairStep, Trimmed, Find, Pairs;
    var st := st0;
    var cursor := 0;
    assert body[0..] == body;
    while cursor < |body|
      invariant 0 <= cursor <= |body|
      invariant Pairs(st0, body) == Pairs(st, body[cursor..])
    {
      var next := FindFrom(body, cursor, ',');
      PairsAt(st, body, cursor, next);
      var pair := Trim(body[cursor..next]);
      r := ReadPair(st, pair);
      if r.Err? {
        return;
      }
      st := r.value;
      if next == |body| {
        return;
      }
      cursor := next + 1;
    }
    NoPairs(st);
    assert body[cursor..] == "";
    r := Ok(st);
  }

  method ReadPair(st: TableState, pair: string) returns (r: Result<TableState, ErrorCode>)
    ensures r == PairStep(st, pair)
  {
    if pair == "" {
      return Ok(st);
    }
    var eq := FindUnquotedChar(pair, '=');
    if eq.None? {
      return Err(ParseError);
    }
    var key := Trim(pair[..eq.value]);
    var value := ParseQuotedString(pair[eq.value + 1..]);
    if value.None? {
      return Err(ParseError);
    }
    r := SetKey(st, key, value.value);
  }

  lemma NoPairs(st: TableState)
    ensures Pairs(st, "") == Ok(st)
  {
  }

  lemma PairsAt(st: TableState, body: string, cursor: nat, next: nat)
    requires cursor < |body| && next == cursor + Find(Outside, body[cursor..], ',')
    ensures Pairs(st, body[cursor..]) ==
      match PairStep(st, Trimmed(body[cursor..next]))
      case Err(e) => Err(e)
      case Ok(st') => if next == |body| then Ok(st') else Pairs(st', body[next + 1..])
  {
    var here := body[cursor..];
    assert here[..next - cursor] == body[cursor..next];
    assert next < |body| ==> here[next - cursor + 1..] == body[next + 1..];
  }

  // ---- Parsing a manifest ----

  datatype Section = RootSection | PackageSection | CompatibilitySection | DependencySection | DevSection | OtherSection

  datatype ParseState = ParseState(
    manifest: Manifest, section: Section, names: set<string>, devNames: set<string>)

  const EMPTY := Manifest("", "", "", "", [], [])
  const START := ParseState(EMPTY, RootSection, {}, {})

  function SectionOf(header: string): Section {
    if header == "package" then PackageSection
    else if header == "compatibility" then CompatibilitySection
    else if header == "dependencies" then DependencySection
    else if header == "dev-dependencies" then DevSection
    else OtherSection
  }

  function ReadHeader(text: string): Result<Section, ErrorCode>
    requires text != ""
  {
    var n := |text|;
    if n < 2 || text[n - 1] != ']' then Err(ParseError)
    else if n >= 4 && text[0] == '[' && text[1] == '[' && text[n - 2] == ']' then Err(UnsupportedValue)
    else Ok(SectionOf(Trimmed(text[1..n - 1])))
  }

  function PackageField(m: Manifest, key: string, value: string): Option<Manifest> {
    if key == "name" || key == "version" || key == "license" then
      match Unquote(value)
      case None => None
      case Some(s) =>
        Some(if key == "name" then m.(name := s) else if key == "version" then m.(version := s) else m.(license := s))
    else Some(m)
  }

  function CompatibilityField(m: Manifest, key: string, value: string): Option<Manifest> {
    if key == "eta" then
      match Unquote(value)
      case None => None
      case Some(s) => Some(m.(eta := s))
    else Some(m)
  }

  /** A `name = { ... }` line; names stay unique across both dependency sections. */
  function DependencyField(st: ParseState, key: string, value: string): Result<ParseState, ErrorCode>
    requires st.section.DependencySection? || st.section.DevSection?
  {
    var dev := st.section.DevSection?;
    if !ValidPackageName(key) then Err(InvalidValue)
    else if key in (if dev then st.devNames else st.names) then Err(ParseError)
    else if key in (if dev then st.names else st.devNames) then Err(ParseError)
    else
      match InlineTable(key, value)
      case Err(e) => Err(e)
      case Ok(dep) =>
        Ok(if dev
           then st.(devNames := st.devNames + {key}, manifest := st.manifest.(devDependencies := st.manifest.devDependencies + [dep]))
           else st.(names := st.names + {key}, manifest := st.manifest.(dependencies := st.manifest.dependencies + [dep])))
  }

  function OrParseError(st: ParseState, m: Option<Manifest>): Result<ParseState, ErrorCode> {
    match m
    case Some(m') => Ok(st.(manifest := m'))
    case None => Err(ParseError)
  }

  function Step(st: ParseState, s: Statement): Result<ParseState, ErrorCode>
    requires s.Header? ==> s.text != ""
  {
    match s
    case Blank => Ok(st)
    case Header(text) =>
      (match ReadHeader(text)
       case Ok(section) => Ok(st.(section := section))
       case Err(e) => Err(e))
    case NoAssignment => Err(ParseError)
    case EmptyKey => Err(ParseError)
    case Assign(key, value) =>
      match st.section
      case PackageSection => OrParseError(st, PackageField(st.manifest, key, value))
      case CompatibilitySection => OrParseError(st, CompatibilityField(st.manifest, key, value))
      case DependencySection => DependencyField(st, key, value)
      case DevSection => DependencyField(st, key, value)
      case RootSection => Ok(st)
      case OtherSection => Ok(st)
  }

  function Steps(st: ParseState, lines: seq<string>, line: nat): Result<ParseState, ManifestError>
    decreases |lines|
  {
    if lines == [] then Ok(st)
    else
      match Step(st, StatementOf(lines[0]))
      case Ok(st') => Steps(st', lines[1..], line + 1)
      case Err(e) => Err(ManifestError(e, line + 1))
  }

  function FieldError(m: Manifest): Option<ErrorCode> {
    if m.name == "" || m.version == "" || m.license == "" || m.eta == "" then Some(MissingRequiredField)
    else if !ValidPackageName(m.name) || !ValidSemver(m.version) || !LooksLikeSpdx(m.license) || !LooksLikeRange(m.eta)
    then Some(InvalidValue)
    else None
  }

  /** The manifest a text spells, with its dependencies still in textual order. */
  function Read(text: string): Result<Manifest, ManifestError> {
    match Steps(START, Lines(text), 0)
    case Err(e) => Err(e)
    case Ok(st) =>
      match FieldError(st.manifest)
      case Some(e) => Err(ManifestError(e, 0))
      case None => Ok(st.manifest)
  }

  predicate NameBefore(a: ManifestDependency, b: ManifestDependency) {
    Less(a.name, b.name)
  }

  lemma NameOrderIsWeak()
    ensures StrictWeakOrder(NameBefore)
  {
    LessIsTotalOrder();
  }

  /** The same manifest with both dependency lists sorted by name. */
  ghost predicate Normalized(m: Manifest, m': Manifest) {
    && m' == m.(dependencies := m'.dependencies, devDependencies := m'.devDependencies)
    && SortedPermutation(m.dependencies, m'.dependencies, NameBefore)
    && SortedPermutation(m.devDependencies, m'.devDependencies, NameBefore)
  }

  method ParseManifest(text: string) returns (r: Result<Manifest, ManifestError>)
    ensures r.Ok? <==> Read(text).Ok?
    ensures r.Ok? ==> Normalized(Read(text).value, r.value)
    ensures r.Err? ==> r == Read(text)
  {
    var st := START;
    var rest := text;
    var lineNo := 0;
    while rest != ""
      invariant Steps(START, Lines(text), 0) == Steps(st, Lines(rest), lineNo)
      decreases |rest|
    {
      var line, rest' := GetLine(rest);
      ghost var all := Lines(rest);
      assert all[0] == line && all[1..] == Lines(rest');
      lineNo := lineNo + 1;
      var stepped := ParseLine(st, line);
      if stepped.Err? {
        return Err(ManifestError(stepped.error, lineNo));
      }
      st, rest := stepped.value, rest';
    }
    var m := st.manifest;
    if m.name == "" || m.version == "" || m.license == "" || m.eta == "" {
      return Err(ManifestError(MissingRequiredField, 0));
    }
    if !ValidPackageName(m.name) || !ValidSemver(m.version) || !LooksLikeSpdx(m.license) || !LooksLikeRange(m.eta) {
      return Err(ManifestError(InvalidValue, 0));
    }
    NameOrderIsWeak();
    var dependencies := Sort(m.dependencies, NameBefore);
    var devDependencies := Sort(m.devDependencies, NameBefore);
    r := Ok(m.(dependencies := dependencies, devDependencies := devDependencies));
  }

  method ParseLine(st: ParseState, line: string) returns (r: Result<ParseState, ErrorCode>)
    ensures r == Step(st, StatementOf(line))
  {
    var s := ReadStatement(line);
    match s {
      case Blank =>
        return Ok(st);
      case Header(text) =>
        var section := ReadHeader(text);
        if section.Err? {
          return Err(section.error);
        }
        return Ok(st.(section := section.value));
      case NoAssignment =>
        return Err(ParseError);
      case EmptyKey =>
        return Err(ParseError);
      case Assign(key, value) =>
        var m := st.manifest;
        if st.section == PackageSection {
          if key == "name" || key == "version" || key == "license" {
            var parsed := ParseQuotedString(value);
            if parsed.None? {
              return Err(ParseError);
            }
            if key == "name" {
              m := m.(name := parsed.value);
            } else if key == "version" {
              m := m.(version := parsed.value);
            } else {
              m := m.(license := parsed.value);
            }
          }
          return Ok(st.(manifest := m));
        }
        if st.section == CompatibilitySection {
          if key == "eta" {
            var parsed := ParseQuotedString(value);
            if parsed.None? {
              return Err(ParseError);
            }
            m := m.(eta := parsed.value);
          }
          return Ok(st.(manifest := m));
        }
        if st.section == DependencySection || st.section == DevSection {
          r := ParseDependencyLine(st, key, value);
          return;
        }
        return Ok(st);
    }
  }

  method ParseDependencyLine(st: ParseState, key: string, value: string) returns (r: Result<ParseState, ErrorCode>)
    requires st.section.DependencySection? || st.section.DevSection?
    ensures r == DependencyField(st, key, value)
  {
    if !ValidPackageName(key) {
      return Err(InvalidValue);
    }
    var names, devNames := st.names, st.devNames;
    if st.section == DependencySection {
      if key in names {
        return Err(ParseError);
      }
      names := names + {key};
    } else {
      if key in devNames {
        return Err(ParseError);
      }
      devNames := devNames + {key};
    }
    if key in names && key in devNames {
      return Err(ParseError);
    }
    var dep := ParseDependencyInlineTable(key, value);
    if dep.Err? {
      return Err(dep.error);
    }
    var m := st.manifest;
    if st.section == DependencySection {
      m := m.(dependencies := m.dependencies + [dep.value]);
    } else {
      m := m.(devDependencies := m.devDependencies + [dep.value]);
    }
    r := Ok(st.(manifest := m, names := names, devNames := devNames));
  }

  // ---- Writing a manifest ----

  function PairText(key: string, value: string): string {
    AssignmentText(key, Quoted(value))
  }

  /** The pairs of a dependency's own kind; fields of other kinds are not written. */
  function TableText(d: ManifestDependency): string {
    match d.kind
    case Path => PairText("path", d.path)
    case Git => PairText("git", d.git) + ", " + PairText("rev", d.rev)
    case Tarball => PairText("tarball", d.tarball) + ", " + PairText("sha256", d.sha256)
  }

  function DependencyText(d: ManifestDependency): string {
    AssignmentText(d.name, "{ " + TableText(d) + " }")
  }

  function DependencyLines(ds: seq<ManifestDependency>): seq<string> {
    if ds == [] then [] else [DependencyText(ds[0])] + DependencyLines(ds[1..])
  }

  function HeadLines(m: Manifest): seq<string> {
    ["[package]", PairText("name", m.name), PairText("version", m.version), PairText("license", m.license), "",
     "[compatibility]", PairText("eta", m.eta), "", "[dependencies]"]
  }

  function ManifestLines(m: Manifest): seq<string> {
    HeadLines(m) + DependencyLines(m.dependencies)
    + (if m.devDependencies == [] then [] else ["", "[dev-dependencies]"] + DependencyLines(m.devDependencies))
  }

  /** The manifest text with dependencies in the given order. */
  function Render(m: Manifest): string {
    Assemble(ManifestLines(m))
  }

  lemma {:induction false} DependencyLinesSnoc(ds: seq<ManifestDependency>, d: ManifestDependency)
    ensures DependencyLines(ds + [d]) == DependencyLines(ds) + [DependencyText(d)]
  {
    hide DependencyText;
    if ds == [] {
      assert [d][1..] == [];
    } else {
      assert (ds + [d])[1..] == ds[1..] + [d];
      DependencyLinesSnoc(ds[1..], d);
    }
  }

  method RenderDependency(d: ManifestDependency) returns (out: string)
    ensures out == DependencyText(d)
  {
    var table;
    match d.kind {
      case Path =>
        table := RenderPair("path", d.path);
      case Git =>
        var git := RenderPair("git", d.git);
        var rev := RenderPair("rev", d.rev);
        table := git + ", " + rev;
      case Tarball =>
        var tarball := RenderPair("tarball", d.tarball);
        var sha256 := RenderPair("sha256", d.sha256);
        table := tarball + ", " + sha256;
    }
    out := d.name + " = " + ("{ " + table + " }");
  }

  method RenderPair(key: string, value: string) returns (out: string)
    ensures out == PairText(key, value)
  {
    var escaped := EscapeString(value);
    out := key + " = " + ("\"" + escaped + "\"");
  }

  method WriteManifest(manifest: Manifest) returns (out: string, ghost written: Manifest)
    ensures Normalized(manifest, written)
    ensures out == Render(written)
  {
    NameOrderIsWeak();
    var dependencies := Sort(manifest.dependencies, NameBefore);
    var devDependencies := Sort(manifest.devDependencies, NameBefore);
    var m := manifest.(dependencies := dependencies, devDependencies := devDependencies);
    written := m;
    out := WriteSorted(m);
  }

  method WriteSorted(m: Manifest) returns (out: string)
    ensures out == Render(m)
  {
    hide Assemble, DependencyLines, HeadLines;
    out := WriteHead(m);
    ghost var lines;
    out, lines := PutDependencies(out, HeadLines(m), m.dependencies);
    ghost var before := lines;
    if m.devDependencies != [] {
      out, lines := Put(out, lines, "");
      out, lines := Put(out, lines, "[dev-dependencies]");
      out, lines := PutDependencies(out, lines, m.devDependencies);
      assert lines == before + (["", "[dev-dependencies]"] + DependencyLines(m.devDependencies));
    } else {
      assert lines == before + [];
    }
  }

  method WriteHead(m: Manifest) returns (out: string)
    ensures out == Assemble(HeadLines(m))
  {
    hide Assemble, PairText;
    var name := RenderPair("name", m.name);
    var version := RenderPair("version", m.version);
    var license := RenderPair("license", m.license);
    var eta := RenderPair("eta", m.eta);
    ghost var lines: seq<string> := [];
    out := "";
    EmptyAssembly();
    out, lines := Put(out, lines, "[package]");
    out, lines := Put(out, lines, name);
    out, lines := Put(out, lines, version);
    out, lines := Put(out, lines, license);
    out, lines := Put(out, lines, "");
    out, lines := Put(out, lines, "[compatibility]");
    out, lines := Put(out, lines, eta);
    out, lines := Put(out, lines, "");
    out, lines := Put(out, lines, "[dependencies]");
    assert lines == HeadLines(m);
  }

  lemma EmptyAssembly()
    ensures Assemble([]) == ""
  {
  }

  /** Appends one line to the output stream. */
  method Put(out: string, ghost lines: seq<string>, line: string) returns (out': string, ghost lines': seq<string>)
    requires out == Assemble(lines)
    ensures lines' == lines + [line] && out' == Assemble(lines')
  {
    AssembleSnoc(lines, line);
    out', lines' := out + line + "\n", lines + [line];
  }

  method PutDependencies(out: string, ghost lines: seq<string>, ds: seq<ManifestDependency>)
    returns (out': string, ghost lines': seq<string>)
    requires out == Assemble(lines)
    ensures lines' == lines + DependencyLines(ds) && out' == Assemble(lines')
  {
    hide Assemble, DependencyText;
    out', lines' := out, lines;
    var i := 0;
    while i < |ds|
      invariant 0 <= i <= |ds|
      invariant lines' == lines + DependencyLines(ds[..i])
      invariant out' == Assemble(lines')
    {
      var text := RenderDependency(ds[i]);
      DependencyLinesSnoc(ds[..i], ds[i]);
      assert ds[..i + 1] == ds[..i] + [ds[i]];
      out', lines' := Put(out', lines', text);
      i := i + 1;
    }
    assert ds[..i] == ds;
  }
}
