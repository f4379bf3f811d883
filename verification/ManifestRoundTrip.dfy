/** Reading back a written manifest: exactly the well-formed manifests survive. */
module ManifestRoundTrip {
  import opened Wrappers
  import opened Sorting
  import opened TomlText
  import opened Manifests

  /** A valid name, and the fields that the dependency's kind requires. */
  predicate ValidDependency(d: ManifestDependency) {
    && ValidPackageName(d.name)
    && match d.kind
       case Path => d.path != ""
       case Git => d.git != "" && ValidHex(d.rev, 40)
       case Tarball => d.tarball != "" && ValidHex(d.sha256, 64)
  }

  /** The dependency with the fields of other kinds blanked. */
  function OwnFields(d: ManifestDependency): ManifestDependency {
    match d.kind
    case Path => d.(git := "", rev := "", tarball := "", sha256 := "")
    case Git => d.(path := "", tarball := "", sha256 := "")
    case Tarball => d.(path := "", git := "", rev := "")
  }

  ghost predicate DistinctNames(ds: seq<ManifestDependency>) {
    forall i, j :: 0 <= i < j < |ds| ==> ds[i].name != ds[j].name
  }

  ghost predicate NamesApart(a: seq<ManifestDependency>, b: seq<ManifestDependency>) {
    forall i, j :: 0 <= i < |a| && 0 <= j < |b| ==> a[i].name != b[j].name
  }

  /** What the parser guarantees of every manifest it accepts. */
  ghost predicate Valid(m: Manifest) {
    && FieldError(m).None?
    && (forall i :: 0 <= i < |m.dependencies| ==> ValidDependency(m.dependencies[i]))
    && (forall i :: 0 <= i < |m.devDependencies| ==> ValidDependency(m.devDependencies[i]))
    && DistinctNames(m.dependencies) && DistinctNames(m.devDependencies)
    && NamesApart(m.dependencies, m.devDependencies)
  }

  /** Every dependency fills only the fields of its own kind. */
  predicate OwnFieldsOnly(m: Manifest) {
    && (forall i :: 0 <= i < |m.dependencies| ==> m.dependencies[i] == OwnFields(m.dependencies[i]))
    && (forall i :: 0 <= i < |m.devDependencies| ==> m.devDependencies[i] == OwnFields(m.devDependencies[i]))
  }

  /**
   Writing a manifest and reading the text gives it back, in the order written, exactly when it is
   valid and fills only the fields it writes.
   */
  lemma RoundTrip(m: Manifest)
    ensures Read(Render(m)) == Ok(m) <==> Valid(m) && OwnFieldsOnly(m)
  {
    if Valid(m) && OwnFieldsOnly(m) {
      WrittenReadsBack(m);
    }
    if Read(Render(m)) == Ok(m) {
      ReadIsValid(Render(m));
      OnlyOwnFieldsAreWritten(m);
    }
  }

  // ---- What is read is valid ----

  /** The parser's state: valid dependencies so far, and their names in the name sets. */
  ghost predicate Sound(st: ParseState) {
    && (forall i :: 0 <= i < |st.manifest.dependencies| ==>
          ValidDependency(st.manifest.dependencies[i]) && st.manifest.dependencies[i].name in st.names)
    && (forall i :: 0 <= i < |st.manifest.devDependencies| ==>
          ValidDependency(st.manifest.devDependencies[i]) && st.manifest.devDependencies[i].name in st.devNames)
    && st.names !! st.devNames
    && DistinctNames(st.manifest.dependencies) && DistinctNames(st.manifest.devDependencies)
  }

  lemma {:induction false} PairsKeepName(st: TableState, body: string)
    requires Pairs(st, body).Ok?
    ensures Pairs(st, body).value.dep.name == st.dep.name
    decreases |body|
  {
    if body != "" {
      var next := Find(Outside, body, ',');
      hide Find, Trimmed, Unquoted, Unquote;
      var st' := PairStep(st, Trimmed(body[..next])).value;
      if next < |body| {
        PairsKeepName(st', body[next + 1..]);
      }
    }
  }

  lemma TableIsValid(name: string, value: string)
    requires ValidPackageName(name) && InlineTable(name, value).Ok?
    ensures ValidDependency(InlineTable(name, value).value)
    ensures InlineTable(name, value).value.name == name
  {
    var text := Trimmed(value);
    PairsKeepName(NewTable(name), text[1..|text| - 1]);
  }

  lemma StepKeepsSound(st: ParseState, s: Statement)
    requires Sound(st) && (s.Header? ==> s.text != "") && Step(st, s).Ok?
    ensures Sound(Step(st, s).value)
  {
    hide ValidDependency;
    if s.Assign? && (st.section.DependencySection? || st.section.DevSection?) {
      TableIsValid(s.key, s.value);
      hide InlineTable, ValidPackageName;
    }
  }

  lemma {:induction false} StepsKeepSound(st: ParseState, lines: seq<string>, line: nat)
    requires Sound(st) && Steps(st, lines, line).Ok?
    ensures Sound(Steps(st, lines, line).value)
    decreases |lines|
  {
    if lines != [] {
      StepKeepsSound(st, StatementOf(lines[0]));
      hide Step, StatementOf, Sound;
      StepsKeepSound(Step(st, StatementOf(lines[0])).value, lines[1..], line + 1);
    }
  }

  /** Every manifest the parser accepts, from any text, is valid. */
  lemma ReadIsValid(text: string)
    requires Read(text).Ok?
    ensures Valid(Read(text).value)
  {
    StepsKeepSound(START, Lines(text), 0);
  }

  function Blanked(m: Manifest): Manifest {
    m.(dependencies := seq(|m.dependencies|, i requires 0 <= i < |m.dependencies| => OwnFields(m.dependencies[i])),
       devDependencies := seq(|m.devDependencies|, i requires 0 <= i < |m.devDependencies| => OwnFields(m.devDependencies[i])))
  }

  lemma {:induction false} SameDependencyLines(a: seq<ManifestDependency>, b: seq<ManifestDependency>)
    requires |a| == |b| && forall i :: 0 <= i < |a| ==> b[i] == OwnFields(a[i])
    ensures DependencyLines(a) == DependencyLines(b)
  {
    if a != [] {
      assert DependencyText(b[0]) == DependencyText(a[0]);
      hide DependencyText, OwnFields;
      SameDependencyLines(a[1..], b[1..]);
    }
  }

  /** Fields of other kinds are lost, so a manifest that survives has none. */
  lemma OnlyOwnFieldsAreWritten(m: Manifest)
    requires Valid(m) && Read(Render(m)) == Ok(m)
    ensures OwnFieldsOnly(m)
  {
    var b := Blanked(m);
    SameDependencyLines(m.dependencies, b.dependencies);
    SameDependencyLines(m.devDependencies, b.devDependencies);
    assert m.devDependencies == [] <==> b.devDependencies == [];
    assert Render(m) == Render(b) by { hide DependencyLines, Assemble; }
    BlankedIsValid(m);
    WrittenReadsBack(b);
  }

  lemma BlankedIsValid(m: Manifest)
    requires Valid(m)
    ensures Valid(Blanked(m)) && OwnFieldsOnly(Blanked(m))
  {
    hide ValidPackageName, ValidHex;
  }

  // ---- What is written is read ----

  lemma PairScans(key: string, value: string, needle: char)
    requires PlainFor(AssignmentText(key, ""), needle)
    ensures Find(Outside, PairText(key, value), needle) == |PairText(key, value)|
    ensures Run(Outside, PairText(key, value)) == Outside
  {
    QuotedFacts(value, needle);
    hide Quoted;
    assert PairText(key, value) == AssignmentText(key, "") + Quoted(value);
    FindPastPlain(AssignmentText(key, ""), Quoted(value), needle);
    FindPast(Outside, AssignmentText(key, ""), Quoted(value), needle);
  }

  lemma PairTight(key: string, value: string)
    requires PlainKey(key)
    ensures Tight(PairText(key, value))
    ensures OneLine(key) ==> OneLine(PairText(key, value))
  {
    QuotedFacts(value, '#');
    hide Quoted;
    var t := PairText(key, value);
    assert t[0] == key[0] && t[|t| - 1] == Quoted(value)[|Quoted(value)| - 1];
  }

  lemma PairReadsBack(st: TableState, key: string, value: string)
    requires PlainKey(key)
    ensures PairStep(st, PairText(key, value)) == SetKey(st, key, value)
  {
    var pair := PairText(key, value);
    EqualsInAssignment(key, Quoted(value));
    QuotedFacts(value, '=');
    TrimSpacesAround(key);
    assert pair[..|key| + 1] == key + " ";
    assert Trimmed(key + " ") == key;
    hide SetKey, Quoted, Unquote, Trimmed;
    assert pair[|key| + 2..] == " " + Quoted(value);
  }

  /** A text that a comma does not split, and that trimming leaves alone. */
  predicate OnePiece(s: string) {
    Tight(s) && Find(Outside, s, ',') == |s| && Run(Outside, s) == Outside
  }

  lemma LastPair(st: TableState, p: string)
    requires OnePiece(p)
    ensures Pairs(st, " " + p + " ") == PairStep(st, p)
  {
    var body := " " + p + " ";
    assert body == " " + (p + " ");
    FindPastPlain(" ", p + " ", ',');
    FindPast(Outside, p, " ", ',');
    FindPastPlain(" ", "", ',');
    assert body[..|body|] == body;
    TrimSpacesAround(p);
    hide PairStep, Trimmed;
  }

  lemma FirstPair(st: TableState, p: string, rest: string)
    requires OnePiece(p)
    ensures Pairs(st, " " + p + ", " + rest) ==
      match PairStep(st, p)
      case Ok(st') => Pairs(st', " " + rest)
      case Err(e) => Err(e)
  {
    var body := " " + p + ", " + rest;
    assert body == " " + (p + (", " + rest));
    FindPastPlain(" ", p + (", " + rest), ',');
    FindPast(Outside, p, ", " + rest, ',');
    assert body[..|p| + 1] == " " + p && body[|p| + 2..] == " " + rest;
    TrimSpacesAround(p);
    hide PairStep, Trimmed;
  }

  lemma TableKeys()
    ensures forall key :: key in {"path", "git", "rev", "tarball", "sha256"} ==>
      PlainKey(key) && PlainFor(AssignmentText(key, ""), ',') && PlainFor(AssignmentText(key, ""), '#') && OneLine(key)
  {
  }

  lemma PairFacts(key: string, value: string)
    requires key in {"path", "git", "rev", "tarball", "sha256"}
    ensures PlainKey(key) && OnePiece(PairText(key, value))
    ensures Find(Outside, PairText(key, value), '#') == |PairText(key, value)| && OneLine(PairText(key, value))
  {
    TableKeys();
    hide PlainKey;
    PairScans(key, value, ',');
    PairScans(key, value, '#');
    PairTight(key, value);
  }

  lemma TableReadsBack(d: ManifestDependency)
    requires ValidDependency(d) && d == OwnFields(d)
    ensures Pairs(NewTable(d.name), " " + TableText(d) + " ").Ok?
    ensures Finish(Pairs(NewTable(d.name), " " + TableText(d) + " ").value) == Ok(d)
  {
    hide PlainKey, OnePiece, PairText, ValidPackageName, Find;
    match d.kind {
      case Path =>
        PairFacts("path", d.path);
        PairReadsBack(NewTable(d.name), "path", d.path);
        LastPair(NewTable(d.name), PairText("path", d.path));
      case Git =>
        TwoPairs(NewTable(d.name), "git", d.git, "rev", d.rev);
      case Tarball =>
        TwoPairs(NewTable(d.name), "tarball", d.tarball, "sha256", d.sha256);
    }
  }

  lemma TwoPairs(st: TableState, key1: string, value1: string, key2: string, value2: string)
    requires key1 in {"path", "git", "rev", "tarball", "sha256"} && key2 in {"path", "git", "rev", "tarball", "sha256"}
    requires SetKey(st, key1, value1).Ok?
    ensures Pairs(st, " " + (PairText(key1, value1) + ", " + PairText(key2, value2)) + " ")
      == SetKey(SetKey(st, key1, value1).value, key2, value2)
  {
    var p1, p2 := PairText(key1, value1), PairText(key2, value2);
    PairFacts(key1, value1);
    PairFacts(key2, value2);
    hide PlainKey, OnePiece, PairText, Find, SetKey, Pairs, PairStep;
    PairReadsBack(st, key1, value1);
    PairReadsBack(SetKey(st, key1, value1).value, key2, value2);
    FirstPair(st, p1, p2 + " ");
    LastPair(SetKey(st, key1, value1).value, p2);
    SpacedPairs(p1, p2);
  }

  lemma SpacedPairs(p1: string, p2: string)
    ensures " " + (p1 + ", " + p2) + " " == " " + p1 + ", " + (p2 + " ")
    ensures " " + p2 + " " == " " + (p2 + " ")
  {
  }

  lemma TableScans(d: ManifestDependency)
    ensures var t := "{ " + TableText(d) + " }";
      Find(Outside, t, '#') == |t| && Tight(t) && OneLine(t)
  {
    var t := TableText(d);
    TableTextScans(d);
    hide TableText;
    assert "{ " + t + " }" == "{ " + (t + " }");
    FindPastPlain("{ ", t + " }", '#');
    FindPast(Outside, t, " }", '#');
    FindPastPlain(" }", "", '#');
  }

  lemma TableTextScans(d: ManifestDependency)
    ensures Find(Outside, TableText(d), '#') == |TableText(d)| && Run(Outside, TableText(d)) == Outside
    ensures OneLine(TableText(d))
  {
    match d.kind {
      case Path => PairFacts("path", d.path);
      case Git => TwoScan("git", d.git, "rev", d.rev);
      case Tarball => TwoScan("tarball", d.tarball, "sha256", d.sha256);
    }
  }

  lemma TwoScan(key1: string, value1: string, key2: string, value2: string)
    requires key1 in {"path", "git", "rev", "tarball", "sha256"} && key2 in {"path", "git", "rev", "tarball", "sha256"}
    ensures var t := PairText(key1, value1) + ", " + PairText(key2, value2);
      Find(Outside, t, '#') == |t| && Run(Outside, t) == Outside && OneLine(t)
  {
    var p1, p2 := PairText(key1, value1), PairText(key2, value2);
    PairFacts(key1, value1);
    PairFacts(key2, value2);
    hide PlainKey, PairText;
    assert p1 + ", " + p2 == p1 + (", " + p2);
    FindPast(Outside, p1, ", " + p2, '#');
    FindPastPlain(", ", p2, '#');
    FindPast(Outside, ", ", p2, '#');
  }

  lemma NameIsPlainKey(name: string)
    requires ValidPackageName(name)
    ensures PlainKey(name) && OneLine(name)
  {
    assert NameChar(name[0]) && NameChar(name[|name| - 1]);
  }

  lemma BracesTrim(t: string)
    ensures var text := "{ " + t + " }";
      Trimmed(" " + text) == text && text[0] == '{' && text[|text| - 1] == '}' && text[1..|text| - 1] == " " + t + " "
  {
    TrimSpacesAround("{ " + t + " }");
  }

  lemma DependencyTableReads(d: ManifestDependency)
    requires ValidDependency(d) && d == OwnFields(d)
    ensures InlineTable(d.name, " " + ("{ " + TableText(d) + " }")) == Ok(d)
  {
    TableReadsBack(d);
    hide ValidDependency, TableText, OwnFields, Finish, Pairs, Trimmed;
    BracesTrim(TableText(d));
  }

  lemma DependencyReadsBack(d: ManifestDependency)
    requires ValidDependency(d)
    ensures StatementOf(DependencyText(d)) == Assign(d.name, " " + ("{ " + TableText(d) + " }"))
    ensures OneLine(DependencyText(d))
  {
    NameIsPlainKey(d.name);
    TableScans(d);
    hide PlainKey, ValidDependency, TableText, StatementOf;
    AssignmentLine(d.name, "{ " + TableText(d) + " }");
  }

  lemma {:induction false} StepsConcat(st: ParseState, a: seq<string>, b: seq<string>, line: nat)
    ensures Steps(st, a + b, line) ==
      match Steps(st, a, line)
      case Ok(st') => Steps(st', b, line + |a|)
      case Err(e) => Err(e)
    decreases |a|
  {
    hide Step, StatementOf;
    if a == [] {
      assert a + b == b;
    } else {
      assert (a + b)[0] == a[0] && (a + b)[1..] == a[1..] + b;
      match Step(st, StatementOf(a[0]))
      case Ok(st') => StepsConcat(st', a[1..], b, line + 1);
      case Err(_) =>
    }
  }

  function Names(ds: seq<ManifestDependency>): set<string> {
    set d | d in ds :: d.name
  }

  lemma NamesOfOne(d: ManifestDependency)
    ensures Names([d]) == {d.name}
  {
    assert d in [d];
  }

  /** The state after reading dependency lines, in either dependency section. */
  function AfterDependencies(st: ParseState, ds: seq<ManifestDependency>): ParseState {
    if st.section.DevSection?
    then st.(devNames := st.devNames + Names(ds), manifest := st.manifest.(devDependencies := st.manifest.devDependencies + ds))
    else st.(names := st.names + Names(ds), manifest := st.manifest.(dependencies := st.manifest.dependencies + ds))
  }

  lemma DependencyStep(st: ParseState, d: ManifestDependency)
    requires st.section.DependencySection? || st.section.DevSection?
    requires ValidDependency(d) && d == OwnFields(d) && d.name !in st.names + st.devNames
    ensures Step(st, StatementOf(DependencyText(d))) == Ok(AfterDependencies(st, [d]))
  {
    hide StatementOf, DependencyText, InlineTable, ValidPackageName, OwnFields, TableText;
    assert ValidPackageName(d.name);
    hide ValidDependency;
    DependencyReadsBack(d);
    DependencyTableReads(d);
    NamesOfOne(d);
  }

  lemma {:induction false} DependenciesReadBack(st: ParseState, ds: seq<ManifestDependency>, line: nat)
    requires st.section.DependencySection? || st.section.DevSection?
    requires forall i :: 0 <= i < |ds| ==> ValidDependency(ds[i]) && ds[i] == OwnFields(ds[i])
    requires DistinctNames(ds) && forall i :: 0 <= i < |ds| ==> ds[i].name !in st.names + st.devNames
    ensures Steps(st, DependencyLines(ds), line) == Ok(AfterDependencies(st, ds))
    decreases |ds|
  {
    hide ValidDependency, OwnFields, Step, StatementOf, DependencyText;
    if ds == [] {
      assert st.manifest.dependencies + ds == st.manifest.dependencies;
      assert st.manifest.devDependencies + ds == st.manifest.devDependencies;
      assert Names(ds) == {};
      assert st.names + {} == st.names && st.devNames + {} == st.devNames;
    } else {
      DependencyStep(st, ds[0]);
      var st' := AfterDependencies(st, [ds[0]]);
      NamesOfOne(ds[0]);
      DependenciesReadBack(st', ds[1..], line + 1);
      AfterMore(st, ds);
      assert DependencyLines(ds)[0] == DependencyText(ds[0]) && DependencyLines(ds)[1..] == DependencyLines(ds[1..]);
    }
  }

  lemma AfterMore(st: ParseState, ds: seq<ManifestDependency>)
    requires ds != []
    ensures AfterDependencies(AfterDependencies(st, [ds[0]]), ds[1..]) == AfterDependencies(st, ds)
  {
    assert ds == [ds[0]] + ds[1..];
    assert st.manifest.dependencies + [ds[0]] + ds[1..] == st.manifest.dependencies + ds;
    assert st.manifest.devDependencies + [ds[0]] + ds[1..] == st.manifest.devDependencies + ds;
    NamesOfOne(ds[0]);
    assert forall d :: d in ds <==> d == ds[0] || d in ds[1..];
    assert Names(ds) == {ds[0].name} + Names(ds[1..]);
  }

  // ---- The fixed lines ----

  lemma SectionHeader(inner: string, section: Section)
    requires Tight(inner) && PlainFor(inner, '#') && inner[0] != '[' && section == SectionOf(inner)
    ensures forall st :: Step(st, StatementOf("[" + inner + "]")) == Ok(st.(section := section))
  {
    var h := "[" + inner + "]";
    HeaderLine(h);
    TrimSpacesAround(inner);
    assert h[1..|h| - 1] == inner;
    hide StatementOf, PlainFor, Trimmed, SectionOf;
    assert ReadHeader(h) == Ok(section);
    hide ReadHeader;
  }

  lemma PlainHeaders()
    ensures PlainFor("package", '#') && PlainFor("compatibility", '#')
    ensures PlainFor("dependencies", '#') && PlainFor("dev-dependencies", '#')
  {
  }

  lemma SectionSteps(st: ParseState)
    ensures Step(st, StatementOf("[package]")) == Ok(st.(section := PackageSection))
    ensures Step(st, StatementOf("[compatibility]")) == Ok(st.(section := CompatibilitySection))
    ensures Step(st, StatementOf("[dependencies]")) == Ok(st.(section := DependencySection))
    ensures Step(st, StatementOf("[dev-dependencies]")) == Ok(st.(section := DevSection))
  {
    hide StatementOf, Step, PlainFor;
    PlainHeaders();
    SectionHeader("package", PackageSection);
    SectionHeader("compatibility", CompatibilitySection);
    SectionHeader("dependencies", DependencySection);
    SectionHeader("dev-dependencies", DevSection);
    assert "[" + "package" + "]" == "[package]";
    assert "[" + "compatibility" + "]" == "[compatibility]";
    assert "[" + "dependencies" + "]" == "[dependencies]";
    assert "[" + "dev-dependencies" + "]" == "[dev-dependencies]";
  }

  lemma BlankStep()
    ensures StatementOf("") == Blank
  {
  }

  lemma FieldKeys()
    ensures forall key :: key in {"name", "version", "license", "eta"} ==> PlainKey(key) && OneLine(key)
  {
  }

  lemma FieldLine(key: string, value: string)
    requires key in {"name", "version", "license", "eta"}
    ensures StatementOf(PairText(key, value)) == Assign(key, " " + Quoted(value))
    ensures Unquote(" " + Quoted(value)) == Some(value)
    ensures OneLine(PairText(key, value))
  {
    FieldKeys();
    QuotedFacts(value, '#');
    hide PlainKey, Quoted, StatementOf;
    AssignmentLine(key, Quoted(value));
    PairTight(key, value);
  }

  lemma PackageFieldStep(st: ParseState, key: string, value: string)
    requires key in {"name", "version", "license"} && st.section.PackageSection?
    ensures Step(st, StatementOf(PairText(key, value))) == Ok(st.(manifest :=
      if key == "name" then st.manifest.(name := value)
      else if key == "version" then st.manifest.(version := value)
      else st.manifest.(license := value)))
  {
    hide StatementOf, Unquote, PairText, Quoted;
    FieldLine(key, value);
  }

  lemma EtaStep(st: ParseState, value: string)
    requires st.section.CompatibilitySection?
    ensures Step(st, StatementOf(PairText("eta", value))) == Ok(st.(manifest := st.manifest.(eta := value)))
  {
    hide StatementOf, Unquote, PairText, Quoted;
    FieldLine("eta", value);
  }

  lemma StepsAt(st: ParseState, lines: seq<string>, i: nat, st': ParseState)
    requires i < |lines| && Step(st, StatementOf(lines[i])) == Ok(st')
    ensures Steps(st, lines[i..], i) == Steps(st', lines[i + 1..], i + 1)
  {
    hide Step, StatementOf;
    assert lines[i..][0] == lines[i] && lines[i..][1..] == lines[i + 1..];
  }

  /** The state after the fixed lines and before the dependencies. */
  function AfterHead(m: Manifest): ParseState {
    ParseState(Manifest(m.name, m.version, m.license, m.eta, [], []), DependencySection, {}, {})
  }

  lemma PackageLinesRead(m: Manifest)
    ensures var st := ParseState(Manifest(m.name, m.version, m.license, "", [], []), PackageSection, {}, {});
      Steps(START, HeadLines(m), 0) == Steps(st, HeadLines(m)[5..], 5)
  {
    var l := HeadLines(m);
    hide StatementOf, PairText, Step, Steps;
    SectionSteps(START);
    var s1 := START.(section := PackageSection);
    var s2 := s1.(manifest := s1.manifest.(name := m.name));
    var s3 := s2.(manifest := s2.manifest.(version := m.version));
    var s4 := s3.(manifest := s3.manifest.(license := m.license));
    PackageFieldStep(s1, "name", m.name);
    PackageFieldStep(s2, "version", m.version);
    PackageFieldStep(s3, "license", m.license);
    BlankStepKeeps(s4);
    assert l[0..] == l;
    StepsAt(START, l, 0, s1);
    StepsAt(s1, l, 1, s2);
    StepsAt(s2, l, 2, s3);
    StepsAt(s3, l, 3, s4);
    StepsAt(s4, l, 4, s4);
  }

  lemma BlankStepKeeps(st: ParseState)
    ensures Step(st, StatementOf("")) == Ok(st)
  {
    BlankStep();
    hide StatementOf;
  }

  lemma HeadReads(m: Manifest)
    ensures Steps(START, HeadLines(m), 0) == Ok(AfterHead(m))
  {
    var l := HeadLines(m);
    PackageLinesRead(m);
    var s4 := ParseState(Manifest(m.name, m.version, m.license, "", [], []), PackageSection, {}, {});
    var s5 := s4.(section := CompatibilitySection);
    var s6 := s5.(manifest := s5.manifest.(eta := m.eta));
    assert l[9..] == [] && Steps(AfterHead(m), l[9..], 9) == Ok(AfterHead(m));
    hide StatementOf, PairText, Step, Steps;
    SectionSteps(s4);
    SectionSteps(s6);
    EtaStep(s5, m.eta);
    BlankStepKeeps(s6);
    StepsAt(s4, l, 5, s5);
    StepsAt(s5, l, 6, s6);
    StepsAt(s6, l, 7, s6);
    StepsAt(s6, l, 8, AfterHead(m));
  }

  lemma DevHeadReads(st: ParseState, line: nat)
    ensures Steps(st, ["", "[dev-dependencies]"], line) == Ok(st.(section := DevSection))
  {
    var l := ["", "[dev-dependencies]"];
    var st' := st.(section := DevSection);
    BlankStepKeeps(st);
    SectionSteps(st);
    hide StatementOf, Step;
    assert l[1..] == [l[1]] && [l[1]][1..] == [];
    assert Steps(st, [l[1]], line + 1) == Ok(st');
  }

  lemma LinesReadBack(m: Manifest)
    requires Valid(m) && OwnFieldsOnly(m)
    ensures Steps(START, ManifestLines(m), 0).Ok?
    ensures Steps(START, ManifestLines(m), 0).value.manifest == m
  {
    hide Valid, OwnFieldsOnly, AfterDependencies, Steps, HeadLines, DependencyLines;
    RuntimeLinesReadBack(m);
    if m.devDependencies == [] {
      NoDevLines(m);
    } else {
      var before := HeadLines(m) + DependencyLines(m.dependencies);
      DevLinesReadBack(m, AfterDependencies(AfterHead(m), m.dependencies), |before|);
      StepsConcat(START, before, ["", "[dev-dependencies]"] + DependencyLines(m.devDependencies), 0);
    }
  }

  lemma NoDevLines(m: Manifest)
    requires m.devDependencies == []
    ensures ManifestLines(m) == HeadLines(m) + DependencyLines(m.dependencies)
    ensures AfterDependencies(AfterHead(m), m.dependencies).manifest == m
  {
    hide HeadLines, DependencyLines;
    var before := HeadLines(m) + DependencyLines(m.dependencies);
    assert before + [] == before;
    assert [] + m.dependencies == m.dependencies;
  }

  lemma RuntimeLinesReadBack(m: Manifest)
    requires Valid(m) && OwnFieldsOnly(m)
    ensures Steps(START, HeadLines(m) + DependencyLines(m.dependencies), 0)
      == Ok(AfterDependencies(AfterHead(m), m.dependencies))
  {
    HeadReads(m);
    hide Steps, HeadLines, DependencyLines, ValidDependency, OwnFields, AfterDependencies;
    DependenciesReadBack(AfterHead(m), m.dependencies, |HeadLines(m)|);
    StepsConcat(START, HeadLines(m), DependencyLines(m.dependencies), 0);
  }

  lemma DevLinesReadBack(m: Manifest, st: ParseState, line: nat)
    requires Valid(m) && OwnFieldsOnly(m) && st == AfterDependencies(AfterHead(m), m.dependencies)
    ensures var r := Steps(st, ["", "[dev-dependencies]"] + DependencyLines(m.devDependencies), line);
      r.Ok? && r.value.manifest == m
  {
    hide Steps, DependencyLines, ValidDependency, OwnFields;
    var st' := st.(section := DevSection);
    DevHeadReads(st, line);
    assert forall i :: 0 <= i < |m.devDependencies| ==> m.devDependencies[i].name !in Names(m.dependencies);
    DependenciesReadBack(st', m.devDependencies, line + 2);
    hide Valid, OwnFieldsOnly, Names;
    StepsConcat(st, ["", "[dev-dependencies]"], DependencyLines(m.devDependencies), line);
    AllRead(m);
  }

  lemma AllRead(m: Manifest)
    ensures AfterDependencies(AfterDependencies(AfterHead(m), m.dependencies).(section := DevSection), m.devDependencies).manifest == m
  {
    assert [] + m.dependencies == m.dependencies && [] + m.devDependencies == m.devDependencies;
  }

  lemma {:induction false} DependencyLinesHaveNoNewline(ds: seq<ManifestDependency>)
    requires forall i :: 0 <= i < |ds| ==> ValidDependency(ds[i]) && ds[i] == OwnFields(ds[i])
    ensures forall i :: 0 <= i < |DependencyLines(ds)| ==> OneLine(DependencyLines(ds)[i])
  {
    if ds != [] {
      DependencyReadsBack(ds[0]);
      hide DependencyText, ValidDependency, OwnFields;
      DependencyLinesHaveNoNewline(ds[1..]);
    }
  }

  lemma HeadLinesHaveNoNewline(m: Manifest)
    ensures forall i :: 0 <= i < |HeadLines(m)| ==> OneLine(HeadLines(m)[i])
  {
    hide PairText, OneLine;
    FieldIsOneLine("name", m.name);
    FieldIsOneLine("version", m.version);
    FieldIsOneLine("license", m.license);
    FieldIsOneLine("eta", m.eta);
    HeadersHaveNoNewline();
    AllNine(HeadLines(m));
  }

  lemma FieldIsOneLine(key: string, value: string)
    requires key in {"name", "version", "license", "eta"}
    ensures OneLine(PairText(key, value))
  {
    FieldLine(key, value);
  }

  lemma AllNine(l: seq<string>)
    requires |l| == 9
    requires OneLine(l[0]) && OneLine(l[1]) && OneLine(l[2]) && OneLine(l[3]) && OneLine(l[4])
    requires OneLine(l[5]) && OneLine(l[6]) && OneLine(l[7]) && OneLine(l[8])
    ensures forall i :: 0 <= i < |l| ==> OneLine(l[i])
  {
    hide OneLine;
  }

  lemma HeadersHaveNoNewline()
    ensures OneLine("") && OneLine("[package]") && OneLine("[compatibility]") && OneLine("[dependencies]") && OneLine("[dev-dependencies]")
  {
  }

  lemma WrittenReadsBack(m: Manifest)
    requires Valid(m) && OwnFieldsOnly(m)
    ensures Read(Render(m)) == Ok(m)
  {
    hide HeadLines, DependencyLines, Steps, ValidDependency, OwnFields, Assemble, Lines, OneLine, FieldError;
    LinesReadBack(m);
    ManifestLinesAreOneLine(m);
    LinesOfAssembled(ManifestLines(m));
  }

  lemma ManifestLinesAreOneLine(m: Manifest)
    requires Valid(m) && OwnFieldsOnly(m)
    ensures forall i :: 0 <= i < |ManifestLines(m)| ==> OneLine(ManifestLines(m)[i])
  {
    hide HeadLines, DependencyLines, ValidDependency, OwnFields, OneLine;
    DependencyLinesHaveNoNewline(m.dependencies);
    DependencyLinesHaveNoNewline(m.devDependencies);
    HeadLinesHaveNoNewline(m);
    HeadersHaveNoNewline();
  }

  // ---- Sorting ----

  lemma NamesDoNotTie(ds: seq<ManifestDependency>)
    requires DistinctNames(ds)
    ensures NoTies(ds, NameBefore)
  {
    LessIsTotalOrder();
    forall i, j | 0 <= i < |ds| && 0 <= j < |ds| && i != j ensures ds[i].name != ds[j].name {
      if i < j { assert ds[i].name != ds[j].name; } else { assert ds[j].name != ds[i].name; }
    }
  }

  /** Normalizing a valid, sorted manifest changes nothing. */
  lemma NormalizedStays(m: Manifest, m': Manifest)
    requires Valid(m) && Normalized(m, m')
    requires Sorted(m.dependencies, NameBefore) && Sorted(m.devDependencies, NameBefore)
    ensures m' == m
  {
    NameOrderIsWeak();
    NamesDoNotTie(m.dependencies);
    NamesDoNotTie(m.devDependencies);
    SortedStays(m.dependencies, m'.dependencies, NameBefore);
    SortedStays(m.devDependencies, m'.devDependencies, NameBefore);
  }

  /** Sorting the dependencies keeps a manifest valid. */
  lemma NormalizedIsValid(m: Manifest, m': Manifest)
    requires Normalized(m, m') && Valid(m) && OwnFieldsOnly(m)
    ensures Valid(m') && OwnFieldsOnly(m')
    ensures Sorted(m'.dependencies, NameBefore) && Sorted(m'.devDependencies, NameBefore)
  {
    hide ValidDependency, OwnFields, NameBefore;
    SameElements(m.dependencies, m'.dependencies);
    SameElements(m.devDependencies, m'.devDependencies);
    PermutedKeysDiffer(m.dependencies, m'.dependencies, (d: ManifestDependency) => d.name);
    PermutedKeysDiffer(m.devDependencies, m'.devDependencies, (d: ManifestDependency) => d.name);
    forall i | 0 <= i < |m'.dependencies|
      ensures ValidDependency(m'.dependencies[i]) && m'.dependencies[i] == OwnFields(m'.dependencies[i])
    {
      assert m'.dependencies[i] in m.dependencies;
    }
    forall i | 0 <= i < |m'.devDependencies|
      ensures ValidDependency(m'.devDependencies[i]) && m'.devDependencies[i] == OwnFields(m'.devDependencies[i])
    {
      assert m'.devDependencies[i] in m.devDependencies;
    }
    forall i, j | 0 <= i < |m'.dependencies| && 0 <= j < |m'.devDependencies|
      ensures m'.dependencies[i].name != m'.devDependencies[j].name
    {
      assert m'.dependencies[i] in m.dependencies && m'.devDependencies[j] in m.devDependencies;
    }
  }

  /**
   Write, parse, write: from any valid manifest, the parsed one is the one written, and the second
   text is the first. `written` and `rewritten` are what the writer emits of `m` and of `parsed`,
   and `parsed` is what the parser returns.
   */
  lemma WriteParseWrite(m: Manifest, written: Manifest, parsed: Manifest, rewritten: Manifest)
    requires Valid(m) && OwnFieldsOnly(m) && Normalized(m, written)
    requires Read(Render(written)).Ok? ==> Normalized(Read(Render(written)).value, parsed)
    requires Normalized(parsed, rewritten)
    ensures Read(Render(written)).Ok?
    ensures parsed == written && Render(rewritten) == Render(written)
  {
    NormalizedIsValid(m, written);
    WrittenReadsBack(written);
    NormalizedStays(written, parsed);
    NormalizedStays(parsed, rewritten);
  }
}
