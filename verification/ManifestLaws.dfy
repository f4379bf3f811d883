/**
 What a manifest may say, clause by clause: inline tables with any pairs in any order, versions as
 a grammar, section headers, and the keys each section knows
 (eta/core/src/eta/package/manifest.cpp).
 */
module ManifestLaws {
  import opened Wrappers
  import opened TomlText
  import opened Manifests
  import opened Comments

  // ---- Inline tables ----

  /** `key = "value"` with white space around its parts, or white space only. */
  datatype Entry =
    | Space(blank: string)
    | Setting(before: string, key: string, gap: string, lead: string, value: string, after: string)

  predicate IsEntry(e: Entry) {
    match e
    case Space(blank) => AllBlank(blank)
    case Setting(before, key, gap, lead, _, after) =>
      && AllBlank(before) && AllBlank(gap) && AllBlank(lead) && AllBlank(after)
      && Tight(key) && PlainFor(key, ',') && PlainFor(key, '=')
  }

  predicate AreEntries(es: seq<Entry>) {
    forall i :: 0 <= i < |es| ==> IsEntry(es[i])
  }

  function EntryText(e: Entry): string {
    match e
    case Space(blank) => blank
    case Setting(before, key, gap, lead, value, after) => before + (key + gap + "=" + (lead + Quoted(value))) + after
  }

  /** Entries with commas between them. */
  function BodyText(es: seq<Entry>): string {
    if es == [] then ""
    else if |es| == 1 then EntryText(es[0])
    else EntryText(es[0]) + "," + BodyText(es[1..])
  }

  /** The settings of a table, the white space left out. */
  function Settings(es: seq<Entry>): seq<(string, string)> {
    if es == [] then []
    else if es[0].Space? then Settings(es[1..])
    else [(es[0].key, es[0].value)] + Settings(es[1..])
  }

  const KEYS := {"path", "git", "rev", "tarball", "sha256"}

  /** The first setting with an unknown key, or with a key met before, is an error. */
  function SettingsFault(ss: seq<(string, string)>, met: set<string>): Option<ErrorCode> {
    if ss == [] then None
    else if ss[0].0 !in KEYS then Some(UnsupportedValue)
    else if ss[0].0 in met then Some(ParseError)
    else SettingsFault(ss[1..], met + {ss[0].0})
  }

  function Fields(ss: seq<(string, string)>): map<string, string> {
    if ss == [] then map[] else map[ss[0].0 := ss[0].1] + Fields(ss[1..])
  }

  function FieldOf(m: map<string, string>, key: string): string {
    if key in m then m[key] else ""
  }

  function DependencyWith(name: string, kind: DependencyKind, m: map<string, string>): ManifestDependency {
    ManifestDependency(name, kind, FieldOf(m, "path"), FieldOf(m, "git"), FieldOf(m, "rev"), FieldOf(m, "tarball"),
      FieldOf(m, "sha256"))
  }

  /** The kind a table shows: the one of `path`, `git` and `tarball` that it has. */
  predicate ShowsKind(m: map<string, string>, kind: DependencyKind) {
    && ("path" in m <==> kind.Path?) && ("git" in m <==> kind.Git?) && ("tarball" in m <==> kind.Tarball?)
  }

  /** What its kind needs, and the length its pin has. */
  predicate HasWhatItNeeds(m: map<string, string>, kind: DependencyKind) {
    match kind
    case Path => FieldOf(m, "path") != ""
    case Git => FieldOf(m, "git") != "" && FieldOf(m, "rev") != ""
    case Tarball => FieldOf(m, "tarball") != "" && FieldOf(m, "sha256") != ""
  }

  predicate IsPinned(m: map<string, string>, kind: DependencyKind) {
    match kind
    case Path => true
    case Git => ValidHex(FieldOf(m, "rev"), 40)
    case Tarball => ValidHex(FieldOf(m, "sha256"), 64)
  }

  /** The state in which fields are as in a map, and seen exactly when they are in it. */
  predicate Holds(st: TableState, name: string, m: map<string, string>) {
    && st.dep == DependencyWith(name, Path, m)
    && st.seen == Seen("path" in m, "git" in m, "rev" in m, "tarball" in m, "sha256" in m)
  }

  lemma EntryScans(e: Entry)
    requires IsEntry(e)
    ensures Find(Outside, EntryText(e), ',') == |EntryText(e)| && Run(Outside, EntryText(e)) == Outside
  {
    hide Find, Run, Quoted, AllBlank, PlainFor;
    match e {
      case Space(blank) =>
        AfterIsPlain(blank);
        FindPastPlain(blank, "", ',');
      case Setting(before, key, gap, lead, value, after) =>
        FrontIsPlain(before, key, gap, lead);
        AfterIsPlain(after);
        SettingScans(before + (key + gap + "=" + lead), value, after);
        SameSetting(before, key, gap, lead, Quoted(value), after);
    }
  }

  lemma SameSetting(before: string, key: string, gap: string, lead: string, value: string, after: string)
    ensures before + (key + gap + "=" + (lead + value)) + after == before + (key + gap + "=" + lead) + (value + after)
  {
  }

  lemma SettingScans(front: string, value: string, after: string)
    requires PlainFor(front, ',') && PlainFor(after, ',')
    ensures var s := front + (Quoted(value) + after); Find(Outside, s, ',') == |s| && Run(Outside, s) == Outside
  {
    hide Find, Run, Quoted, PlainFor;
    QuotedFacts(value, ',');
    ThreeScan(front, Quoted(value), after);
  }

  lemma ThreeScan(a: string, b: string, c: string)
    requires PlainFor(a, ',') && PlainFor(c, ',')
    requires Find(Outside, b, ',') == |b| && Run(Outside, b) == Outside
    ensures Find(Outside, a + (b + c), ',') == |a + (b + c)| && Run(Outside, a + (b + c)) == Outside
  {
    hide Find, Run, PlainFor;
    FindPastPlain(c, "", ',');
    FindPast(Outside, b, c, ',');
    FindPastPlain(a, b + c, ',');
    FindPast(Outside, a, b + c, ',');
  }

  lemma AfterIsPlain(after: string)
    requires AllBlank(after)
    ensures PlainFor(after, ',')
  {
  }

  lemma FrontIsPlain(before: string, key: string, gap: string, lead: string)
    requires AllBlank(before) && AllBlank(gap) && AllBlank(lead) && PlainFor(key, ',')
    ensures PlainFor(before + (key + gap + "=" + lead), ',')
  {
  }

  /** What one entry does to the state. */
  lemma EntryStep(st: TableState, e: Entry)
    requires IsEntry(e)
    ensures PairStep(st, Trimmed(EntryText(e))) == if e.Space? then Ok(st) else SetKey(st, e.key, e.value)
  {
    match e {
      case Space(blank) =>
        TrimBetween(blank, "", "");
        assert blank + "" + "" == blank;
      case Setting(before, key, gap, lead, value, after) =>
        hide SetKey, Quoted, Unquote, AllBlank;
        var pair := key + gap + "=" + (lead + Quoted(value));
        TrimBetween(before, pair, after);
        PairIsTight(key, gap, lead, value);
        PairParts(key, gap, lead + Quoted(value));
        SpacedString(lead, value, "");
        assert lead + Quoted(value) + "" == lead + Quoted(value);
        NothingIsBlank();
        hide Trimmed, Unquoted;
    }
  }

  lemma PairIsTight(key: string, gap: string, lead: string, value: string)
    requires Tight(key)
    ensures var pair := key + gap + "=" + (lead + Quoted(value)); Trimmed(pair) == pair && pair != ""
  {
    QuotedFacts(value, ',');
    hide Quoted;
    var pair := key + gap + "=" + (lead + Quoted(value));
    assert pair[0] == key[0] && pair[|pair| - 1] == Quoted(value)[|Quoted(value)| - 1];
    TightStays(pair);
  }

  lemma PairParts(key: string, gap: string, value: string)
    requires Tight(key) && PlainFor(key, '=') && AllBlank(gap)
    ensures
      var pair := key + gap + "=" + value;
      && Unquoted(pair, '=') == Some(|key + gap|)
      && Trimmed(pair[..|key + gap|]) == key && pair[|key + gap| + 1..] == value
  {
    var pair := key + gap + "=" + value;
    var left := key + gap;
    assert pair == left + ("=" + value);
    assert PlainFor(left, '=');
    FindPastPlain(left, "=" + value, '=');
    assert pair[..|left|] == left && pair[|left| + 1..] == value;
    NothingIsBlank();
    TrimBetween("", key, gap);
    assert "" + key + gap == left;
    TightStays(key);
  }

  lemma SettingStep(st: TableState, name: string, m: map<string, string>, key: string, value: string)
    requires Holds(st, name, m)
    ensures key !in KEYS ==> SetKey(st, key, value) == Err(UnsupportedValue)
    ensures key in KEYS && key in m ==> SetKey(st, key, value) == Err(ParseError)
    ensures key in KEYS && key !in m ==>
      SetKey(st, key, value).Ok? && Holds(SetKey(st, key, value).value, name, m[key := value])
  {
  }

  lemma OnePart(st: TableState, e: Entry)
    requires IsEntry(e)
    ensures Pairs(st, EntryText(e)) == PairStep(st, Trimmed(EntryText(e)))
  {
    EntryScans(e);
    hide Find, Run, PairStep, Trimmed, EntryText;
    var text := EntryText(e);
    assert text[..|text|] == text;
    if text == "" {
      NothingTrimmed(st);
    }
  }

  lemma NothingTrimmed(st: TableState)
    ensures PairStep(st, Trimmed("")) == Ok(st)
  {
  }

  lemma FirstPart(st: TableState, e: Entry, rest: string)
    requires IsEntry(e)
    ensures var step := PairStep(st, Trimmed(EntryText(e)));
      Pairs(st, EntryText(e) + "," + rest) == if step.Err? then step else Pairs(step.value, rest)
  {
    EntryScans(e);
    hide Find, Run, PairStep, Trimmed, EntryText;
    var text := EntryText(e);
    var body := text + "," + rest;
    assert body == text + ("," + rest);
    FindPast(Outside, text, "," + rest, ',');
    CommaFound(rest);
    assert body[..|text|] == text && body[|text| + 1..] == rest;
  }

  lemma CommaFound(rest: string)
    ensures Find(Outside, "," + rest, ',') == 0
  {
  }

  lemma FieldsCons(m: map<string, string>, key: string, value: string, ss: seq<(string, string)>)
    ensures m + Fields([(key, value)] + ss) == m[key := value] + Fields(ss)
  {
    assert ([(key, value)] + ss)[1..] == ss;
  }

  /** The body of a table: its first fault, or the fields of all its settings. */
  lemma {:induction false} BodyRead(st: TableState, es: seq<Entry>, name: string, m: map<string, string>)
    requires AreEntries(es) && Holds(st, name, m)
    ensures SettingsFault(Settings(es), m.Keys).Some? ==>
      Pairs(st, BodyText(es)) == Err(SettingsFault(Settings(es), m.Keys).value)
    ensures SettingsFault(Settings(es), m.Keys).None? ==>
      Pairs(st, BodyText(es)).Ok? && Holds(Pairs(st, BodyText(es)).value, name, m + Fields(Settings(es)))
    decreases es
  {
    hide Pairs, PairStep, SetKey, IsEntry, EntryText, Holds, Trimmed;
    if es == [] {
      NoPairs(st);
      assert m + Fields(Settings(es)) == m;
    } else {
      var e, rest := es[0], es[1..];
      EntryStep(st, e);
      if |es| == 1 {
        assert rest == [];
        OnePart(st, e);
      } else {
        FirstPart(st, e, BodyText(rest));
      }
      if e.Space? {
        BodyRead(st, rest, name, m);
        NoPairs(st);
      } else {
        SettingStep(st, name, m, e.key, e.value);
        if e.key in KEYS && e.key !in m {
          var st' := SetKey(st, e.key, e.value).value;
          var m' := m[e.key := e.value];
          assert m'.Keys == m.Keys + {e.key};
          BodyRead(st', rest, name, m');
          NoPairs(st');
          FieldsCons(m, e.key, e.value, Settings(rest));
        }
      }
    }
  }

  /** What becomes of a table that shows a kind. */
  function Verdict(name: string, kind: DependencyKind, m: map<string, string>): Result<ManifestDependency, ErrorCode> {
    if !HasWhatItNeeds(m, kind) then Err(MissingRequiredField)
    else if !IsPinned(m, kind) then Err(InvalidValue)
    else Ok(DependencyWith(name, kind, m))
  }

  lemma FinishOf(st: TableState, name: string, m: map<string, string>, kind: DependencyKind)
    requires Holds(st, name, m) && ShowsKind(m, kind)
    ensures Finish(st) == Verdict(name, kind, m)
  {
    hide ValidHex;
  }

  lemma FinishOfNone(st: TableState, name: string, m: map<string, string>)
    requires Holds(st, name, m) && forall kind :: !ShowsKind(m, kind)
    ensures Finish(st) == Err(MissingRequiredField)
  {
    assert !ShowsKind(m, Path) && !ShowsKind(m, Git) && !ShowsKind(m, Tarball);
  }

  function TableOf(es: seq<Entry>): string {
    "{" + BodyText(es) + "}"
  }

  lemma TableParts(name: string, pre: string, es: seq<Entry>, post: string)
    requires AllBlank(pre) && AllBlank(post)
    ensures var read := Pairs(NewTable(name), BodyText(es));
      InlineTable(name, pre + TableOf(es) + post) == if read.Err? then Err(read.error) else Finish(read.value)
  {
    hide Pairs, Finish, BodyText, Trimmed, AllBlank;
    var t := TableOf(es);
    TrimBetween(pre, t, post);
    TightStays(t);
    assert t[1..|t| - 1] == BodyText(es);
  }

  lemma NewHoldsNothing(name: string)
    ensures Holds(NewTable(name), name, map[])
  {
  }

  /** The first bad setting of an inline table is its error. */
  lemma FaultyTable(name: string, pre: string, es: seq<Entry>, post: string)
    requires AllBlank(pre) && AllBlank(post) && AreEntries(es) && SettingsFault(Settings(es), {}).Some?
    ensures InlineTable(name, pre + TableOf(es) + post) == Err(SettingsFault(Settings(es), {}).value)
  {
    hide *;
    TableParts(name, pre, es, post);
    NewHoldsNothing(name);
    NoKeys(Fields(Settings(es)));
    BodyRead(NewTable(name), es, name, map[]);
  }

  lemma NoKeys(m: map<string, string>)
    ensures m - m.Keys == map[] && (m - m.Keys).Keys == {} && map[] + m == m
  {
  }

  /**
   Otherwise the order of the settings does not matter: the table must show one kind, have what
   the kind needs and be pinned, and the dependency has all the fields that are set.
   */
  lemma SoundTable(name: string, pre: string, es: seq<Entry>, post: string, kind: DependencyKind)
    requires AllBlank(pre) && AllBlank(post) && AreEntries(es) && SettingsFault(Settings(es), {}).None?
    ensures ShowsKind(Fields(Settings(es)), kind) ==>
      InlineTable(name, pre + TableOf(es) + post) == Verdict(name, kind, Fields(Settings(es)))
    ensures (forall k :: !ShowsKind(Fields(Settings(es)), k)) ==>
      InlineTable(name, pre + TableOf(es) + post) == Err(MissingRequiredField)
  {
    hide *;
    TableParts(name, pre, es, post);
    NewHoldsNothing(name);
    NoKeys(Fields(Settings(es)));
    BodyRead(NewTable(name), es, name, map[]);
    var m := Fields(Settings(es));
    var st := Pairs(NewTable(name), BodyText(es)).value;
    if ShowsKind(m, kind) {
      FinishOf(st, name, m, kind);
    }
    if forall k :: !ShowsKind(m, k) {
      FinishOfNone(st, name, m);
    }
  }

  /** A dependency given by a string alone, as other package managers have it, is refused. */
  lemma StringIsNoTable(name: string, pre: string, value: string, post: string)
    requires AllBlank(pre) && AllBlank(post)
    ensures InlineTable(name, pre + Quoted(value) + post) == Err(UnsupportedValue)
  {
    hide Trimmed;
    QuotedFacts(value, '#');
    TrimBetween(pre, Quoted(value), post);
    TightStays(Quoted(value));
  }

  // ---- Versions ----

  predicate IsNumber(s: string) {
    s != "" && forall i :: 0 <= i < |s| ==> '0' <= s[i] <= '9'
  }

  /** A label after a mark: nothing at all, or letters, digits, dots and dashes. */
  predicate IsLabel(s: string, mark: char) {
    s == "" || (|s| > 1 && s[0] == mark && forall i :: 1 <= i < |s| ==> IsLabelChar(s[i]))
  }

  predicate IsLabelChar(c: char) {
    '0' <= c <= '9' || 'a' <= c <= 'z' || 'A' <= c <= 'Z' || c == '.' || c == '-'
  }

  predicate IsVersion(s: string, major: string, minor: string, patch: string, pre: string, build: string) {
    && s == major + "." + minor + "." + patch + pre + build
    && IsNumber(major) && IsNumber(minor) && IsNumber(patch) && IsLabel(pre, '-') && IsLabel(build, '+')
  }

  lemma {:induction false} DigitRunIs(a: string, b: string)
    requires (forall i :: 0 <= i < |a| ==> IsDigit(a[i])) && (b == "" || !IsDigit(b[0]))
    ensures DigitRun(a + b) == |a|
  {
    if a == "" {
      assert a + b == b;
    } else {
      assert (a + b)[1..] == a[1..] + b;
      DigitRunIs(a[1..], b);
    }
  }

  lemma {:induction false} IdentifierRunIs(a: string, b: string)
    requires (forall i :: 0 <= i < |a| ==> IdentifierChar(a[i])) && (b == "" || !IdentifierChar(b[0]))
    ensures IdentifierRun(a + b) == |a|
  {
    if a == "" {
      assert a + b == b;
    } else {
      assert (a + b)[1..] == a[1..] + b;
      IdentifierRunIs(a[1..], b);
    }
  }

  lemma BuildIsLabel(s: string)
    ensures BuildPart(s) <==> IsLabel(s, '+')
  {
    if s != "" && s[0] == '+' && |s| > 1 {
      if IsLabel(s, '+') {
        IdentifierRunIs(s[1..], "");
        assert s[1..] + "" == s[1..];
      }
      if BuildPart(s) {
        assert forall i :: 1 <= i < |s| ==> s[i] == s[1..][i - 1];
      }
    }
  }

  lemma PreReleaseIs(s: string)
    ensures PreReleasePart(s) <==> exists pre, build :: IsLabels(s, pre, build)
  {
    hide IsLabel, BuildPart, IdentifierRun;
    if PreReleasePart(s) {
      var n := if s != "" && s[0] == '-' then 1 + IdentifierRun(s[1..]) else 0;
      BuildIsLabel(s[n..]);
      LabelRead(s, n);
      assert s == s[..n] + s[n..];
      assert IsLabels(s, s[..n], s[n..]);
    }
    if pre, build :| IsLabels(s, pre, build) {
      BuildIsLabel(build);
      LabelsRead(s, pre, build);
    }
  }

  predicate IsLabels(s: string, pre: string, build: string) {
    s == pre + build && IsLabel(pre, '-') && IsLabel(build, '+')
  }

  lemma LabelRead(s: string, n: nat)
    requires PreReleasePart(s) && n == if s != "" && s[0] == '-' then 1 + IdentifierRun(s[1..]) else 0
    ensures n <= |s| && IsLabel(s[..n], '-') && BuildPart(s[n..])
  {
    if n > 0 {
      assert forall i :: 1 <= i < n ==> s[i] == s[1..][i - 1];
    } else {
      assert s[0..] == s;
    }
  }

  lemma LabelsRead(s: string, pre: string, build: string)
    requires IsLabels(s, pre, build) && BuildPart(build)
    ensures PreReleasePart(s)
  {
    if pre == "" {
      assert s == build;
    } else {
      assert s[1..] == pre[1..] + build;
      BuildStarts(build);
      LabelIsIdentifier(pre, '-');
      IdentifierRunIs(pre[1..], build);
      assert s[|pre|..] == build;
    }
  }

  lemma BuildStarts(build: string)
    requires IsLabel(build, '+')
    ensures build == "" || !IdentifierChar(build[0])
  {
  }

  lemma LabelIsIdentifier(s: string, mark: char)
    requires IsLabel(s, mark) && s != ""
    ensures forall i :: 0 <= i < |s[1..]| ==> IdentifierChar(s[1..][i])
  {
    forall i | 0 <= i < |s[1..]| ensures IdentifierChar(s[1..][i]) {
      assert IsLabelChar(s[i + 1]);
    }
  }

  /** A number, then something that does not start with a digit. */
  lemma NumberFirst(number: string, rest: string)
    requires IsNumber(number) && (rest == "" || !IsDigit(rest[0]))
    ensures DigitRun(number + rest) == |number| && (number + rest)[|number|..] == rest
  {
    DigitRunIs(number, rest);
  }

  lemma RunIsNumber(s: string)
    requires DigitRun(s) > 0
    ensures IsNumber(s[..DigitRun(s)]) && s == s[..DigitRun(s)] + s[DigitRun(s)..]
  {
  }

  lemma LabelsStart(s: string, pre: string, build: string)
    requires IsLabels(s, pre, build)
    ensures s == "" || !IsDigit(s[0])
  {
  }

  /** The valid versions are exactly those the semantic versioning grammar spells. */
  lemma VersionsAreSemver(s: string)
    ensures ValidSemver(s) <==> exists major, minor, patch, pre, build :: IsVersion(s, major, minor, patch, pre, build)
  {
    hide IsNumber, IsLabel, DigitRun, PreReleasePart;
    if ValidSemver(s) {
      var pre, build, major, minor, patch := VersionParts(s);
    }
    if major, minor, patch, pre, build :| IsVersion(s, major, minor, patch, pre, build) {
      VersionReads(s, major, minor, patch, pre, build);
    }
  }

  lemma VersionParts(s: string) returns (pre: string, build: string, major: string, minor: string, patch: string)
    requires ValidSemver(s)
    ensures IsVersion(s, major, minor, patch, pre, build)
  {
    hide IsNumber, IsLabel, DigitRun, PreReleasePart;
    var s1, s2;
    major, s1 := NumberAndDot(s, 2);
    minor, s2 := NumberAndDot(s1, 1);
    RunIsNumber(s2);
    patch := s2[..DigitRun(s2)];
    var s3 := s2[DigitRun(s2)..];
    PreReleaseIs(s3);
    pre, build :| IsLabels(s3, pre, build);
    Assembled(major, minor, patch, pre, build);
  }

  lemma NumberAndDot(s: string, dots: nat) returns (number: string, rest: string)
    requires dots > 0 && DottedNumbers(s, dots)
    ensures IsNumber(number) && s == number + "." + rest && DottedNumbers(rest, dots - 1)
  {
    hide IsNumber, DigitRun, PreReleasePart;
    var n := DigitRun(s);
    RunIsNumber(s);
    number, rest := s[..n], s[n + 1..];
    assert s[n..] == "." + rest;
  }

  lemma Assembled(a: string, b: string, c: string, d: string, e: string)
    ensures a + "." + (b + "." + (c + (d + e))) == a + "." + b + "." + c + d + e
  {
  }

  lemma VersionReads(s: string, major: string, minor: string, patch: string, pre: string, build: string)
    requires IsVersion(s, major, minor, patch, pre, build)
    ensures ValidSemver(s)
  {
    hide IsNumber, IsLabel, DigitRun, PreReleasePart;
    var s3 := pre + build;
    var s2 := patch + s3;
    var s1 := minor + ("." + s2);
    Assembled(major, minor, patch, pre, build);
    assert s == major + ("." + s1);
    assert IsLabels(s3, pre, build);
    PreReleaseIs(s3);
    LabelsStart(s3, pre, build);
    NumberFirst(patch, s3);
    NumberFirst(minor, "." + s2);
    NumberFirst(major, "." + s1);
    NotEmpty(patch);
    NotEmpty(minor);
    NotEmpty(major);
    assert DottedNumbers(s2, 0);
    assert s1[|minor| + 1..] == s2;
    assert DottedNumbers(s1, 1);
    assert s[|major| + 1..] == s1;
  }

  lemma NotEmpty(s: string)
    requires IsNumber(s)
    ensures |s| > 0
  {
  }

  // ---- Sections and their keys ----

  predicate NamesSection(name: string, section: Section) {
    match section
    case PackageSection => name == "package"
    case CompatibilitySection => name == "compatibility"
    case DependencySection => name == "dependencies"
    case DevSection => name == "dev-dependencies"
    case OtherSection => name !in {"package", "compatibility", "dependencies", "dev-dependencies"}
    case RootSection => false
  }

  /** A header opens the section of its name, with or without white space inside the brackets. */
  lemma HeaderOpens(st: ParseState, gap: string, name: string, gap': string, section: Section)
    requires AllBlank(gap) && AllBlank(gap') && Tight(name) && PlainFor(name, '#') && NamesSection(name, section)
    requires name[0] != '[' || name[|name| - 1] != ']' || gap != "" || gap' != ""
    ensures Step(st, StatementOf("[" + gap + name + gap' + "]")) == Ok(st.(section := section))
  {
    hide AllBlank, StatementOf, Trimmed;
    var line := "[" + gap + name + gap' + "]";
    assert line == "[" + (gap + name + gap') + "]";
    HeaderLineIsPlain(gap, name, gap');
    HeaderLine(line);
    TrimBetween(gap, name, gap');
    TightStays(name);
    assert line[1..|line| - 1] == gap + name + gap';
    NoDoubleBrackets(gap, name, gap');
    hide PlainFor;
  }

  lemma HeaderLineIsPlain(gap: string, name: string, gap': string)
    requires AllBlank(gap) && AllBlank(gap') && PlainFor(name, '#')
    ensures var line := "[" + gap + name + gap' + "]"; PlainFor(line, '#') && Tight(line) && line[0] == '['
  {
  }

  lemma NoDoubleBrackets(gap: string, name: string, gap': string)
    requires AllBlank(gap) && AllBlank(gap') && Tight(name)
    requires name[0] != '[' || name[|name| - 1] != ']' || gap != "" || gap' != ""
    ensures var line := "[" + gap + name + gap' + "]"; line[1] != '[' || line[|line| - 2] != ']'
  {
    var line := "[" + gap + name + gap' + "]";
    assert line[1] == if gap == "" then name[0] else gap[0];
    assert line[|line| - 2] == if gap' == "" then name[|name| - 1] else gap'[|gap'| - 1];
  }

  /** Empty brackets open a section without a name, which is passed over. */
  lemma EmptyHeaderOpens(st: ParseState, gap: string)
    requires AllBlank(gap)
    ensures Step(st, StatementOf("[" + gap + "]")) == Ok(st.(section := OtherSection))
  {
    hide StatementOf, Trimmed;
    var line := "[" + gap + "]";
    EmptyHeaderIsPlain(gap);
    HeaderLine(line);
    NothingIsBlank();
    TrimBetween(gap, "", "");
    assert gap + "" + "" == gap && line[1..|line| - 1] == gap;
    TrimmedAway();
  }

  lemma EmptyHeaderIsPlain(gap: string)
    requires AllBlank(gap)
    ensures var line := "[" + gap + "]"; PlainFor(line, '#') && Tight(line) && line[0] == '[' && line[1] != '['
  {
  }

  lemma TrimmedAway()
    ensures Trimmed("") == ""
  {
  }

  /** A table of a TOML array is refused, and so is a header without its bracket. */
  lemma HeaderFails(st: ParseState, text: string)
    requires PlainFor(text, '#')
    ensures Step(st, StatementOf("[[" + text + "]]")) == Err(UnsupportedValue)
    ensures text != "" && !IsSpace(text[|text| - 1]) && text[|text| - 1] != ']' ==>
      Step(st, StatementOf("[" + text)) == Err(ParseError)
  {
    hide StatementOf, Trimmed;
    HeaderLine("[[" + text + "]]");
    if text != "" && !IsSpace(text[|text| - 1]) && text[|text| - 1] != ']' {
      HeaderLine("[" + text);
    }
  }

  predicate KnowsKey(section: Section, key: string) {
    match section
    case PackageSection => key == "name" || key == "version" || key == "license"
    case CompatibilitySection => key == "eta"
    case DependencySection => true
    case DevSection => true
    case _ => false
  }

  /** A key that its section does not know is passed over, whatever its value. */
  lemma UnknownKeyIsSkipped(st: ParseState, key: string, value: string)
    requires !KnowsKey(st.section, key)
    ensures Step(st, Assign(key, value)) == Ok(st)
  {
  }

  /** A known key of a section other than the dependencies needs a quoted string. */
  lemma KnownKeyNeedsString(st: ParseState, key: string, value: string)
    requires KnowsKey(st.section, key) && !st.section.DependencySection? && !st.section.DevSection?
    requires Unquote(value).None?
    ensures Step(st, Assign(key, value)) == Err(ParseError)
  {
  }

  /** A dependency needs a valid name, used in neither section before, and then a table. */
  lemma DependencyLineFails(st: ParseState, key: string, value: string)
    requires st.section.DependencySection? || st.section.DevSection?
    ensures !ValidPackageName(key) ==> Step(st, Assign(key, value)) == Err(InvalidValue)
    ensures ValidPackageName(key) && key in st.names + st.devNames ==> Step(st, Assign(key, value)) == Err(ParseError)
    ensures ValidPackageName(key) && key !in st.names + st.devNames && InlineTable(key, value).Err? ==>
      Step(st, Assign(key, value)) == Err(InlineTable(key, value).error)
  {
    hide ValidPackageName, InlineTable;
  }

  /** A line without an assignment, or without a key, is an error in every section. */
  lemma NoAssignmentFails(st: ParseState, key: string, value: string)
    requires Tight(key) && key[0] != '[' && PlainFor(key, '#') && PlainFor(key, '=')
    requires value == "" || (Passes(value) && !IsSpace(value[|value| - 1]))
    ensures Step(st, StatementOf(key)) == Err(ParseError)
    ensures Step(st, StatementOf("=" + value)) == Err(ParseError)
  {
    BareLine(key);
    KeylessLine(value);
    hide StatementOf;
  }

  lemma BareLine(key: string)
    requires Tight(key) && key[0] != '[' && PlainFor(key, '#') && PlainFor(key, '=')
    ensures StatementOf(key) == NoAssignment
  {
    FindPastPlain(key, "", '#');
    FindPastPlain(key, "", '=');
    assert key[..|key|] == key;
    TightStays(key);
  }

  lemma KeylessLine(value: string)
    requires value == "" || (Passes(value) && !IsSpace(value[|value| - 1]))
    ensures StatementOf("=" + value) == EmptyKey
  {
    var line := "=" + value;
    NothingPasses();
    FindPastPlain("=", value, '#');
    assert line[..|line|] == line;
    TightStays(line);
    assert Find(Outside, line, '=') == 0;
    assert line[..0] == "";
  }

  // ---- Character classes ----

  predicate IsLetterOrDigit(c: char) {
    '0' <= c <= '9' || 'A' <= c <= 'Z' || 'a' <= c <= 'z'
  }

  /** A package name: a small letter, then at most 63 small letters, digits, underscores and dashes. */
  lemma PackageNamesAre(s: string)
    ensures ValidPackageName(s) <==>
      && s != "" && 'a' <= s[0] <= 'z' && |s[1..]| <= 63
      && forall i :: 0 <= i < |s[1..]| ==> 'a' <= s[1..][i] <= 'z' || '0' <= s[1..][i] <= '9' || s[1..][i] in {'_', '-'}
  {
    if s != "" {
      assert forall i :: 1 <= i < |s| ==> s[i] == s[1..][i - 1];
      assert forall i :: 0 <= i < |s[1..]| ==> s[1..][i] == s[i + 1];
    }
  }

  /** Besides letters and digits: what licences, version ranges and package names may contain. */
  lemma ClassesAre(c: char)
    ensures SpdxChar(c) <==> IsLetterOrDigit(c) || c in {' ', '-', '.', '+', '(', ')', ':'}
    ensures RangeChar(c) <==> IsLetterOrDigit(c) || c in {' ', ',', '.', '-', '+', '<', '>', '=', '^', '~', '*'}
    ensures NameChar(c) <==> c in {'_', '-'} || (IsLetterOrDigit(c) && !('A' <= c <= 'Z'))
    ensures IsHexDigit(c) <==> IsLetterOrDigit(c) && !('g' <= c <= 'z') && !('G' <= c <= 'Z')
  {
  }
}
