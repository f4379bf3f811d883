/** Reading back a written lockfile: exactly the well-formed lockfiles survive. */
module LockfileRoundTrip {
  import opened Wrappers
  import opened Sorting
  import opened TomlText
  import opened Lockfiles

  predicate WellFormedDependency(d: LockedDependency) {
    d.name != "" && '@' !in d.name && Semverish(d.version)
  }

  predicate WellFormedPackage(p: LockfilePackage) {
    && p.name != "" && p.source != "" && Semverish(p.version)
    && forall i :: 0 <= i < |p.dependencies| ==> WellFormedDependency(p.dependencies[i])
  }

  predicate WellFormed(ps: seq<LockfilePackage>) {
    forall i :: 0 <= i < |ps| ==> WellFormedPackage(ps[i])
  }

  /**
   Writing packages and parsing the text gives them back, in the order written, exactly when they
   are well-formed: no string needs to avoid any character, except '@' in dependency names.
   */
  lemma RoundTrip(ps: seq<LockfilePackage>)
    ensures Parse(Render(ps)) == Ok(Lockfile(1, ps)) <==> WellFormed(ps)
  {
    if WellFormed(ps) {
      WrittenReadsBack(ps);
    }
    if Parse(Render(ps)) == Ok(Lockfile(1, ps)) {
      ParsedIsWellFormed(Render(ps));
    }
  }

  /** The packages are listed, and their dependencies are listed, in writing order. */
  ghost predicate InOrder(ps: seq<LockfilePackage>) {
    && Sorted(ps, PackageBefore)
    && forall i :: 0 <= i < |ps| ==> Sorted(ps[i].dependencies, DependencyBefore)
  }

  ghost predicate DistinctRows(ps: seq<LockfilePackage>) {
    forall i, j :: 0 <= i < |ps| && 0 <= j < |ps| && i != j ==>
      ps[i].name != ps[j].name || ps[i].version != ps[j].version || ps[i].source != ps[j].source
  }

  lemma WrittenIsInOrder(xs: seq<LockfilePackage>, ys: seq<LockfilePackage>)
    requires WritingOrder(xs, ys)
    ensures InOrder(ys)
  {
    var ps: seq<LockfilePackage> :| SortedPermutation(xs, ps, PackageBefore) && SortedRows(ps, ys);
    hide DependencyBefore;
    forall i, j | 0 <= i < j < |ys| ensures !PackageBefore(ys[j], ys[i]) {
      assert SortedRow(ps[i], ys[i]) && SortedRow(ps[j], ys[j]);
      assert !PackageBefore(ps[j], ps[i]);
    }
    hide PackageBefore;
    forall i | 0 <= i < |ys| ensures Sorted(ys[i].dependencies, DependencyBefore) {
      assert SortedRow(ps[i], ys[i]);
    }
  }

  /** Packages already in order, no two rows alike, are written as they stand. */
  lemma InOrderIsWrittenAsIs(xs: seq<LockfilePackage>, ys: seq<LockfilePackage>)
    requires InOrder(xs) && DistinctRows(xs) && WritingOrder(xs, ys)
    ensures ys == xs
  {
    var ps: seq<LockfilePackage> :| SortedPermutation(xs, ps, PackageBefore) && SortedRows(ps, ys);
    OrdersAreWeak();
    RowsDoNotTie(xs);
    SortedStays(xs, ps, PackageBefore);
    forall i | 0 <= i < |xs| ensures ys[i] == xs[i] {
      assert SortedRow(ps[i], ys[i]);
      DependenciesDoNotTie(ps[i].dependencies);
      SortedStays(ps[i].dependencies, ys[i].dependencies, DependencyBefore);
    }
  }

  lemma RowsDoNotTie(ps: seq<LockfilePackage>)
    requires DistinctRows(ps)
    ensures NoTies(ps, PackageBefore)
  {
    LessIsTotalOrder();
  }

  lemma DependenciesDoNotTie(ds: seq<LockedDependency>)
    ensures NoTies(ds, DependencyBefore)
  {
    LessIsTotalOrder();
  }

  /** Writing is stable: a written file, read and written again, is the same text. */
  lemma SecondWriteIsTheSame(xs: seq<LockfilePackage>, ys: seq<LockfilePackage>, zs: seq<LockfilePackage>)
    requires WellFormed(ys) && DistinctRows(ys)
    requires WritingOrder(xs, ys)
    requires Parse(Render(ys)).Ok? && WritingOrder(Parse(Render(ys)).value.packages, zs)
    ensures Render(zs) == Render(ys)
  {
    WrittenReadsBack(ys);
    WrittenIsInOrder(xs, ys);
    InOrderIsWrittenAsIs(ys, zs);
  }

  /** Sorting neither makes nor breaks well-formedness, so the condition can be checked before writing. */
  lemma WritingKeepsWellFormedness(xs: seq<LockfilePackage>, ys: seq<LockfilePackage>)
    requires WritingOrder(xs, ys)
    ensures WellFormed(ys) <==> WellFormed(xs)
  {
    var ps: seq<LockfilePackage> :| SortedPermutation(xs, ps, PackageBefore) && SortedRows(ps, ys);
    SameElements(xs, ps);
    hide WellFormedPackage;
    assert WellFormed(xs) <==> forall p :: p in xs ==> WellFormedPackage(p);
    assert WellFormed(ps) <==> forall p :: p in ps ==> WellFormedPackage(p);
    forall i | 0 <= i < |ps| ensures WellFormedPackage(ys[i]) <==> WellFormedPackage(ps[i]) {
      SortedRowKeepsWellFormedness(ps[i], ys[i]);
    }
  }

  lemma SortedRowKeepsWellFormedness(p: LockfilePackage, y: LockfilePackage)
    requires SortedRow(p, y)
    ensures WellFormedPackage(y) <==> WellFormedPackage(p)
  {
    hide WellFormedDependency, Semverish;
    SameElements(p.dependencies, y.dependencies);
    AllWellFormed(p.dependencies);
    AllWellFormed(y.dependencies);
  }

  lemma AllWellFormed(ds: seq<LockedDependency>)
    ensures (forall i :: 0 <= i < |ds| ==> WellFormedDependency(ds[i])) <==> forall d :: d in ds ==> WellFormedDependency(d)
  {
    hide WellFormedDependency;
  }

  // ---- What is read is well-formed ----

  /** Every lockfile the parser accepts, from any text, is well-formed. */
  lemma ParsedIsWellFormed(text: string)
    requires Parse(text).Ok?
    ensures Parse(text).value.schemaVersion == 1
    ensures WellFormed(Parse(text).value.packages)
  {
    var st := Steps(START, Lines(text), 0).value;
    StepsKeepNamesSplit(START, Lines(text), 0);
    NoErrorIsValid(st.lockfile.packages);
  }

  ghost predicate NamesSplit(ps: seq<LockfilePackage>) {
    forall i, j :: 0 <= i < |ps| && 0 <= j < |ps[i].dependencies| ==> '@' !in ps[i].dependencies[j].name
  }

  lemma {:induction false} EntriesSplit(body: string)
    requires Entries(body).Some?
    ensures forall j :: 0 <= j < |Entries(body).value| ==> '@' !in Entries(body).value[j].name
    decreases |body|
  {
    if body != "" {
      var next := Find(Outside, body, ',');
      if next < |body| {
        EntriesSplit(body[next + 1..]);
      }
    }
  }

  lemma {:induction false} StepsKeepNamesSplit(st: ParseState, lines: seq<string>, line: nat)
    requires st.Valid() && NamesSplit(st.lockfile.packages)
    requires Steps(st, lines, line).Ok?
    ensures NamesSplit(Steps(st, lines, line).value.lockfile.packages)
    decreases |lines|
  {
    if lines != [] {
      var st' := Step(st, StatementOf(lines[0]), line + 1).value;
      StepKeepsNamesSplit(st, StatementOf(lines[0]), line + 1);
      StepsKeepNamesSplit(st', lines[1..], line + 1);
    }
  }

  lemma StepKeepsNamesSplit(st: ParseState, s: Statement, line: nat)
    requires st.Valid() && NamesSplit(st.lockfile.packages)
    requires Step(st, s, line).Ok?
    ensures NamesSplit(Step(st, s, line).value.lockfile.packages)
  {
    if s.Assign? && st.section.Package? && s.key == "dependencies" {
      var text := Trimmed(s.value);
      EntriesSplit(text[1..|text| - 1]);
    }
  }

  lemma {:induction false} NoErrorIsValid(ps: seq<LockfilePackage>)
    requires FirstError(ps).None? && NamesSplit(ps)
    ensures WellFormed(ps)
  {
    if ps != [] {
      assert PackageError(ps[0]).None?;
      assert NamesSplit(ps[1..]);
      NoErrorIsValid(ps[1..]);
      forall i | 0 <= i < |ps| ensures WellFormedPackage(ps[i]) {
        if i == 0 {
          forall j | 0 <= j < |ps[0].dependencies| ensures WellFormedDependency(ps[0].dependencies[j]) {
            assert ValidDependency(ps[0].dependencies[j]);
          }
        } else {
          assert ps[i] == ps[1..][i - 1];
        }
      }
    }
  }

  // ---- What is written is read ----

  lemma {:induction false} EntriesReadBack(ds: seq<LockedDependency>)
    requires forall i :: 0 <= i < |ds| ==> WellFormedDependency(ds[i])
    ensures Entries(EntriesText(ds)) == Some(ds)
  {
    if ds != [] {
      var q := EntryText(ds[0]);
      EntryReadsBack(ds[0]);
      EntryScans(ds[0], ',');
      hide Find, EntryText, WellFormedDependency, DependencyOf, Trimmed;
      assert ds == [ds[0]] + ds[1..];
      if |ds| == 1 {
        assert q[..|q|] == q && [ds[0]] + [] == [ds[0]];
      } else {
        EntriesReadBack(ds[1..]);
        EntriesText2(q, EntriesText(ds[1..]));
        EntriesAfterSpace(EntriesText(ds[1..]));
        hide Entries;
      }
    }
  }

  lemma EntryScans(d: LockedDependency, needle: char)
    ensures Find(Outside, EntryText(d), needle) == |EntryText(d)| && Run(Outside, EntryText(d)) == Outside
    ensures OneLine(EntryText(d))
  {
    QuotedFacts(d.name + "@" + d.version, needle);
  }

  lemma {:induction false} EntriesScan(ds: seq<LockedDependency>)
    ensures Find(Outside, EntriesText(ds), '#') == |EntriesText(ds)| && Run(Outside, EntriesText(ds)) == Outside
    ensures OneLine(EntriesText(ds))
  {
    if ds != [] {
      var q := EntryText(ds[0]);
      EntryScans(ds[0], '#');
      hide EntryText;
      if |ds| > 1 {
        var rest := EntriesText(ds[1..]);
        EntriesScan(ds[1..]);
        assert q + ", " + rest == q + (", " + rest);
        FindPast(Outside, q, ", " + rest, '#');
        FindPastPlain(", ", rest, '#');
        FindPast(Outside, ", ", rest, '#');
      }
    }
  }

  lemma EntryReadsBack(d: LockedDependency)
    requires WellFormedDependency(d)
    ensures DependencyOf(EntryText(d)) == Some(d)
    ensures Trimmed(EntryText(d)) == EntryText(d) != ""
  {
    var s := d.name + "@" + d.version;
    QuotedFacts(s, ',');
    TrimSpacesAround(Quoted(s));
    IndexOfFirst(d.name, '@', d.version);
    assert s[..|d.name|] == d.name && s[|d.name| + 1..] == d.version;
  }

  lemma {:induction false} IndexOfFirst(a: string, c: char, b: string)
    requires c !in a
    ensures IndexOf(a + [c] + b, c) == |a|
  {
    if a != "" {
      assert (a + [c] + b)[1..] == a[1..] + [c] + b;
      IndexOfFirst(a[1..], c, b);
    }
  }

  /** An entry, a comma, a space and further entries. */
  lemma EntriesText2(q: string, rest: string)
    requires Find(Outside, q, ',') == |q| && Run(Outside, q) == Outside
    requires q != "" && Trimmed(q) == q
    ensures Entries(q + ", " + rest) == ConsDependency(q, Entries(" " + rest))
  {
    var body := q + ", " + rest;
    assert body == q + (", " + rest);
    FindPast(Outside, q, ", " + rest, ',');
    assert body[..|q|] == q && body[|q| + 1..] == " " + rest;
  }

  lemma EntriesAfterSpace(rest: string)
    ensures Entries(" " + rest) == Entries(rest)
  {
    var body := " " + rest;
    assert body[1..] == rest;
    if rest == "" {
      assert Find(Outside, body, ',') == 1 && body[..1] == " " && " "[1..] == "";
    } else {
      var next := Find(Outside, rest, ',');
      assert Find(Outside, body, ',') == next + 1;
      assert body[..next + 1] == " " + rest[..next];
      TrimSpaceBefore(rest[..next]);
      assert next < |rest| ==> body[next + 2..] == rest[next + 1..];
    }
  }

  lemma ListReadsBack(ds: seq<LockedDependency>)
    requires forall i :: 0 <= i < |ds| ==> WellFormedDependency(ds[i])
    ensures DependencyList(" " + ("[" + EntriesText(ds) + "]")) == Some(ds)
  {
    EntriesReadBack(ds);
    hide Entries;
    BracketsTrim(EntriesText(ds));
  }

  lemma BracketsTrim(entries: string)
    ensures var text := "[" + entries + "]";
      Trimmed(" " + text) == text && text[1..|text| - 1] == entries && Tight(text)
  {
    TrimSpacesAround("[" + entries + "]");
  }

  lemma ListScans(ds: seq<LockedDependency>)
    ensures var text := "[" + EntriesText(ds) + "]";
      Tight(text) && Find(Outside, text, '#') == |text| && OneLine(text)
  {
    var entries := EntriesText(ds);
    EntriesScan(ds);
    hide EntriesText;
    assert "[" + entries + "]" == "[" + (entries + "]");
    FindPastPlain("[", entries + "]", '#');
    FindPast(Outside, entries, "]", '#');
  }

  lemma {:induction false} StepsConcat(st: ParseState, a: seq<string>, b: seq<string>, line: nat)
    requires st.Valid()
    ensures Steps(st, a + b, line) ==
      match Steps(st, a, line)
      case Ok(st') => Steps(st', b, line + |a|)
      case Err(e) => Err(e)
    decreases |a|
  {
    hide Step, StatementOf;
    if a == [] {
      assert a + b == b;
    } else {
      assert (a + b)[0] == a[0] && (a + b)[1..] == a[1..] + b;
      match Step(st, StatementOf(a[0]), line + 1)
      case Ok(st') => StepsConcat(st', a[1..], b, line + 1);
      case Err(_) =>
    }
  }

  /** A state that has just read the given package last. */
  function Reading(before: seq<LockfilePackage>, p: LockfilePackage): ParseState {
    ParseState(Lockfile(1, before + [p]), Package)
  }

  lemma KeysArePlain()
    ensures PlainKey("name") && PlainKey("version") && PlainKey("source") && PlainKey("dependencies")
  {
  }

  /** Assigning a field of the package being read replaces it. */
  lemma FieldStep(before: seq<LockfilePackage>, p: LockfilePackage, key: string, value: string, p': LockfilePackage, line: nat)
    requires Field(key, value, p) == Some(p')
    ensures Step(Reading(before, p), Assign(key, value), line) == Ok(Reading(before, p'))
  {
    var st := Reading(before, p);
    hide Field;
    assert st.Last() == p;
    assert (before + [p])[|before| := p'] == before + [p'];
  }

  lemma QuotedFieldStep(before: seq<LockfilePackage>, p: LockfilePackage, key: string, v: string, p': LockfilePackage, line: nat)
    requires PlainKey(key) && OneLine(key)
    requires forall value :: Unquote(value) == Some(v) ==> Field(key, value, p) == Some(p')
    ensures Step(Reading(before, p), StatementOf(AssignmentText(key, Quoted(v))), line) == Ok(Reading(before, p'))
    ensures OneLine(AssignmentText(key, Quoted(v)))
  {
    QuotedFacts(v, '#');
    AssignmentLine(key, Quoted(v));
    hide StatementOf, Unquote, Quoted, Field, Step, Reading, PlainKey;
    FieldStep(before, p, key, " " + Quoted(v), p', line);
  }

  lemma DependenciesStep(before: seq<LockfilePackage>, p: LockfilePackage, ds: seq<LockedDependency>, line: nat)
    requires forall i :: 0 <= i < |ds| ==> WellFormedDependency(ds[i])
    ensures var text := AssignmentText("dependencies", "[" + EntriesText(ds) + "]");
      && Step(Reading(before, p), StatementOf(text), line) == Ok(Reading(before, p.(dependencies := ds)))
      && OneLine(text)
  {
    var text := "[" + EntriesText(ds) + "]";
    hide StatementOf, EntriesText, DependencyList, Find, Step, Reading, PlainKey;
    ListReadsBack(ds);
    ListScans(ds);
    KeysArePlain();
    AssignmentLine("dependencies", text);
    FieldStep(before, p, "dependencies", " " + text, p.(dependencies := ds), line);
  }

  lemma SectionLines()
    ensures StatementOf("") == Blank
    ensures StatementOf("[[package]]") == Header("[[package]]")
  {
    hide StatementOf;
    HeaderLine("[[package]]");
    BlankLine();
  }

  lemma BlankLine()
    ensures StatementOf("") == Blank
  {
  }

  lemma OpeningSteps(st: ParseState, line: nat)
    requires st.Valid() && st.lockfile.schemaVersion == 1
    ensures Step(st, StatementOf(""), line) == Ok(st)
    ensures Step(st, StatementOf("[[package]]"), line)
      == Ok(Reading(st.lockfile.packages, LockfilePackage("", "", "", [])))
  {
    hide StatementOf;
    SectionLines();
  }

  /** The package's fields in the order they are written. */
  function Filled(p: LockfilePackage, n: nat): LockfilePackage {
    LockfilePackage(
      if n >= 1 then p.name else "", if n >= 2 then p.version else "",
      if n >= 3 then p.source else "", if n >= 4 then p.dependencies else [])
  }

  lemma FieldSteps(before: seq<LockfilePackage>, p: LockfilePackage, line: nat)
    requires WellFormedPackage(p)
    ensures Step(Reading(before, Filled(p, 0)), StatementOf(PackageLines(p)[2]), line) == Ok(Reading(before, Filled(p, 1)))
    ensures Step(Reading(before, Filled(p, 1)), StatementOf(PackageLines(p)[3]), line + 1) == Ok(Reading(before, Filled(p, 2)))
    ensures Step(Reading(before, Filled(p, 2)), StatementOf(PackageLines(p)[4]), line + 2) == Ok(Reading(before, Filled(p, 3)))
    ensures Step(Reading(before, Filled(p, 3)), StatementOf(PackageLines(p)[5]), line + 3) == Ok(Reading(before, p))
    ensures forall i :: 0 <= i < |PackageLines(p)| ==> OneLine(PackageLines(p)[i])
  {
    hide StatementOf, Unquote, Quoted, PlainKey, Step, Reading, DependencyList, EntriesText, AssignmentText;
    KeysArePlain();
    QuotedFieldStep(before, Filled(p, 0), "name", p.name, Filled(p, 1), line);
    QuotedFieldStep(before, Filled(p, 1), "version", p.version, Filled(p, 2), line + 1);
    QuotedFieldStep(before, Filled(p, 2), "source", p.source, Filled(p, 3), line + 2);
    DependenciesStep(before, Filled(p, 3), p.dependencies, line + 3);
    assert Filled(p, 4) == p;
  }

  lemma PackageReadsBack(st: ParseState, p: LockfilePackage, line: nat)
    requires st.Valid() && st.lockfile.schemaVersion == 1 && WellFormedPackage(p)
    ensures Steps(st, PackageLines(p), line) == Ok(Reading(st.lockfile.packages, p))
  {
    var l := PackageLines(p);
    var before := st.lockfile.packages;
    OpeningSteps(st, line + 1);
    OpeningSteps(st, line + 2);
    FieldSteps(before, p, line + 3);
    hide StatementOf, Step, WellFormedPackage;
    SixSteps(st, l, Reading(before, Filled(p, 0)), Reading(before, Filled(p, 1)), Reading(before, Filled(p, 2)),
             Reading(before, Filled(p, 3)), Reading(before, p), line);
  }

  lemma SixSteps(st: ParseState, l: seq<string>, s2: ParseState, s3: ParseState, s4: ParseState, s5: ParseState, s6: ParseState, line: nat)
    requires |l| == 6 && st.Valid() && s2.Valid() && s3.Valid() && s4.Valid() && s5.Valid() && s6.Valid()
    requires Step(st, StatementOf(l[0]), line + 1) == Ok(st) && Step(st, StatementOf(l[1]), line + 2) == Ok(s2)
    requires Step(s2, StatementOf(l[2]), line + 3) == Ok(s3) && Step(s3, StatementOf(l[3]), line + 4) == Ok(s4)
    requires Step(s4, StatementOf(l[4]), line + 5) == Ok(s5) && Step(s5, StatementOf(l[5]), line + 6) == Ok(s6)
    ensures Steps(st, l, line) == Ok(s6)
  {
    hide StatementOf, Step;
    TwoSteps(st, l[0], l[1], line);
    TwoSteps(s2, l[2], l[3], line + 2);
    TwoSteps(s4, l[4], l[5], line + 4);
    StepsConcat(st, [l[0], l[1]], [l[2], l[3], l[4], l[5]], line);
    StepsConcat(s2, [l[2], l[3]], [l[4], l[5]], line + 2);
    assert [l[2], l[3]] + [l[4], l[5]] == [l[2], l[3], l[4], l[5]];
    assert l == [l[0], l[1]] + [l[2], l[3], l[4], l[5]];
  }

  lemma TwoSteps(st: ParseState, a: string, b: string, line: nat)
    requires st.Valid() && Step(st, StatementOf(a), line + 1).Ok?
    requires Step(Step(st, StatementOf(a), line + 1).value, StatementOf(b), line + 2).Ok?
    ensures Steps(st, [a, b], line) == Step(Step(st, StatementOf(a), line + 1).value, StatementOf(b), line + 2)
  {
    hide StatementOf, Step;
    var st' := Step(st, StatementOf(a), line + 1).value;
    assert [a, b][1..] == [b] && [b][1..] == [];
    assert Steps(st', [b], line + 1) == Step(st', StatementOf(b), line + 2);
  }

  lemma {:induction false} PackagesReadBack(st: ParseState, ps: seq<LockfilePackage>, line: nat)
    requires st.Valid() && st.lockfile.schemaVersion == 1 && WellFormed(ps)
    ensures var r := Steps(st, AllPackageLines(ps), line);
      r.Ok? && r.value.lockfile == Lockfile(1, st.lockfile.packages + ps)
    decreases |ps|
  {
    hide PackageLines, WellFormedPackage, Step, StatementOf;
    if ps == [] {
      assert st.lockfile.packages + ps == st.lockfile.packages;
    } else {
      assert WellFormed(ps[1..]) && WellFormedPackage(ps[0]);
      PackageReadsBack(st, ps[0], line);
      SixLines(ps[0]);
      hide Steps;
      PackagesReadBack(Reading(st.lockfile.packages, ps[0]), ps[1..], line + 6);
      StepsConcat(st, PackageLines(ps[0]), AllPackageLines(ps[1..]), line);
      assert st.lockfile.packages + [ps[0]] + ps[1..] == st.lockfile.packages + ps;
    }
  }

  lemma SixLines(p: LockfilePackage)
    ensures |PackageLines(p)| == 6
  {
  }

  lemma HeaderReads()
    ensures Steps(START, HEADER, 0) == Ok(START)
    ensures forall i :: 0 <= i < |HEADER| ==> OneLine(HEADER[i])
  {
    CommentLine();
    VersionLine();
    hide StatementOf, IntegerOf;
    TwoSteps(START, HEADER[0], HEADER[1], 0);
  }

  lemma CommentLine()
    ensures StatementOf(HEADER[0]) == Blank
  {
    assert Find(Outside, HEADER[0], '#') == 0;
    assert WithoutComment(HEADER[0]) == "";
  }

  lemma VersionLine()
    ensures StatementOf(HEADER[1]) == Assign("version", " 1") && IntegerOf(" 1") == Some(1)
  {
    hide StatementOf, IntegerOf, PlainKey, Find;
    KeysArePlain();
    OneIsOne();
    AssignmentLine("version", "1");
    assert AssignmentText("version", "1") == HEADER[1];
  }

  lemma OneIsOne()
    ensures Tight("1") && Find(Outside, "1", '#') == 1 && IntegerOf(" 1") == Some(1)
  {
    assert "1"[1..] == "";
    TrimSpacesAround("1");
    assert "1"[..0] == "" && DigitValue("1") == 1;
  }

  lemma {:induction false} NoNewlines(ps: seq<LockfilePackage>)
    requires WellFormed(ps)
    ensures forall i :: 0 <= i < |AllPackageLines(ps)| ==> OneLine(AllPackageLines(ps)[i])
  {
    if ps != [] {
      FieldSteps([], ps[0], 0);
      NoNewlines(ps[1..]);
      hide PackageLines, WellFormedPackage;
    }
  }

  lemma {:induction false} NoErrors(ps: seq<LockfilePackage>)
    requires WellFormed(ps)
    ensures FirstError(ps).None?
  {
    if ps != [] {
      assert WellFormedPackage(ps[0]);
      NoErrors(ps[1..]);
    }
  }

  lemma WrittenReadsBack(ps: seq<LockfilePackage>)
    requires WellFormed(ps)
    ensures Parse(Render(ps)) == Ok(Lockfile(1, ps))
  {
    var lines := HEADER + AllPackageLines(ps);
    HeaderReads();
    NoNewlines(ps);
    LinesOfAssembled(lines);
    StepsConcat(START, HEADER, AllPackageLines(ps), 0);
    PackagesReadBack(START, ps, |HEADER|);
    assert [] + ps == ps;
    NoErrors(ps);
  }
}
