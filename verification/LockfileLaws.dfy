/**
 What a lockfile may say, clause by clause: dependency lists with any spacing, the keys each
 section knows, and the faults of a package (eta/core/src/eta/package/lockfile.cpp).
 */
module LockfileLaws {
  import opened Wrappers
  import opened TomlText
  import opened Lockfiles
  import opened LockfileRoundTrip
  import opened Comments

  // ---- Dependency lists ----

  /** A quoted entry with white space around it, or white space only. */
  datatype Entry = Space(blank: string) | Named(before: string, value: string, after: string)

  predicate IsEntry(e: Entry) {
    match e
    case Space(blank) => AllBlank(blank)
    case Named(before, _, after) => AllBlank(before) && AllBlank(after)
  }

  predicate AreEntries(es: seq<Entry>) {
    forall i :: 0 <= i < |es| ==> IsEntry(es[i])
  }

  function TextOf(e: Entry): string {
    match e
    case Space(blank) => blank
    case Named(before, value, after) => before + Quoted(value) + after
  }

  function BodyText(es: seq<Entry>): string {
    if es == [] then ""
    else if |es| == 1 then TextOf(es[0])
    else TextOf(es[0]) + "," + BodyText(es[1..])
  }

  function ValuesOf(es: seq<Entry>): seq<string> {
    if es == [] then []
    else if es[0].Space? then ValuesOf(es[1..])
    else [es[0].value] + ValuesOf(es[1..])
  }

  /** A name without '@', the first '@', and a version; neither is empty. */
  predicate SplitsAs(value: string, d: LockedDependency) {
    value == d.name + "@" + d.version && '@' !in d.name && d.name != "" && d.version != ""
  }

  ghost predicate AllSplit(values: seq<string>, ds: seq<LockedDependency>) {
    |values| == |ds| && forall i :: 0 <= i < |ds| ==> SplitsAs(values[i], ds[i])
  }

  lemma ValueSplits(value: string, d: LockedDependency)
    ensures DependencyOf(Quoted(value)) == Some(d) <==> SplitsAs(value, d)
  {
    QuotedFacts(value, ',');
    hide Quoted, Unquote;
    var at := IndexOf(value, '@');
    if SplitsAs(value, d) {
      IndexOfFirst(d.name, '@', d.version);
      assert value == d.name + ['@'] + d.version;
      assert value[..|d.name|] == d.name && value[|d.name| + 1..] == d.version;
    }
    if at < |value| {
      assert value == value[..at] + "@" + value[at + 1..];
    }
  }

  lemma EntryScans(e: Entry)
    requires IsEntry(e)
    ensures Find(Outside, TextOf(e), ',') == |TextOf(e)| && Run(Outside, TextOf(e)) == Outside
  {
    hide Find, Run, Quoted, AllBlank, PlainFor;
    match e {
      case Space(blank) =>
        BlankIsPlain(blank);
        FindPastPlain(blank, "", ',');
      case Named(before, value, after) =>
        BlankIsPlain(before);
        BlankIsPlain(after);
        QuotedFacts(value, ',');
        assert TextOf(e) == before + (Quoted(value) + after);
        FindPastPlain(after, "", ',');
        FindPast(Outside, Quoted(value), after, ',');
        FindPastPlain(before, Quoted(value) + after, ',');
        FindPast(Outside, before, Quoted(value) + after, ',');
    }
  }

  lemma BlankIsPlain(s: string)
    requires AllBlank(s)
    ensures PlainFor(s, ',')
  {
  }

  lemma EntryTrims(e: Entry)
    requires IsEntry(e)
    ensures Trimmed(TextOf(e)) == if e.Space? then "" else Quoted(e.value)
    ensures e.Named? ==> Quoted(e.value) != ""
  {
    hide Quoted, Trimmed, AllBlank;
    match e {
      case Space(blank) =>
        NothingIsBlank();
        TrimBetween(blank, "", "");
        assert blank + "" + "" == blank;
        TrimmedNothing();
      case Named(before, value, after) =>
        QuotedFacts(value, ',');
        TrimBetween(before, Quoted(value), after);
        TightStays(Quoted(value));
    }
  }

  lemma TrimmedNothing()
    ensures Trimmed("") == ""
  {
  }

  lemma OnePart(e: Entry)
    requires IsEntry(e)
    ensures Entries(TextOf(e)) == ConsDependency(Trimmed(TextOf(e)), Some([]))
  {
    EntryScans(e);
    TrimmedNothing();
    hide Find, Run, Trimmed, TextOf, DependencyOf;
    var text := TextOf(e);
    assert text[..|text|] == text;
  }

  lemma FirstPart(e: Entry, rest: string)
    requires IsEntry(e)
    ensures Entries(TextOf(e) + "," + rest) == ConsDependency(Trimmed(TextOf(e)), Entries(rest))
  {
    EntryScans(e);
    hide Find, Run, Trimmed, TextOf, DependencyOf;
    var text := TextOf(e);
    var body := text + "," + rest;
    assert body == text + ("," + rest);
    FindPast(Outside, text, "," + rest, ',');
    CommaFound(rest);
    assert body[..|text|] == text && body[|text| + 1..] == rest;
  }

  lemma CommaFound(rest: string)
    ensures Find(Outside, "," + rest, ',') == 0
  {
  }

  /** A list is read exactly when all its entries split, as what they split into. */
  lemma {:induction false} ListRead(es: seq<Entry>, ds: seq<LockedDependency>)
    requires AreEntries(es)
    ensures Entries(BodyText(es)) == Some(ds) <==> AllSplit(ValuesOf(es), ds)
    decreases es
  {
    hide Entries, DependencyOf, SplitsAs, Trimmed, TextOf, Quoted, IsEntry, ConsDependency, AllSplit;
    NoEntries();
    if es == [] {
      NothingSplits(ds);
    } else {
      var e, rest := es[0], es[1..];
      EntryTrims(e);
      if |es| == 1 {
        assert rest == [];
        OnePart(e);
      } else {
        FirstPart(e, BodyText(rest));
      }
      assert Entries(BodyText(es)) == ConsDependency(Trimmed(TextOf(e)), Entries(BodyText(rest)));
      if e.Space? {
        BlankCons(Entries(BodyText(rest)));
        ListRead(rest, ds);
      } else {
        ConsIs(Quoted(e.value), Entries(BodyText(rest)), ds);
        AllSplitCons(e.value, ValuesOf(rest), ds);
        if ds != [] {
          ValueSplits(e.value, ds[0]);
          ListRead(rest, ds[1..]);
        }
      }
    }
  }

  lemma NothingSplits(ds: seq<LockedDependency>)
    ensures AllSplit([], ds) <==> ds == []
  {
  }

  lemma BlankCons(r: Option<seq<LockedDependency>>)
    ensures ConsDependency("", r) == r
  {
  }

  lemma NoEntries()
    ensures Entries("") == Some([])
  {
  }

  lemma ConsIs(entry: string, r: Option<seq<LockedDependency>>, ds: seq<LockedDependency>)
    requires entry != ""
    ensures ConsDependency(entry, r) == Some(ds) <==>
      ds != [] && DependencyOf(entry) == Some(ds[0]) && r == Some(ds[1..])
  {
    hide DependencyOf;
    if ds != [] && r == Some(ds[1..]) {
      assert [ds[0]] + ds[1..] == ds;
    }
    if r.Some? && DependencyOf(entry).Some? {
      assert ([DependencyOf(entry).value] + r.value)[1..] == r.value;
    }
  }

  lemma AllSplitCons(value: string, values: seq<string>, ds: seq<LockedDependency>)
    ensures AllSplit([value] + values, ds) <==> ds != [] && SplitsAs(value, ds[0]) && AllSplit(values, ds[1..])
  {
    hide SplitsAs;
    var all := [value] + values;
    if ds != [] && SplitsAs(value, ds[0]) && AllSplit(values, ds[1..]) {
      assert forall i :: 1 <= i < |ds| ==> all[i] == values[i - 1] && ds[i] == ds[1..][i - 1];
    }
    if AllSplit(all, ds) {
      assert all[0] == value && forall i :: 0 <= i < |values| ==> all[i + 1] == values[i] && ds[1..][i] == ds[i + 1];
    }
  }

  /** A bracketed list, with any spacing, empty entries and trailing commas. */
  lemma ListIsRead(pre: string, es: seq<Entry>, post: string, ds: seq<LockedDependency>)
    requires AllBlank(pre) && AllBlank(post) && AreEntries(es)
    ensures DependencyList(pre + ("[" + BodyText(es) + "]") + post) == Some(ds) <==> AllSplit(ValuesOf(es), ds)
  {
    hide Entries, BodyText, Trimmed, AllBlank, AllSplit, ValuesOf;
    var t := "[" + BodyText(es) + "]";
    TrimBetween(pre, t, post);
    TightStays(t);
    assert t[1..|t| - 1] == BodyText(es);
    ListRead(es, ds);
  }

  /** A list needs its brackets: a string is none. */
  lemma StringIsNoList(pre: string, value: string, post: string)
    requires AllBlank(pre) && AllBlank(post)
    ensures DependencyList(pre + Quoted(value) + post) == None
  {
    hide Trimmed;
    QuotedFacts(value, '#');
    TrimBetween(pre, Quoted(value), post);
    TightStays(Quoted(value));
  }

  // ---- Sections and their keys ----

  /** Keys that are not the format's are passed over, whatever their value. */
  lemma UnknownKeyIsSkipped(st: ParseState, key: string, value: string, line: nat)
    requires st.Valid()
    requires if st.section.Root? then key != "version" else key !in {"name", "version", "source", "dependencies"}
    ensures Step(st, Assign(key, value), line) == Ok(st)
  {
    if st.section.Package? {
      var ps := st.lockfile.packages;
      assert ps[|ps| - 1 := st.Last()] == ps;
    }
  }

  /** A key of the format's whose value is not of its kind. */
  predicate IsMisused(section: Section, key: string, value: string) {
    if section.Root? then key == "version" && IntegerOf(value).None?
    else if key == "dependencies" then DependencyList(value).None?
    else key in {"name", "version", "source"} && Unquote(value).None?
  }

  /** A known key whose value does not read is an error on its line. */
  lemma KnownKeyNeedsValue(st: ParseState, key: string, value: string, line: nat)
    requires st.Valid() && IsMisused(st.section, key, value)
    ensures Step(st, Assign(key, value), line) == Err(LockfileError(ParseError, line))
  {
  }

  /** Only package tables have a header; other headers, and lines without a key or a value, are errors. */
  lemma OtherLinesFail(st: ParseState, text: string, line: nat)
    requires st.Valid()
    ensures text != "" && text != "[[package]]" ==> Step(st, Header(text), line) == Err(LockfileError(UnsupportedValue, line))
    ensures Step(st, NoAssignment, line) == Err(LockfileError(ParseError, line))
    ensures Step(st, EmptyKey, line) == Err(LockfileError(ParseError, line))
  {
  }

  // ---- Packages ----

  predicate IsComplete(p: LockfilePackage) {
    p.name != "" && p.version != "" && p.source != ""
  }

  predicate HasGoodVersions(p: LockfilePackage) {
    && Semverish(p.version)
    && forall i :: 0 <= i < |p.dependencies| ==> p.dependencies[i].name != "" && Semverish(p.dependencies[i].version)
  }

  /** The packages before the first bad one are sound; what it lacks, or else its versions, is the error. */
  lemma {:induction false} FirstBadPackage(ps: seq<LockfilePackage>, k: nat)
    requires k < |ps| && forall i :: 0 <= i < k ==> IsComplete(ps[i]) && HasGoodVersions(ps[i])
    requires !IsComplete(ps[k]) || !HasGoodVersions(ps[k])
    ensures FirstError(ps) == Some(if IsComplete(ps[k]) then InvalidValue else MissingRequiredField)
    decreases k
  {
    if k == 0 {
      BadVersions(ps[0]);
    } else {
      GoodPackage(ps[0]);
      FirstBadPackage(ps[1..], k - 1);
    }
  }

  lemma GoodPackage(p: LockfilePackage)
    requires IsComplete(p) && HasGoodVersions(p)
    ensures PackageError(p) == None
  {
    forall i | 0 <= i < |p.dependencies| ensures ValidDependency(p.dependencies[i]) {
      SemverishIsSome(p.dependencies[i].version);
    }
  }

  lemma SemverishIsSome(s: string)
    requires Semverish(s)
    ensures s != ""
  {
  }

  lemma BadVersions(p: LockfilePackage)
    requires !IsComplete(p) || !HasGoodVersions(p)
    ensures PackageError(p) == Some(if IsComplete(p) then InvalidValue else MissingRequiredField)
  {
    hide Semverish;
    if IsComplete(p) && Semverish(p.version) {
      var i :| 0 <= i < |p.dependencies| && !(p.dependencies[i].name != "" && Semverish(p.dependencies[i].version));
      assert !ValidDependency(p.dependencies[i]);
    }
  }
}
