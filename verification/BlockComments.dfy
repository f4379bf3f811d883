/**
 Nested block comments: `skip_block_comment` of eta/core/src/eta/reader/lexer.cpp counts its depth,
 and agrees with recursive descent.
 */
module BlockComments {
  import opened Wrappers
  import opened Utf8

  const HASH: Byte := 0x23
  const BAR: Byte := 0x7C

  predicate Opens(s: seq<Byte>) {
    |s| >= 2 && s[0] == HASH && s[1] == BAR
  }

  predicate Closes(s: seq<Byte>) {
    |s| >= 2 && s[0] == BAR && s[1] == HASH
  }

  /** What follows the comment whose opening has been read; a comment inside is skipped as a whole. */
  function AfterComment(s: seq<Byte>): (r: Option<seq<Byte>>)
    ensures r.Some? ==> |r.value| + 2 <= |s|
    decreases |s|
  {
    if s == [] then None
    else if Closes(s) then Some(s[2..])
    else if Opens(s) then
      match AfterComment(s[2..])
      case None => None
      case Some(rest) => AfterComment(rest)
    else AfterComment(s[1..])
  }

  lemma {:induction false} TextAfterStays(a: seq<Byte>, s: seq<Byte>)
    requires AfterComment(a).Some?
    ensures AfterComment(a + s) == Some(AfterComment(a).value + s)
    decreases |a|
  {
    if Closes(a) {
      assert (a + s)[2..] == a[2..] + s;
    } else if Opens(a) {
      TextAfterStays(a[2..], s);
      assert (a + s)[2..] == a[2..] + s;
      TextAfterStays(AfterComment(a[2..]).value, s);
    } else {
      TextAfterStays(a[1..], s);
      assert (a + s)[1..] == a[1..] + s;
    }
  }

  /** A whole comment inside a comment makes no difference to where the outer one ends. */
  lemma CommentsNest(inner: seq<Byte>, s: seq<Byte>)
    requires AfterComment(inner) == Some([])
    ensures AfterComment([HASH, BAR] + (inner + s)) == AfterComment(s)
  {
    TextAfterStays(inner, s);
    assert ([HASH, BAR] + (inner + s))[2..] == inner + s && [] + s == s;
  }

  // ---- Comments as a grammar ----

  /** A byte of the comment's text, or a whole comment inside it. */
  datatype Item = Text(byte: Byte) | Nested(items: seq<Item>)

  /** The items of a comment, its end, and what follows. */
  function Spelled(items: seq<Item>, after: seq<Byte>): (s: seq<Byte>)
    ensures s != []
  {
    if items == [] then ['|' as int, '#' as int] + after
    else
      match items[0]
      case Text(b) => [b] + Spelled(items[1..], after)
      case Nested(inner) => ['#' as int, '|' as int] + Spelled(inner, Spelled(items[1..], after))
  }

  /** No byte of the text starts a mark together with the byte after it. */
  predicate HasNoMarks(items: seq<Item>, after: seq<Byte>) {
    if items == [] then true
    else
      var rest := Spelled(items[1..], after);
      && HasNoMarks(items[1..], after)
      && match items[0]
         case Text(b) => !(b == '#' as int && rest[0] == '|' as int) && !(b == '|' as int && rest[0] == '#' as int)
         case Nested(inner) => HasNoMarks(inner, rest)
  }

  /** A comment is passed over to the byte after its end. */
  lemma {:induction false} CommentIsPassed(items: seq<Item>, after: seq<Byte>)
    requires HasNoMarks(items, after)
    ensures AfterComment(Spelled(items, after)) == Some(after)
    decreases items
  {
    var s := Spelled(items, after);
    if items == [] {
      assert s[2..] == after;
    } else {
      var rest := Spelled(items[1..], after);
      CommentIsPassed(items[1..], after);
      match items[0] {
        case Text(b) =>
          assert s[1..] == rest && s[1] == rest[0];
        case Nested(inner) =>
          CommentIsPassed(inner, rest);
          assert s[2..] == Spelled(inner, rest);
      }
    }
  }

  /** Whatever is passed over is a comment. */
  lemma {:induction false} PassedIsComment(s: seq<Byte>) returns (items: seq<Item>)
    requires AfterComment(s).Some?
    ensures HasNoMarks(items, AfterComment(s).value) && s == Spelled(items, AfterComment(s).value)
    decreases |s|
  {
    var after := AfterComment(s).value;
    if Closes(s) {
      items := [];
      assert s == [s[0], s[1]] + s[2..];
    } else if Opens(s) {
      var inner := PassedIsComment(s[2..]);
      var more := PassedIsComment(AfterComment(s[2..]).value);
      items := [Nested(inner)] + more;
      assert items[1..] == more && s == [s[0], s[1]] + s[2..];
    } else {
      var more := PassedIsComment(s[1..]);
      items := [Text(s[0])] + more;
      assert items[1..] == more && s == [s[0]] + s[1..];
    }
  }

  /** What follows `k` comments still open, innermost first. */
  function AfterComments(s: seq<Byte>, k: nat): Option<seq<Byte>>
    decreases k
  {
    if k == 0 then Some(s)
    else
      match AfterComment(s)
      case None => None
      case Some(rest) => AfterComments(rest, k - 1)
  }

  /** Each kind of step keeps what is left to be skipped. */
  lemma StepsKeepTheEnd(s: seq<Byte>, k: nat)
    requires s != [] && k > 0
    ensures Opens(s) ==> AfterComments(s, k) == AfterComments(s[2..], k + 1)
    ensures Closes(s) ==> AfterComments(s, k) == AfterComments(s[2..], k - 1)
    ensures !Opens(s) && !Closes(s) ==> AfterComments(s, k) == AfterComments(s[1..], k)
  {
    if Opens(s) {
      match AfterComment(s[2..]) {
        case None =>
        case Some(rest) => assert AfterComments(s[2..], k + 1) == AfterComments(rest, k);
      }
    }
  }

  class CommentLexer {
    const source: seq<Byte>
    var pos: nat

    constructor (source: seq<Byte>)
      ensures this.source == source && pos == 0
    {
      this.source := source;
      pos := 0;
    }

    ghost predicate Valid()
      reads this
    {
      pos <= |source|
    }

    predicate Sees(at: nat, b: Byte)
      reads this
    {
      at < |source| && source[at] == b
    }

    /** Called after the opening `#|`. */
    method SkipBlockComment() returns (closed: bool)
      requires Valid()
      modifies this`pos
      ensures Valid()
      ensures var after := AfterComment(old(source[pos..]));
        (closed <==> after.Some?) && (closed ==> source[pos..] == after.value) && (!closed ==> pos == |source|)
    {
      ghost var start := source[pos..];
      var depth := 1;
      assert AfterComments(start, 1) == AfterComment(start) by {
        var after := AfterComment(start);
        if after.Some? {
          assert AfterComments(after.value, 0) == after;
        }
      }
      while pos < |source| && depth > 0
        invariant Valid() && depth >= 0
        invariant AfterComments(source[pos..], depth) == AfterComment(start)
        decreases |source| - pos
      {
        ghost var s := source[pos..];
        StepsKeepTheEnd(s, depth);
        if Sees(pos, HASH) && Sees(pos + 1, BAR) {
          assert Opens(s) && s[2..] == source[pos + 2..];
          pos := pos + 2;
          depth := depth + 1;
        } else if Sees(pos, BAR) && Sees(pos + 1, HASH) {
          assert Closes(s) && s[2..] == source[pos + 2..];
          pos := pos + 2;
          depth := depth - 1;
        } else {
          assert !Opens(s) && !Closes(s) && s[1..] == source[pos + 1..];
          pos := pos + 1;
        }
      }
      if depth > 0 {
        assert AfterComment(source[pos..]) == None;
      }
      return depth == 0;
    }
  }
}
