/** The trivia scanners of lexer.ts: the whitespace skip at the head of
    getNextFragment, hashbang, line and block comments, the HTML-comment rejection,
    and the look-ahead for a comment after a fragment. */
module Trivia {
  import opened Fragments
  import opened CharClass
  import opened Location

  /** The characters the whitespace-skip loop counts as line breaks. */
  const WhitespaceBreaks: set<char> := {'\n', '\r'}

  /** The only character the block-comment loop counts as a line break. */
  const BlockCommentBreaks: set<char> := {'\n'}

  /** Result of the whitespace skip: where it stopped, the line and column there, and
      whether a line terminator was crossed (the source then or-s `Whitespace` into the
      fragment type). */
  datatype Skip = Skip(end: nat, line: int, column: int, crossedLineTerminator: bool)

  /** Where the whitespace skip from `i` stops: the first character that is not
      skippable whitespace, or the end of input. */
  function WhitespaceEnd(s: string, i: nat): (r: nat)
    ensures i <= r && (r > i ==> r <= |s|)
    ensures forall k :: i <= k < r ==> k < |s| && IsSkippableWhitespace(s[k])
    ensures r < |s| ==> !IsSkippableWhitespace(s[r])
    decreases |s| - i
  {
    if i < |s| && IsSkippableWhitespace(s[i]) then WhitespaceEnd(s, i + 1) else i
  }

  /** One character's test in the whitespace-skip loop: the table's whitespace and
      line-terminator bits for ASCII, the Unicode helpers beyond. */
  method ClassifySpace(c: char) returns (skippable: bool, isBreak: bool)
    ensures skippable == IsSkippableWhitespace(c)
    ensures skippable ==> c as int < 128 && HasFlag(c, WhitespaceFlag) && (isBreak <==> c in WhitespaceBreaks)
  {
    if c as int < 128 {
      skippable := HasFlag(c, WhitespaceFlag);
      isBreak := HasFlag(c, LineTerminatorFlag);
      LineTerminatorFlagExactly(c);
    } else {
      skippable := IsUnicodeWhitespace(c as int);
      isBreak := IsUnicodeLineTerminator(c as int);
    }
  }

  /** A line terminator lies in `s[a..b)`. */
  ghost predicate BreakIn(s: string, a: nat, b: nat) {
    exists k :: a <= k < b && k < |s| && s[k] in WhitespaceBreaks
  }

  lemma BreakInSnoc(s: string, a: nat, b: nat)
    requires a <= b < |s|
    ensures BreakIn(s, a, b + 1) <==> BreakIn(s, a, b) || s[b] in WhitespaceBreaks
  {
    if BreakIn(s, a, b + 1) && s[b] !in WhitespaceBreaks {
      var k :| a <= k < b + 1 && k < |s| && s[k] in WhitespaceBreaks;
      assert k < b;
    }
  }

  /** The whitespace-skip loop (line 1, column 1 at `start`). */
  method SkipWhitespace(s: string, start: nat) returns (r: Skip)
    ensures r.end == WhitespaceEnd(s, start)
    ensures start <= |s| ==>
      (r.line, r.column) == LineColumnAfter(s[start..r.end], 1, 1, WhitespaceBreaks)
      && r.line == 1 + CountIn(s[start..r.end], WhitespaceBreaks)
    ensures start > |s| ==> r.end == start && r.line == 1 && r.column == 1
    ensures r.crossedLineTerminator <==> BreakIn(s, start, r.end)
  {
    if start >= |s| {
      // the loop does not run
      return Skip(start, 1, 1, false);
    }
    var end := start;
    var line, column := 1, 1;
    var crossed := false;
    while end < |s|
      invariant start <= end <= |s|
      invariant (line, column) == LineColumnAfter(s[start..end], 1, 1, WhitespaceBreaks)
      invariant crossed <==> BreakIn(s, start, end)
      invariant WhitespaceEnd(s, start) == WhitespaceEnd(s, end)
    {
      var skippable, isBreak := ClassifySpace(s[end]);
      if !skippable {
        break;
      }
      LineColumnSnoc(s, start, end, 1, 1, WhitespaceBreaks);
      BreakInSnoc(s, start, end);
      if isBreak {
        line := line + 1;
        column := 0;
        crossed := true;
      }
      column := column + 1;
      end := end + 1;
    }
    LineCount(s[start..end], 1, 1, WhitespaceBreaks);
    r := Skip(end, line, column, crossed);
  }

  /** The loop shared by hashbang and line comments: copies characters up to, not
      including, the next line feed. A carriage return does not stop it. */
  method ScanToLineFeed(s: string, from: nat) returns (end: nat, value: string)
    requires from <= |s|
    ensures from <= end <= |s| && value == s[from..end]
    ensures forall k :: from <= k < end ==> s[k] != '\n'
    ensures end == |s| || s[end] == '\n'
  {
    end := from;
    value := "";
    while end < |s| && s[end] != '\n'
      invariant from <= end <= |s| && value == s[from..end]
      invariant forall k :: from <= k < end ==> s[k] != '\n'
    {
      value := value + [s[end]];
      end := end + 1;
    }
  }

  /** `#!` at offset 0: the comment runs to the first line feed and its value includes
      the `#!`. */
  method ScanHashbang(s: string) returns (end: nat, value: string)
    requires |s| >= 2 && s[0] == '#' && s[1] == '!'
    ensures 2 <= end <= |s| && value == s[..end]
    ensures forall k :: 0 <= k < end ==> s[k] != '\n'
    ensures end == |s| || s[end] == '\n'
  {
    end, value := ScanToLineFeed(s, 0);
  }

  /** Characters a look-ahead skips: whitespace, and when `stopAtBreak` only whitespace
      that is not a line terminator. */
  predicate Skippable(c: char, stopAtBreak: bool) {
    HasFlag(c, WhitespaceFlag) && !(stopAtBreak && HasFlag(c, LineTerminatorFlag))
  }

  /** `t` is where a look-ahead from `i` stops: everything in `[i, t)` is skippable and
      `t` is the end of input or a character that is not. */
  predicate SkipRun(s: string, i: int, t: int, stopAtBreak: bool) {
    i <= t
    && (forall k :: i <= k < t ==> 0 <= k < |s| && Skippable(s[k], stopAtBreak))
    && (0 <= t < |s| ==> !Skippable(s[t], stopAtBreak))
  }

  lemma SkipRunUnique(s: string, i: int, t1: int, t2: int, stopAtBreak: bool)
    requires SkipRun(s, i, t1, stopAtBreak) && SkipRun(s, i, t2, stopAtBreak)
    ensures t1 == t2
  {
  }

  /** The look-ahead loop itself. */
  method SkipAhead(s: string, i: nat, stopAtBreak: bool) returns (t: nat)
    ensures SkipRun(s, i, t, stopAtBreak)
  {
    t := i;
    while t < |s| && Skippable(s[t], stopAtBreak)
      invariant i <= t
      invariant forall k :: i <= k < t ==> 0 <= k < |s| && Skippable(s[k], stopAtBreak)
    {
      t := t + 1;
    }
  }

  datatype LineComment = LineComment(value: string, end: nat, commentFollows: bool)

  /** A `//` comment at `e0`: the value is the text after `//` up to the next line feed.
      The source then skips one character and any whitespace, line breaks included,
      and notes whether another `//` follows. */
  method ScanLineComment(s: string, e0: nat) returns (r: LineComment)
    requires e0 + 1 < |s| && s[e0] == '/' && s[e0 + 1] == '/'
    ensures e0 + 2 <= r.end <= |s| && r.value == s[e0 + 2..r.end]
    ensures forall k :: e0 + 2 <= k < r.end ==> s[k] != '\n'
    ensures r.end == |s| || s[r.end] == '\n'
    ensures r.commentFollows <==>
      exists t :: SkipRun(s, r.end + 1, t, false) && t + 1 < |s| && s[t] == '/' && s[t + 1] == '/'
  {
    var end, value := ScanToLineFeed(s, e0 + 2);
    var from := end + 1;
    var tempEnd := SkipAhead(s, from, false);
    var follows := tempEnd + 1 < |s| && s[tempEnd] == '/' && s[tempEnd + 1] == '/';
    forall t | SkipRun(s, from, t, false) ensures t == tempEnd {
      SkipRunUnique(s, from, t, tempEnd, false);
    }
    r := LineComment(value, end, follows);
  }

  /** `s[k]` closes a block comment opened at `e0`: the closing test starts at `e0 + 2`
      and looks back one character, so the star of the opening counts. */
  predicate ClosesBlockComment(s: string, e0: nat, k: int) {
    e0 + 2 <= k < |s| && s[k - 1] == '*' && s[k] == '/'
  }

  /** So `/*/` is a whole comment: its slash closes it, and no later `*/` is needed. */
  lemma SlashStarSlashCloses(s: string, e0: nat)
    requires e0 + 3 <= |s| && s[e0..e0 + 3] == "/*/"
    ensures ClosesBlockComment(s, e0, e0 + 2)
  {
    assert s[e0 + 1] == s[e0..e0 + 3][1];
    assert s[e0 + 2] == s[e0..e0 + 3][2];
  }

  datatype BlockComment = BlockComment(value: string, end: nat, line: int, column: int)

  /** A block comment at `e0`. It ends just past the first closing slash; its value
      is the opener, the text up to the closing slash, then the closer again. Line and column advance
      over the text, counting only line feeds. */
  method ScanBlockComment(s: string, e0: nat, line: int, column: int) returns (r: Result<BlockComment>)
    requires e0 + 1 < |s| && s[e0] == '/' && s[e0 + 1] == '*'
    ensures r.Err? <==> forall k :: !ClosesBlockComment(s, e0, k)
    ensures r.Err? ==> r.error == UnterminatedComment
    ensures r.Ok? ==>
      ClosesBlockComment(s, e0, r.value.end - 1)
      && (forall k :: e0 + 2 <= k < r.value.end - 1 ==> !ClosesBlockComment(s, e0, k))
      && r.value.value == "/*" + s[e0 + 2..r.value.end - 1] + "*/"
      && (r.value.line, r.value.column) == LineColumnAfter(s[e0 + 2..r.value.end - 1], line, column, BlockCommentBreaks)
  {
    var value := "/*";
    var end := e0 + 2;
    var l, c := line, column;
    while end < |s| && !(s[end - 1] == '*' && s[end] == '/')
      invariant e0 + 2 <= end <= |s|
      invariant value == "/*" + s[e0 + 2..end]
      invariant forall k :: e0 + 2 <= k < end ==> !ClosesBlockComment(s, e0, k)
      invariant (l, c) == LineColumnAfter(s[e0 + 2..end], line, column, BlockCommentBreaks)
    {
      LineColumnSnoc(s, e0 + 2, end, line, column, BlockCommentBreaks);
      assert s[e0 + 2..end + 1] == s[e0 + 2..end] + [s[end]];
      value := value + [s[end]];
      if s[end] == '\n' {
        l := l + 1;
        c := 1;
      } else {
        c := c + 1;
      }
      end := end + 1;
    }
    if end < |s| {
      assert ClosesBlockComment(s, e0, end);
      value := value + "*/";
      end := end + 1;
      r := Ok(BlockComment(value, end, l, c));
    } else {
      r := Err(UnterminatedComment);
    }
  }

  /** `<!--` at `e`. */
  predicate HtmlCommentOpens(s: string, e: nat) {
    e + 3 < |s| && s[e] == '<' && s[e + 1] == '!' && s[e + 2] == '-' && s[e + 3] == '-'
  }

  /** The HTML-comment check: an error exactly when the lookahead is `<!--` and AnnexB
      is off. */
  function HtmlCommentCheck(s: string, e: nat, annexB: bool): (r: Option<LexError>)
    ensures r.Some? <==> HtmlCommentOpens(s, e) && !annexB
    ensures r.Some? ==> r.value == HtmlCommentsDisabled
  {
    if HtmlCommentOpens(s, e) && !annexB then Some(HtmlCommentsDisabled) else None
  }

  /** A line or block comment opener at `t`. */
  predicate CommentOpens(s: string, t: int) {
    0 <= t && t + 1 < |s| && s[t] == '/' && (s[t + 1] == '/' || s[t + 1] == '*')
  }

  /** The look-ahead after a fragment ending at `end`: skips whitespace but stops at a
      line terminator, and reports whether a comment starts there. */
  method HasCommentAfter(s: string, end: nat) returns (b: bool)
    ensures b <==> exists t :: SkipRun(s, end, t, true) && CommentOpens(s, t)
  {
    var tempEnd := SkipAhead(s, end, true);
    b := CommentOpens(s, tempEnd);
    forall t | SkipRun(s, end, t, true) ensures t == tempEnd {
      SkipRunUnique(s, end, t, tempEnd, true);
    }
  }

  /** A comment on the next line is not seen: after `x` in "x\n//c" the look-ahead stops
      at the line feed. */
  lemma NoCommentAcrossLineBreak()
    ensures SkipRun("x\n//c", 1, 1, true) && !CommentOpens("x\n//c", 1)
  {
    LineTerminatorFlagExactly('\n');
  }
}
