/** `getNextFragment` (lexer.ts): the incremental-cache check, the whitespace skip,
    the trivia branches and the token branches, in the source's order. */
module Lexer {
  import opened Fragments
  import opened CharClass
  import opened Trivia
  import opened Identifiers
  import opened Numbers
  import opened Literals
  import opened Operators

  /** What one call of getNextFragment comes to. */
  datatype Outcome =
    | Produced(fragment: Fragment)
      // `null` without a diagnostic
    | NoFragment
      // a comment or hashbang; the source then lexes again from `end`
    | Skipped(kind: FragmentType, text: string, end: nat)
      // `null` after reporting the diagnostic
    | Failed(error: LexError)
      // `<!--` with AnnexB on: the branch body that would follow is not part of this model
    | HtmlCommentBody(at: nat)

  /** The incremental cache holds a fragment for `start` that ends after it. */
  predicate CacheHit(start: nat, prev: seq<Fragment>, ctx: LexContext) {
    ctx.incremental && start < |prev| && prev[start].end > start
  }

  /** The whitespace skip from `start` crossed a line terminator. */
  ghost predicate Crossed(s: string, start: nat) {
    BreakIn(s, start, WhitespaceEnd(s, start))
  }

  /** The fragment-type bits the whitespace skip leaves behind. */
  function SkipTypes(crossed: bool): set<FragmentType> {
    if crossed then {Whitespace} else {}
  }

  datatype Branch =
    | CacheBranch
    | HashbangBranch
    | LineCommentBranch
    | BlockCommentBranch
    | HtmlCommentBranch
    | IdentifierBranch
    | NumberBranch
    | StringBranch
    | TemplateBranch
    | OperatorBranch

  /** Which token branch takes the character at `w`. */
  function TokenBranch(s: string, w: nat): Branch {
    if IdentifierEntry(s, w) then IdentifierBranch
    else if NumberEntry(s, w) then NumberBranch
    else if w < |s| && IsQuote(s[w]) then StringBranch
    else if w < |s| && s[w] == '`' then TemplateBranch
    else OperatorBranch
  }

  /** Without a backslash before it, the character at `w` alone picks the token
      branch, and the entry tests do not overlap: a digit, a `.`, a quote and a
      backtick are none of them identifier starts. After a backslash the identifier
      branch always runs. */
  lemma TokenBranchExactly(s: string, w: nat)
    ensures PrecededByBackslash(s, w) ==> TokenBranch(s, w) == IdentifierBranch
    ensures TokenBranch(s, w) == NumberBranch <==> !PrecededByBackslash(s, w) && NumberEntry(s, w)
    ensures TokenBranch(s, w) == StringBranch <==> !PrecededByBackslash(s, w) && w < |s| && IsQuote(s[w])
    ensures TokenBranch(s, w) == TemplateBranch <==> !PrecededByBackslash(s, w) && w < |s| && s[w] == '`'
  {
    if w < |s| {
      IdentifierFlags(s[w]);
      DigitFlags(s[w]);
      LineTerminatorFlagExactly(s[w]);
    }
  }

  predicate HashbangStart(s: string, start: nat) {
    start == 0 && |s| >= 2 && s[0] == '#' && s[1] == '!'
  }

  /** Which branch runs once the cache missed and the whitespace skip stopped at `w`.
      A `/` that opens no comment falls through to the token branches. */
  function FreshBranch(s: string, start: nat, w: nat): Branch {
    if HashbangStart(s, start) then HashbangBranch
    else if w + 1 < |s| && s[w] == '/' && s[w + 1] == '/' then LineCommentBranch
    else if w + 1 < |s| && s[w] == '/' && s[w + 1] == '*' then BlockCommentBranch
    else if HtmlCommentOpens(s, w) then HtmlCommentBranch
    else TokenBranch(s, w)
  }

  /** Which branch of getNextFragment runs. */
  function BranchOf(s: string, start: nat, prev: seq<Fragment>, ctx: LexContext): Branch {
    if CacheHit(start, prev, ctx) then CacheBranch else FreshBranch(s, start, WhitespaceEnd(s, start))
  }

  // ---- What each branch yields ----

  ghost predicate CommentAfter(s: string, end: nat) {
    exists t :: SkipRun(s, end, t, true) && CommentOpens(s, t)
  }

  /** A fragment built by the common tail of getNextFragment: it starts where the call
      started (before the whitespace), has no comment before it, no cooked content, and
      a comment after it exactly when one opens later on the same line. */
  ghost predicate FromTail(s: string, start: nat, f: Fragment) {
    f.start == start && !f.hasCommentBefore && f.cookedContent == None
    && f.end >= 0 && (f.hasCommentAfter <==> CommentAfter(s, f.end))
  }

  ghost predicate HashbangYields(s: string, o: Outcome) {
    o.Skipped? && o.kind == HashbangComment && 2 <= o.end <= |s| && o.text == s[..o.end]
    && (o.end == |s| || s[o.end] == '\n') && (forall k :: 0 <= k < o.end ==> s[k] != '\n')
  }

  ghost predicate LineCommentYields(s: string, w: nat, o: Outcome) {
    o.Skipped? && o.kind == Comment && w + 2 <= o.end <= |s| && o.text == s[w + 2..o.end]
    && (o.end == |s| || s[o.end] == '\n') && (forall k :: w + 2 <= k < o.end ==> s[k] != '\n')
  }

  ghost predicate BlockCommentYields(s: string, w: nat, o: Outcome) {
    (o.Skipped? || o == Failed(UnterminatedComment))
    && (o.Failed? <==> forall k :: !ClosesBlockComment(s, w, k))
    && (o.Skipped? ==>
          o.kind == Comment && w + 3 <= o.end <= |s| && ClosesBlockComment(s, w, o.end - 1)
          && (forall k :: w + 2 <= k < o.end - 1 ==> !ClosesBlockComment(s, w, k))
          && o.text == "/*" + s[w + 2..o.end - 1] + "*/")
  }

  /** The identifier branch yields the classification of the scanned name: its
      fragment when the name is accepted, its error otherwise. */
  ghost predicate IdentifierYields(s: string, start: nat, w: nat, crossed: bool, ctx: LexContext, tables: Tables, o: Outcome) {
    var name := ScannedName(s, w);
    var c := ClassifyName(name, PrecededByBackslash(s, w), ctx, tables.keywords);
    match o
    case Produced(f) =>
      c.Ok? && FromTail(s, start, f)
      && f.containsEscape == PrecededByBackslash(s, w)
      && f.end == NameEnd(s, w) && f.value == Codes(name)
      && f.types == (if c.value then {Keyword} else SkipTypes(crossed) + {Identifier})
    case Failed(error) => c == Err(error)
    case _ => false
  }

  /** The number branch yields exactly the reference literal: its fragment on
      success, its error otherwise. */
  ghost predicate NumberYields(s: string, start: nat, w: nat, ctx: LexContext, o: Outcome)
    requires NumberEntry(s, w)
  {
    var n := NumberLiteral(s, w, ctx.strict);
    match o
    case Produced(f) =>
      n.Ok? && FromTail(s, start, f) && f.types == {Literal} && !f.containsEscape
      && f.end == n.value.end && f.value == Codes(n.value.value)
      && CaseNormalized(n.value.value, s[w..f.end]) && NoDoubleSeparator(n.value.value)
    case Failed(error) => n == Err(error)
    case _ => false
  }

  ghost predicate StringYields(s: string, start: nat, w: nat, ctx: LexContext, o: Outcome)
    requires w < |s|
  {
    match o
    case Produced(f) =>
      FromTail(s, start, f) && f.types == {Literal} && !f.containsEscape
      && w + 2 <= f.end <= |s| && s[f.end - 1] == s[w]
      && (forall k :: w < k < f.end - 1 && (s[k] == '\n' || s[k] == s[w]) ==> s[k - 1] == '\\')
      && (!ctx.needsEscapeDecoding || PlainString(s, w + 1, s[w]) ==>
            StringClose(s, w + 1, s[w]) == Some(f.end - 1) && f.value == Codes(s[w + 1..f.end]))
    case Failed(error) =>
      (error == UnterminatedString || error.InvalidEscapeInString?)
      && (!ctx.needsEscapeDecoding ==> StringClose(s, w + 1, s[w]).None?)
      && (PlainString(s, w + 1, s[w]) ==> error == UnterminatedString && StringClose(s, w + 1, s[w]).None?)
    case _ => false
  }

  /** The template branch returns on its own, before the common tail: no comment
      look-ahead, and the cooked text attached. */
  ghost predicate TemplateYields(s: string, start: nat, w: nat, ctx: LexContext, o: Outcome)
    requires w < |s|
  {
    match o
    case Produced(f) =>
      f.start == start && f.types == {Literal} && !f.hasCommentBefore && !f.hasCommentAfter
      && !f.containsEscape && w + 2 <= f.end < |s| && s[f.end - 1] == '`'
      && f.value == Codes(s[w..f.end]) && f.cookedContent.Some?
      && (!ctx.needsEscapeDecoding || PlainTemplate(s, w + 1) ==>
            TemplateClose(s, w + 1) == Some(f.end - 1) && f.value == ['`' as int] + f.cookedContent.value)
    case Failed(error) =>
      (error == UnterminatedTemplate || error.InvalidEscapeInTemplate?)
      && (!ctx.needsEscapeDecoding ==>
            !(TemplateClose(s, w + 1).Some? && TemplateClose(s, w + 1).value + 1 < |s|))
      && (PlainTemplate(s, w + 1) ==>
            error == UnterminatedTemplate
            && !(TemplateClose(s, w + 1).Some? && TemplateClose(s, w + 1).value + 1 < |s|))
    case _ => false
  }

  /** A fragment holding only the whitespace bit: nothing matched after a line break. */
  ghost predicate WhitespaceOnly(s: string, start: nat, w: nat, o: Outcome) {
    o.Produced? && FromTail(s, start, o.fragment) && o.fragment.types == {Whitespace}
    && o.fragment.end == w && o.fragment.value == [] && !o.fragment.containsEscape
  }

  ghost predicate OperatorYields(s: string, start: nat, w: nat, crossed: bool, tables: Tables, o: Outcome) {
    if w < |s| && OneCharTokenType(s[w], tables).Some? then
      var g := GreedyEnd(s, w, w + 1, tables);
      if OptionalChainBeforeDigit(s, w, g) then o == NoFragment
      else
        o.Produced? && FromTail(s, start, o.fragment)
        && o.fragment.types == {OneCharTokenType(s[w], tables).value}
        && o.fragment.end == g && o.fragment.value == Codes(s[w..g]) && !o.fragment.containsEscape
    else if crossed then WhitespaceOnly(s, start, w, o)
    else o == NoFragment
  }

  /** The common tail's cooked-content test (type exactly Literal and a backtick at
      `start`) never holds: at a backtick no whitespace is skipped, and neither the
      number branch nor the string branch, the only tail branches whose type is
      Literal alone, runs there. */
  lemma CookedTestNeverHolds(s: string, start: nat)
    requires start < |s| && s[start] == '`'
    ensures WhitespaceEnd(s, start) == start
    ensures var b := FreshBranch(s, start, WhitespaceEnd(s, start)); b != NumberBranch && b != StringBranch
  {
    WhitespaceFlagExactly(s[start]);
  }

  // ---- The branches ----

  /** The common tail: no type means no fragment; otherwise the comment look-ahead. The
      cooked content is never attached here (`CookedTestNeverHolds`). */
  method Finish(s: string, start: nat, types: set<FragmentType>, value: seq<int>, end: nat, containsEscape: bool)
    returns (o: Outcome)
    ensures types == {} ==> o == NoFragment
    ensures types != {} ==>
      o.Produced? && FromTail(s, start, o.fragment) && o.fragment.types == types
      && o.fragment.value == value && o.fragment.end == end && o.fragment.containsEscape == containsEscape
  {
    if types == {} {
      return NoFragment;
    }
    var hasCommentAfter := HasCommentAfter(s, end);
    o := Produced(Fragment(types, value, start, end, false, hasCommentAfter, containsEscape, None));
  }

  method IdentifierFragment(s: string, start: nat, w: nat, crossed: bool, ctx: LexContext, tables: Tables)
    returns (o: Outcome)
    requires IdentifierEntry(s, w)
    ensures IdentifierYields(s, start, w, crossed, ctx, tables, o)
  {
    var r := ScanIdentifier(s, w, ctx, tables.keywords);
    if r.Err? {
      return Failed(r.error);
    }
    var id := r.value;
    var types := if id.isKeyword then {Keyword} else SkipTypes(crossed) + {Identifier};
    o := Finish(s, start, types, Codes(id.value), id.end, id.containsEscape);
  }

  method NumberFragment(s: string, start: nat, w: nat, ctx: LexContext) returns (o: Outcome)
    requires NumberEntry(s, w)
    ensures NumberYields(s, start, w, ctx, o)
  {
    var r := ScanNumber(s, w, ctx.strict);
    if r.Err? {
      return Failed(r.error);
    }
    o := Finish(s, start, {Literal}, Codes(r.value.value), r.value.end, false);
    assert o.fragment.value == Codes(r.value.value);
  }

  method StringFragment(s: string, start: nat, w: nat, ctx: LexContext) returns (o: Outcome)
    requires w < |s| && IsQuote(s[w])
    ensures StringYields(s, start, w, ctx, o)
  {
    var r := ScanString(s, w, ctx.needsEscapeDecoding, ctx.strict);
    if r.Err? {
      return Failed(r.error);
    }
    o := Finish(s, start, {Literal}, r.value.value, r.value.end, false);
  }

  method TemplateFragment(s: string, start: nat, w: nat, ctx: LexContext) returns (o: Outcome)
    requires w < |s| && s[w] == '`'
    ensures TemplateYields(s, start, w, ctx, o)
  {
    var r := ScanTemplate(s, w, ctx.needsEscapeDecoding, ctx.strict);
    if r.Err? {
      return Failed(r.error);
    }
    var t := r.value;
    o := Produced(Fragment({Literal}, Codes(t.raw), start, t.end, false, false, false, Some(t.cooked)));
  }

  method OperatorFragment(s: string, start: nat, w: nat, crossed: bool, tables: Tables) returns (o: Outcome)
    ensures OperatorYields(s, start, w, crossed, tables, o)
  {
    var r := ScanOperator(s, w, tables);
    match r
    case Rewound =>
      o := NoFragment;
    case Matched(kind, value, end) =>
      o := Finish(s, start, {kind}, Codes(value), end, false);
    case NoTokenType =>
      o := Finish(s, start, SkipTypes(crossed), [], w, false);
  }

  /** What the branch `b` yields after the whitespace skip stopped at `w`. */
  ghost predicate BranchYields(b: Branch, s: string, start: nat, w: nat, crossed: bool, ctx: LexContext, tables: Tables, o: Outcome) {
    match b
    case CacheBranch => false
    case HashbangBranch => HashbangYields(s, o)
    case LineCommentBranch => LineCommentYields(s, w, o)
    case BlockCommentBranch => BlockCommentYields(s, w, o)
    case HtmlCommentBranch => o == if ctx.annexB then HtmlCommentBody(w) else Failed(HtmlCommentsDisabled)
    case IdentifierBranch => IdentifierYields(s, start, w, crossed, ctx, tables, o)
    case NumberBranch => NumberEntry(s, w) && NumberYields(s, start, w, ctx, o)
    case StringBranch => w < |s| && StringYields(s, start, w, ctx, o)
    case TemplateBranch => w < |s| && TemplateYields(s, start, w, ctx, o)
    case OperatorBranch => OperatorYields(s, start, w, crossed, tables, o)
  }

  /** The token branches after the whitespace skip stopped at `w`. */
  method ScanToken(s: string, start: nat, w: nat, crossed: bool, ctx: LexContext, tables: Tables)
    returns (o: Outcome)
    ensures BranchYields(TokenBranch(s, w), s, start, w, crossed, ctx, tables, o)
  {
    match TokenBranch(s, w)
    case IdentifierBranch => o := IdentifierFragment(s, start, w, crossed, ctx, tables);
    case NumberBranch => o := NumberFragment(s, start, w, ctx);
    case StringBranch => o := StringFragment(s, start, w, ctx);
    case TemplateBranch => o := TemplateFragment(s, start, w, ctx);
    case _ => o := OperatorFragment(s, start, w, crossed, tables);
  }

  /** The trivia branches, with the line and column the whitespace skip reached. The
      source re-enters getNextFragment after a comment; here the comment is returned
      with the position to continue from. */
  method ScanTrivia(s: string, start: nat, w: nat, line: int, column: int, crossed: bool, ctx: LexContext, tables: Tables)
    returns (o: Outcome)
    requires FreshBranch(s, start, w) != TokenBranch(s, w)
    ensures BranchYields(FreshBranch(s, start, w), s, start, w, crossed, ctx, tables, o)
  {
    if HashbangStart(s, start) {
      var end, value := ScanHashbang(s);
      return Skipped(HashbangComment, value, end);
    } else if w + 1 < |s| && s[w] == '/' && s[w + 1] == '/' {
      var c := ScanLineComment(s, w);
      return Skipped(Comment, c.value, c.end);
    } else if w + 1 < |s| && s[w] == '/' && s[w + 1] == '*' {
      var c := ScanBlockComment(s, w, line, column);
      if c.Err? {
        return Failed(c.error);
      }
      return Skipped(Comment, c.value.value, c.value.end);
    }
    var html := HtmlCommentCheck(s, w, ctx.annexB);
    if html.Some? {
      return Failed(html.value);
    }
    o := HtmlCommentBody(w);
  }

  /** getNextFragment at `start`: the cached fragment on a cache hit, otherwise what
      the branch chosen after the whitespace skip yields. */
  method NextFragment(s: string, start: nat, prev: seq<Fragment>, ctx: LexContext, tables: Tables)
    returns (o: Outcome)
    ensures CacheHit(start, prev, ctx) ==> o == Produced(prev[start])
    ensures !CacheHit(start, prev, ctx) ==>
      BranchYields(BranchOf(s, start, prev, ctx), s, start, WhitespaceEnd(s, start), Crossed(s, start), ctx, tables, o)
    // every branch that does not fail moves past `start`
    ensures !CacheHit(start, prev, ctx) && o.Produced? ==> o.fragment.end > start
    ensures o.Skipped? ==> o.end > start
  {
    if CacheHit(start, prev, ctx) {
      return Produced(prev[start]);
    }
    var skip := SkipWhitespace(s, start);
    var w := skip.end;
    if FreshBranch(s, start, w) != TokenBranch(s, w) {
      o := ScanTrivia(s, start, w, skip.line, skip.column, skip.crossedLineTerminator, ctx, tables);
    } else {
      o := ScanToken(s, start, w, skip.crossedLineTerminator, ctx, tables);
    }
    Advances(s, start, prev, ctx, tables, o);
  }

  /** Every branch that does not fail moves past `start`. */
  lemma Advances(s: string, start: nat, prev: seq<Fragment>, ctx: LexContext, tables: Tables, o: Outcome)
    requires !CacheHit(start, prev, ctx)
    requires BranchYields(BranchOf(s, start, prev, ctx), s, start, WhitespaceEnd(s, start), Crossed(s, start), ctx, tables, o)
    ensures o.Produced? ==> o.fragment.end > start
    ensures o.Skipped? ==> o.end > start
  {
    var w := WhitespaceEnd(s, start);
    if BranchOf(s, start, prev, ctx) == OperatorBranch && o.Produced? && !(w < |s| && OneCharTokenType(s[w], tables).Some?) {
      var k :| start <= k < w && s[k] in WhitespaceBreaks;
    }
  }

}
