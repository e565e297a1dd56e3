/** The parts of demo.ts that tokenize: the `charTypes` table, and the regular-expression
    and no-match branches of the demo `getNextFragment`. */
module Demo {
  import opened Fragments
  import opened CharClass

  // ---- charTypes ----

  /** The class `charTypes` gives to ASCII code `i`: space, tab, line feed and carriage
      return are Whitespace, ASCII letters, `$` and `_` Identifier, decimal digits
      Literal; every other entry stays unset. */
  function CharType(i: int): (r: Option<FragmentType>)
    ensures r.Some? ==> r.value in {Whitespace, Identifier, Literal}
  {
    if i == 32 || i == 9 || i == 10 || i == 13 then Some(Whitespace)
    else if MatchesIdentifierClass(i) then Some(Identifier)
    else if MatchesDigitClass(i) then Some(Literal)
    else None
  }

  /** Builds `charTypes` as the source does: 128 entries filled in a loop. */
  method BuildCharTypes() returns (table: array<Option<FragmentType>>)
    ensures table.Length == 128
    ensures forall i :: 0 <= i < 128 ==> table[i] == CharType(i)
  {
    table := new Option<FragmentType>[128](_ => None);
    for i := 0 to 128
      invariant forall j :: 0 <= j < i ==> table[j] == CharType(j)
    {
      table[i] := CharType(i);
    }
  }

  /** How `charTypes` compares with the lexer's `charFlags`: the Identifier entries are
      the identifier-start characters and the Literal entries the decimal digits, while
      its Whitespace entries are only four of the six characters `charFlags` flags as
      whitespace: vertical tab and form feed are whitespace there and unset here. */
  lemma CharTypesAgainstCharFlags(c: char)
    requires c as int < 128
    ensures CharType(c as int) == Some(Identifier) <==> HasFlag(c, IdentifierStartFlag)
    ensures CharType(c as int) == Some(Literal) <==> HasFlag(c, DecimalDigitFlag)
    ensures CharType(c as int) == Some(Whitespace) ==> HasFlag(c, WhitespaceFlag)
    ensures HasFlag(c, WhitespaceFlag) && CharType(c as int) != Some(Whitespace) <==> (c as int == 11 || c as int == 12)
  {
    WhitespaceFlagExactly(c);
    DigitFlags(c);
    IdentifierFlags(c);
  }

  // ---- The regular-expression branch ----

  /** What the demo `getNextFragment` returns: a type, a value (`undefined` past the end
      of input is `None`), and the span. */
  datatype DemoFragment = DemoFragment(types: set<FragmentType>, value: Option<string>, start: nat, end: nat)

  predicate IsRegexFlag(c: char) {
    c in "gimsuy"
  }

  /** What the body loop copies from `i` on, where it stops, and whether an unclassed
      slash stopped it. */
  datatype RegexBody = RegexBody(text: string, end: nat, closed: bool)

  /** The body loop as a recursion: a slash outside a class closes the literal (and is
      copied); `[` and `]` open and close a class; a backslash is dropped and the
      character after it copied whatever it is, read as "undefined" past the end. */
  function BodyFrom(s: string, i: nat, inClass: bool): (r: RegexBody)
    requires i <= |s| + 1
    ensures i <= r.end <= |s| + 1
    ensures r.closed ==> i < r.end
    decreases |s| + 1 - i
  {
    if i >= |s| then RegexBody("", i, false)
    else if s[i] == '/' && !inClass then RegexBody("/", i + 1, true)
    else if s[i] == '\\' then
      var rest := BodyFrom(s, i + 2, inClass);
      RegexBody(At(s, i + 1) + rest.text, rest.end, rest.closed)
    else
      var rest := BodyFrom(s, i + 1, if s[i] == '[' then true else if s[i] == ']' then false else inClass);
      RegexBody([s[i]] + rest.text, rest.end, rest.closed)
  }

  /** A closed body ends just past a slash inside the input; an open one ran to the
      end of input. */
  lemma {:induction false} BodyEnd(s: string, i: nat, inClass: bool)
    requires i <= |s| + 1
    ensures var r := BodyFrom(s, i, inClass);
      (r.closed ==> r.end <= |s| && s[r.end - 1] == '/') && (!r.closed ==> r.end >= |s|)
    decreases |s| + 1 - i
  {
    if i < |s| && !(s[i] == '/' && !inClass) {
      if s[i] == '\\' {
        BodyEnd(s, i + 2, inClass);
      } else {
        BodyEnd(s, i + 1, if s[i] == '[' then true else if s[i] == ']' then false else inClass);
      }
    }
  }

  /** The text of a closed body ends with its closing slash. */
  lemma {:induction false} BodyTextEnd(s: string, i: nat, inClass: bool)
    requires i <= |s| + 1
    ensures var r := BodyFrom(s, i, inClass); r.closed ==> |r.text| >= 1 && r.text[|r.text| - 1] == '/'
    decreases |s| + 1 - i
  {
    if i < |s| && !(s[i] == '/' && !inClass) {
      var j, c := if s[i] == '\\' then i + 2 else i + 1, if s[i] == '[' then true else if s[i] == ']' then false else inClass;
      BodyTextEnd(s, j, c);
      var rest := BodyFrom(s, j, c);
      assert BodyFrom(s, i, inClass).text == (if s[i] == '\\' then At(s, i + 1) else [s[i]]) + rest.text;
    }
  }

  /** Without backslashes the body is copied verbatim. */
  lemma {:induction false} BodyVerbatim(s: string, i: nat, inClass: bool)
    requires i <= |s| + 1
    requires forall k :: i <= k < |s| ==> s[k] != '\\'
    ensures var r := BodyFrom(s, i, inClass); r.end <= |s| ==> r.text == s[i..r.end]
    decreases |s| + 1 - i
  {
    if i < |s| && !(s[i] == '/' && !inClass) {
      var inner := if s[i] == '[' then true else if s[i] == ']' then false else inClass;
      BodyVerbatim(s, i + 1, inner);
      var rest := BodyFrom(s, i + 1, inner);
      if rest.end <= |s| {
        assert s[i..rest.end] == [s[i]] + s[i + 1..rest.end];
      }
    }
  }

  /** Inside a class a slash is copied like any other character: a body read from
      inside a class closes only after some `]` has ended the class. */
  lemma {:induction false} ClassClosesOnlyAfterBracket(s: string, i: nat)
    requires i <= |s| + 1
    ensures var r := BodyFrom(s, i, true); r.closed ==> exists k :: i <= k < r.end - 1 && s[k] == ']'
    decreases |s| + 1 - i
  {
    if i < |s| {
      if s[i] == '\\' {
        ClassClosesOnlyAfterBracket(s, i + 2);
      } else if s[i] == ']' {
        assert BodyFrom(s, i, true).end == BodyFrom(s, i + 1, false).end;
      } else {
        ClassClosesOnlyAfterBracket(s, i + 1);
      }
    }
  }

  /** Where the flag loop stops. */
  function FlagsEnd(s: string, i: nat): (r: nat)
    ensures i <= r && (r > i ==> r <= |s|)
    ensures forall k :: i <= k < r ==> k < |s| && IsRegexFlag(s[k])
    ensures r < |s| ==> !IsRegexFlag(s[r])
    decreases |s| - i
  {
    if i < |s| && IsRegexFlag(s[i]) then FlagsEnd(s, i + 1) else i
  }

  /** The value a regular expression at `e` gets: the opening slash, the body, then the
      flags. */
  function RegexValue(s: string, e: nat): string
    requires e < |s|
  {
    var b := BodyFrom(s, e + 1, false);
    "/" + b.text + (if b.end <= |s| then s[b.end..FlagsEnd(s, b.end)] else "")
  }

  /** One pass of the body loop at `end`: the slash test, the class brackets, the
      backslash skip, then the character copied. */
  method BodyStep(s: string, end: nat, inClass: bool) returns (piece: string, next: nat, nextClass: bool, closes: bool)
    requires end < |s|
    ensures closes <==> s[end] == '/' && !inClass
    ensures end < next <= |s| + 1
    ensures closes ==> BodyFrom(s, end, inClass) == RegexBody(piece, next, true)
    ensures !closes ==>
      BodyFrom(s, end, inClass).text == piece + BodyFrom(s, next, nextClass).text
      && BodyFrom(s, end, inClass).end == BodyFrom(s, next, nextClass).end
  {
    next, nextClass, closes := end, inClass, false;
    if s[next] == '/' && !nextClass {
      return "/", next + 1, nextClass, true;
    } else if s[next] == '[' {
      nextClass := true;
    } else if s[next] == ']' {
      nextClass := false;
    } else if s[next] == '\\' {
      next := next + 1;
    }
    piece := At(s, next);
    next := next + 1;
  }

  /** The body loop from `i`: what it copies and where it stops. */
  method ScanBody(s: string, i: nat) returns (text: string, end: nat)
    requires i <= |s|
    ensures text == BodyFrom(s, i, false).text && end == BodyFrom(s, i, false).end
  {
    ghost var body := BodyFrom(s, i, false);
    text := "";
    end := i;
    var inClass := false;
    while end < |s|
      invariant i <= end <= |s| + 1
      invariant body.text == text + BodyFrom(s, end, inClass).text
      invariant body.end == BodyFrom(s, end, inClass).end
      decreases |s| + 1 - end
    {
      var piece, next, nextClass, closes := BodyStep(s, end, inClass);
      assert body.text == text + (piece + (if closes then "" else BodyFrom(s, next, nextClass).text));
      text := text + piece;
      end, inClass := next, nextClass;
      if closes {
        break;
      }
    }
  }

  /** The flag loop from `i`. */
  method ScanFlags(s: string, i: nat) returns (flags: string, end: nat)
    ensures end == FlagsEnd(s, i)
    ensures flags == if i <= |s| then s[i..end] else ""
  {
    flags := "";
    end := i;
    while end < |s| && IsRegexFlag(s[end])
      invariant i <= end && (end > i ==> end <= |s|)
      invariant FlagsEnd(s, i) == FlagsEnd(s, end)
      invariant flags == if i <= |s| then s[i..end] else ""
      decreases |s| - end
    {
      assert s[i..end + 1] == s[i..end] + [s[end]];
      flags := flags + [s[end]];
      end := end + 1;
    }
  }

  /** The regular-expression branch at `e` (where the demo reads a `/`). It never
      reports an error: an unclosed literal takes the rest of the input. */
  method ScanRegex(s: string, e: nat) returns (f: DemoFragment)
    requires e < |s| && s[e] == '/'
    ensures f.types == {Literal} && f.start == e
    ensures f.end == FlagsEnd(s, BodyFrom(s, e + 1, false).end)
    ensures f.value == Some(RegexValue(s, e))
  {
    var text, bodyEnd := ScanBody(s, e + 1);
    var flags, end := ScanFlags(s, bodyEnd);
    f := DemoFragment({Literal}, Some("/" + text + flags), e, end);
  }

  /** A slash inside a class does not close the literal; the flag after it is taken. */
  lemma SlashInClass()
    ensures BodyFrom("/[/]/g", 1, false) == RegexBody("[/]/", 5, true)
    ensures FlagsEnd("/[/]/g", 5) == 6
    ensures RegexValue("/[/]/g", 0) == "/[/]/g"
  {
  }

  /** An escaped slash does not close the literal, and its backslash is dropped. */
  lemma EscapedSlash()
    ensures BodyFrom("/a\\/b/", 1, false) == RegexBody("a/b/", 6, true)
  {
  }

  /** A backslash at the end of input copies "undefined" and leaves the end one past
      the input. */
  lemma TrailingBackslash()
    ensures BodyFrom("/\\", 1, false) == RegexBody("undefined", 3, false)
  {
  }

  // ---- The fallback ----

  /** No branch matched: a fragment of no type spanning the one character at `e` (whose
      value is `undefined` at the end of input). */
  function Fallback(s: string, e: nat): (f: DemoFragment)
    ensures f.types == {} && f.start == e && f.end == e + 1
    ensures f.value.Some? <==> e < |s|
    ensures e < |s| ==> f.value.value == s[e..e + 1]
  {
    DemoFragment({}, if e < |s| then Some([s[e]]) else None, e, e + 1)
  }

  /** The demo `getNextFragment` at `e`, with the type accumulated before these branches
      as a parameter: a slash starts a regular expression, otherwise no type so far gives
      the fallback, and anything else returns nothing. */
  method DemoNextFragment(s: string, e: nat, types: set<FragmentType>) returns (r: Option<DemoFragment>)
    ensures e < |s| && s[e] == '/' ==>
      r.Some? && r.value.types == {Literal} && r.value.value == Some(RegexValue(s, e))
      && r.value.end == FlagsEnd(s, BodyFrom(s, e + 1, false).end)
    ensures !(e < |s| && s[e] == '/') ==> r == if types == {} then Some(Fallback(s, e)) else None
    ensures r.Some? ==> r.value.start == e && r.value.end > e
  {
    if e < |s| && s[e] == '/' {
      var f := ScanRegex(s, e);
      return Some(f);
    }
    if types == {} {
      return Some(Fallback(s, e));
    }
    r := None;
  }
}
