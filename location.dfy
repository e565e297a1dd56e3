/** The location tracker of lexer.ts: a line/column pair packed into one 32-bit
    word, and the line/column accounting over a stretch of source. */
module Location {
  import opened CharClass

  const LineBits := 20
  const ColumnBits := 12
  const LineMask: bv32 := (1 << 20) - 1
  const ColumnMask: bv32 := (1 << 12) - 1

  /** `(line << COLUMN_BITS) | column`. JavaScript's `<<` and `|` work on the 32-bit
      two's-complement forms of their operands; the result is given as its bit pattern. */
  function PackLocation(line: bv32, column: bv32): bv32 {
    (line << 12) | column
  }

  /** The line field of a packed location, through the line mask. */
  function LocationLine(loc: bv32): bv32 {
    (loc >> 12) & LineMask
  }

  /** The column field of a packed location, through the column mask. */
  function LocationColumn(loc: bv32): bv32 {
    loc & ColumnMask
  }

  /** Within the field widths, packing loses nothing. */
  lemma PackRoundTrip(line: bv32, column: bv32)
    requires line < 1 << 20 && column < 1 << 12
    ensures LocationLine(PackLocation(line, column)) == line
    ensures LocationColumn(PackLocation(line, column)) == column
  {
  }

  /** Distinct in-range pairs pack to distinct words. */
  lemma PackInjective(l1: bv32, c1: bv32, l2: bv32, c2: bv32)
    requires l1 < 1 << 20 && c1 < 1 << 12 && l2 < 1 << 20 && c2 < 1 << 12
    requires PackLocation(l1, c1) == PackLocation(l2, c2)
    ensures l1 == l2 && c1 == c2
  {
    PackRoundTrip(l1, c1);
    PackRoundTrip(l2, c2);
  }

  /** Outside the field widths, packing is lossy: a column of 4096 sets the lowest
      line bit, and line 2^20 wraps to line 0. */
  lemma PackOverflow()
    ensures PackLocation(2, 4096) == PackLocation(3, 0)
    ensures PackLocation(1, 4096) == PackLocation(1, 0)
    ensures PackLocation(1 << 20, 5) == PackLocation(0, 5)
  {
  }

  /** From line 2^19 on, the packed word has its sign bit set, so as a JavaScript
      number the packed location is negative. */
  lemma PackSignBit(line: bv32, column: bv32)
    requires 1 << 19 <= line < 1 << 20 && column < 1 << 12
    ensures PackLocation(line, column) & 0x8000_0000 != 0
  {
  }

  /** Line and column after reading `t`, starting from `line`/`column`: a character in
      `breaks` moves to the next line and column 1, any other character moves one column on. */
  function LineColumnAfter(t: string, line: int, column: int, breaks: set<char>): (r: (int, int))
    decreases |t|
  {
    if t == [] then (line, column)
    else
      var (l, c) := LineColumnAfter(t[..|t| - 1], line, column, breaks);
      if t[|t| - 1] in breaks then (l + 1, 1) else (l, c + 1)
  }

  /** Reading one more character of `s` after `s[a..e)`. */
  lemma LineColumnSnoc(s: string, a: nat, e: nat, line: int, column: int, breaks: set<char>)
    requires a <= e < |s|
    ensures LineColumnAfter(s[a..e + 1], line, column, breaks) ==
      var (l, c) := LineColumnAfter(s[a..e], line, column, breaks);
      if s[e] in breaks then (l + 1, 1) else (l, c + 1)
  {
    assert s[a..e + 1][..e - a] == s[a..e];
  }

  /** Number of characters of `t` in `breaks`. */
  function CountIn(t: string, breaks: set<char>): (n: nat)
    ensures n <= |t|
  {
    if t == [] then 0 else (if t[0] in breaks then 1 else 0) + CountIn(t[1..], breaks)
  }

  lemma {:induction false} CountInSnoc(t: string, x: char, breaks: set<char>)
    ensures CountIn(t + [x], breaks) == CountIn(t, breaks) + (if x in breaks then 1 else 0)
  {
    if t != [] {
      assert (t + [x])[1..] == t[1..] + [x];
      CountInSnoc(t[1..], x, breaks);
    }
  }

  /** The line rises by exactly one per break character read. */
  lemma {:induction false} LineCount(t: string, line: int, column: int, breaks: set<char>)
    ensures LineColumnAfter(t, line, column, breaks).0 == line + CountIn(t, breaks)
  {
    if t != [] {
      var p := t[..|t| - 1];
      LineCount(p, line, column, breaks);
      assert p + [t[|t| - 1]] == t;
      CountInSnoc(p, t[|t| - 1], breaks);
    }
  }

  /** With no break character, only the column moves: by the length read. */
  lemma {:induction false} ColumnWithoutBreak(t: string, line: int, column: int, breaks: set<char>)
    requires forall k :: 0 <= k < |t| ==> t[k] !in breaks
    ensures LineColumnAfter(t, line, column, breaks) == (line, column + |t|)
  {
    if t != [] {
      ColumnWithoutBreak(t[..|t| - 1], line, column, breaks);
    }
  }

  /** After the last break character, at index `k`, the column restarts at 1 and counts
      the characters after it. */
  lemma {:induction false} ColumnAfterLastBreak(t: string, k: nat, line: int, column: int, breaks: set<char>)
    requires k < |t| && t[k] in breaks
    requires forall j :: k < j < |t| ==> t[j] !in breaks
    ensures LineColumnAfter(t, line, column, breaks).1 == |t| - k
  {
    if k < |t| - 1 {
      ColumnAfterLastBreak(t[..|t| - 1], k, line, column, breaks);
    }
  }

  /** The break characters of `updateLineAndColumn`. */
  const UnicodeLineTerminators: set<char> := {'\n', '\r', '\U{2028}', '\U{2029}'}

  lemma UnicodeLineTerminatorsExactly(c: char)
    ensures c in UnicodeLineTerminators <==> IsUnicodeLineTerminator(c as int)
  {
  }

  /** `updateLineAndColumn`: the line and column after reading `source[start..end)`.
      A position past the end reads as NaN, which is no line terminator. The source
      assigns the results to its by-value parameters, so its callers see no change;
      here they are returned. */
  method UpdateLineAndColumn(s: string, start: nat, end: nat, line: int, column: int)
    returns (newLine: int, newColumn: int)
    requires start <= end
    ensures end <= |s| ==>
      (newLine, newColumn) == LineColumnAfter(s[start..end], line, column, UnicodeLineTerminators)
    ensures start <= |s| < end ==>
      newLine == LineColumnAfter(s[start..], line, column, UnicodeLineTerminators).0
      && newColumn == LineColumnAfter(s[start..], line, column, UnicodeLineTerminators).1 + (end - |s|)
    ensures |s| < start ==> newLine == line && newColumn == column + (end - start)
  {
    newLine, newColumn := line, column;
    for i := start to end
      invariant i <= |s| ==>
        (newLine, newColumn) == LineColumnAfter(s[start..i], line, column, UnicodeLineTerminators)
      invariant start <= |s| < i ==>
        newLine == LineColumnAfter(s[start..], line, column, UnicodeLineTerminators).0
        && newColumn == LineColumnAfter(s[start..], line, column, UnicodeLineTerminators).1 + (i - |s|)
      invariant |s| < start ==> newLine == line && newColumn == column + (i - start)
    {
      if i < |s| {
        assert s[start..i + 1][..i - start] == s[start..i];
      }
      if i < |s| && IsUnicodeLineTerminator(s[i] as int) {
        newLine := newLine + 1;
        newColumn := 1;
      } else {
        newColumn := newColumn + 1;
      }
      if i == |s| {
        assert s[start..i] == s[start..];
      }
    }
  }
}
