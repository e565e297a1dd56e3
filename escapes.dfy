/** The escape decoder of lexer.ts (`handleStringEscape`). */
module Escapes {
  import opened Fragments
  import opened CharClass

  /** What an escape decodes to. Single-character escapes and `\8`/`\9` give the escaped
      letter itself; `\xHH`, `\uHHHH` and octal escapes give a code unit
      (`String.fromCharCode`); `\u{...}` gives a code point (`String.fromCodePoint`);
      a line continuation gives nothing. */
  datatype Decoded = Letter(c: char) | CodeUnit(unit: nat) | CodePoint(point: nat) | Nothing

  /** The code values a decoded escape appends to a literal's value. */
  function DecodedUnits(d: Decoded): seq<int> {
    match d
    case Letter(c) => [c as int]
    case CodeUnit(u) => [u]
    case CodePoint(p) => [p]
    case Nothing => []
  }

  /** `' " \\ b f n r t v`: escapes that decode to the escaped letter. */
  predicate IsSingleCharEscape(c: char) {
    c == '\'' || c == '"' || c == '\\' || c == 'b' || c == 'f' || c == 'n' || c == 'r' || c == 't' || c == 'v'
  }

  predicate IsOctalEscapeStart(c: char) {
    '0' <= c <= '7'
  }

  const MaxCodePoint := 0x10ffff

  /** Escaped characters the decoder has a case for. */
  predicate IsListedEscape(c: char) {
    IsSingleCharEscape(c) || c == 'x' || c == 'u' || IsOctalEscapeStart(c)
    || c == '8' || c == '9' || IsUnicodeLineTerminator(c as int)
  }

  /** `parseInt(c, 16)` of one hex digit. */
  function HexDigitValue(c: char): nat {
    if '0' <= c <= '9' then c as int - '0' as int
    else if 'a' <= c <= 'f' then c as int - 'a' as int + 10
    else if 'A' <= c <= 'F' then c as int - 'A' as int + 10
    else 0
  }

  /** The number whose hex digits are `t`, most significant first. */
  function HexValue(t: string): nat {
    if t == [] then 0 else HexValue(t[..|t| - 1]) * 16 + HexDigitValue(t[|t| - 1])
  }

  /** The number whose octal digits are `t` (`octalValue * 8 + parseInt(c)`). */
  function OctalValue(t: string): nat {
    if t == [] then 0 else OctalValue(t[..|t| - 1]) * 8 + DigitValue(t[|t| - 1])
  }

  /** `parseInt(c)` of one decimal digit. */
  function DigitValue(c: char): nat {
    if '0' <= c <= '9' then c as int - '0' as int else 0
  }

  /** Every character of `s[a..e)` is a hex digit. */
  predicate AllHex(s: string, a: int, e: int) {
    0 <= a <= e <= |s| && forall k :: a <= k < e ==> IsHexDigit(s[k])
  }

  /** Every character of `s[a..e)` is an octal digit. */
  predicate AllOctal(s: string, a: int, e: int) {
    0 <= a <= e <= |s| && forall k :: a <= k < e ==> IsOctalDigit(s[k])
  }

  /** What an escape may consume after its backslash and first character: digits of a
      hex or octal escape and the braces of `\u{...}`. */
  predicate IsEscapeTail(c: char) {
    IsHexDigit(c) || c == '{' || c == '}'
  }

  /** `s[j]` is the `}` that closes a `\u{` opened at `start`, after a run of hex digits
      whose value is at most 0x10FFFF. */
  predicate ClosesBracedEscape(s: string, start: int, j: int)
    requires 0 <= start
  {
    start + 3 <= j < |s| && s[j] == '}' && AllHex(s, start + 3, j)
    && HexValue(s[start + 3..j]) <= MaxCodePoint
  }

  /** A hex value never shrinks as digits are added. */
  lemma {:induction false} HexValuePrefix(t: string, k: nat)
    requires k <= |t|
    ensures HexValue(t[..k]) <= HexValue(t)
  {
    if k < |t| {
      var p := t[..|t| - 1];
      assert p[..k] == t[..k];
      HexValuePrefix(p, k);
      assert HexValue(t) == HexValue(p) * 16 + HexDigitValue(t[|t| - 1]);
      assert HexValue(p) <= HexValue(p) * 16;
    } else {
      assert t[..k] == t;
    }
  }

  lemma HexDigitIsNotBrace(c: char)
    requires IsHexDigit(c)
    ensures c != '}'
  {
    DigitFlags(c);
  }

  lemma OctalValueSnoc(s: string, a: nat, e: nat)
    requires a <= e < |s|
    ensures OctalValue(s[a..e + 1]) == OctalValue(s[a..e]) * 8 + DigitValue(s[e])
  {
    assert s[a..e + 1][..e - a] == s[a..e];
  }

  lemma HexValueSnoc(s: string, a: nat, e: nat)
    requires a <= e < |s|
    ensures HexValue(s[a..e + 1]) == HexValue(s[a..e]) * 16 + HexDigitValue(s[e])
  {
    assert s[a..e + 1][..e - a] == s[a..e];
  }

  /** One or two octal-flagged digits never exceed 255; three exceed it whenever the
      first is 4 or more. Because the table flags 8 and 9 as octal, three digits can
      exceed it from a first digit of 3 as well (`\399` is 273). */
  lemma {:induction false} OctalBound(t: string)
    requires 1 <= |t| <= 3 && IsOctalEscapeStart(t[0]) && AllOctal(t, 0, |t|)
    ensures |t| <= 2 ==> OctalValue(t) <= 255
    ensures |t| == 3 && t[0] >= '4' ==> OctalValue(t) > 255
  {
    forall k | 0 <= k < |t| ensures DigitValue(t[k]) <= 9 {
      DigitFlags(t[k]);
    }
    var d0 := DigitValue(t[0]);
    assert OctalValue(t[..1]) == d0 by {
      assert t[..1][..0] == [];
    }
    if |t| >= 2 {
      assert t[..2][..1] == t[..1];
      assert OctalValue(t[..2]) == d0 * 8 + DigitValue(t[1]);
    }
    if |t| == 3 {
      assert t[..2] == t[..|t| - 1];
      assert OctalValue(t) == (d0 * 8 + DigitValue(t[1])) * 8 + DigitValue(t[2]);
    } else if |t| == 1 {
      assert t[..1] == t;
    } else {
      assert t[..2] == t;
    }
  }

  /** `\399`: the octal-digit test admits `8` and `9`, so all three digits are taken;
      their value, 273, is over 255, which is exactly the case in which the decoder
      below fails with InvalidOctalEscape outside strict mode. */
  lemma OctalEscape399(s: string, start: nat)
    requires start + 4 <= |s| && s[start + 1..start + 4] == "399"
    ensures IsOctalEscapeStart(s[start + 1])
    ensures start + 3 < |s| && AllOctal(s, start + 1, start + 4) && OctalValue(s[start + 1..start + 4]) > 255
  {
    assert s[start + 1] == '3' && s[start + 2] == '9' && s[start + 3] == '9' by {
      assert s[start + 1..start + 4][0] == s[start + 1];
      assert s[start + 1..start + 4][1] == s[start + 2];
      assert s[start + 1..start + 4][2] == s[start + 3];
    }
    assert "399"[..2] == "39";
    assert "39"[..1] == "3";
    assert "3"[..0] == "";
  }

  /** `handleStringEscape(source, start)`: decodes the escape whose backslash is at
      `start`. On failure it returns the start position. `strict` is
      `currentScope?.isStrict`. */
  method HandleStringEscape(s: string, start: nat, strict: bool) returns (r: Result<Decoded>, next: nat)
    ensures r.Err? ==> next == start
    ensures r.Ok? ==> start + 2 <= next <= |s|
    ensures r.Ok? ==> forall k :: start + 2 <= k < next ==> IsEscapeTail(s[k])
    ensures start + 1 >= |s| ==> r == Err(UnterminatedEscape)
    ensures start + 1 < |s| && IsSingleCharEscape(s[start + 1]) ==>
      r == Ok(Letter(s[start + 1])) && next == start + 2
    ensures start + 1 < |s| && (s[start + 1] == '8' || s[start + 1] == '9') ==>
      if strict then r == Err(DigitEscapeInStrictMode)
      else r == Ok(Letter(s[start + 1])) && next == start + 2
    ensures start + 1 < |s| && IsUnicodeLineTerminator(s[start + 1] as int) ==>
      r == Ok(Nothing) && next == start + 2
    ensures start + 1 < |s| && !IsListedEscape(s[start + 1]) ==> r == Err(InvalidEscape)
    // \xHH: the strict bound needs one more character after the escape.
    ensures start + 1 < |s| && s[start + 1] == 'x' ==>
      if start + 3 < |s| && IsHexDigit(s[start + 2]) && IsHexDigit(s[start + 3])
      then r == Ok(CodeUnit(HexValue(s[start + 2..start + 4]))) && next == start + 4
      else r == Err(InvalidHexEscape)
    // \uHHHH, likewise.
    ensures start + 1 < |s| && s[start + 1] == 'u' && !(start + 2 < |s| && s[start + 2] == '{') ==>
      if start + 5 < |s| && AllHex(s, start + 2, start + 6)
      then r == Ok(CodeUnit(HexValue(s[start + 2..start + 6]))) && next == start + 6
      else r == Err(InvalidUnicodeEscape)
    // \u{H...H}: succeeds exactly when a `}` follows a run of hex digits whose value is
    // at most 0x10FFFF.
    ensures start + 2 < |s| && s[start + 1] == 'u' && s[start + 2] == '{' ==>
      (r.Ok? <==> exists j :: ClosesBracedEscape(s, start, j))
    ensures start + 2 < |s| && s[start + 1] == 'u' && s[start + 2] == '{' && r.Ok? ==>
      s[next - 1] == '}' && AllHex(s, start + 3, next - 1)
      && r.value == CodePoint(HexValue(s[start + 3..next - 1]))
      && HexValue(s[start + 3..next - 1]) <= MaxCodePoint
    ensures start + 2 < |s| && s[start + 1] == 'u' && s[start + 2] == '{' && r.Err? ==>
      r.error == InvalidCodePoint || r.error == InvalidUnicodeEscape || r.error == UnterminatedUnicodeEscape
    // Legacy octal: forbidden in strict mode; otherwise up to three digits, at most 255.
    ensures start + 1 < |s| && IsOctalEscapeStart(s[start + 1]) && strict ==>
      r == Err(OctalEscapeInStrictMode)
    ensures start + 1 < |s| && IsOctalEscapeStart(s[start + 1]) && !strict ==>
      (r.Ok? || r == Err(InvalidOctalEscape))
      && (r == Err(InvalidOctalEscape) <==>
            start + 3 < |s| && AllOctal(s, start + 1, start + 4) && OctalValue(s[start + 1..start + 4]) > 255)
    ensures start + 1 < |s| && IsOctalEscapeStart(s[start + 1]) && !strict && r.Ok? ==>
      next <= start + 4 && AllOctal(s, start + 1, next)
      && (next == start + 4 || next == |s| || !IsOctalDigit(s[next]))
      && r.value == CodeUnit(OctalValue(s[start + 1..next])) && OctalValue(s[start + 1..next]) <= 255
  {
    var end := start + 1;
    if end >= |s| {
      return Err(UnterminatedEscape), start;
    }
    var c := s[end];
    if IsSingleCharEscape(c) {
      return Ok(Letter(c)), end + 1;
    } else if c == 'x' {
      if end + 2 < |s| && IsHexDigit(s[end + 1]) && IsHexDigit(s[end + 2]) {
        return Ok(CodeUnit(HexValue(s[end + 1..end + 3]))), end + 3;
      }
      return Err(InvalidHexEscape), start;
    } else if c == 'u' {
      if end + 1 < |s| && s[end + 1] == '{' {
        r, next := DecodeBracedEscape(s, start);
        return;
      }
      if end + 4 < |s| && IsHexDigit(s[end + 1]) && IsHexDigit(s[end + 2])
        && IsHexDigit(s[end + 3]) && IsHexDigit(s[end + 4])
      {
        assert AllHex(s, end + 1, end + 5);
        return Ok(CodeUnit(HexValue(s[end + 1..end + 5]))), end + 5;
      }
      return Err(InvalidUnicodeEscape), start;
    } else if IsOctalEscapeStart(c) {
      if strict {
        return Err(OctalEscapeInStrictMode), start;
      }
      r, next := DecodeOctalEscape(s, start);
      return;
    } else if c == '8' || c == '9' {
      if strict {
        return Err(DigitEscapeInStrictMode), start;
      }
      return Ok(Letter(c)), end + 1;
    } else if IsUnicodeLineTerminator(c as int) {
      return Ok(Nothing), end + 1;
    }
    return Err(InvalidEscape), start;
  }

  /** The `\u{...}` case: accumulates the code point digit by digit, failing as soon as it
      exceeds 0x10FFFF, on a character that is not a hex digit, or at the end of input. */
  method DecodeBracedEscape(s: string, start: nat) returns (r: Result<Decoded>, next: nat)
    requires start + 2 < |s| && s[start + 1] == 'u' && s[start + 2] == '{'
    ensures r.Err? ==> next == start
    ensures r.Err? ==>
      r.error == InvalidCodePoint || r.error == InvalidUnicodeEscape || r.error == UnterminatedUnicodeEscape
    ensures r.Err? ==> forall j :: !ClosesBracedEscape(s, start, j)
    ensures r.Ok? ==>
      start + 4 <= next <= |s| && ClosesBracedEscape(s, start, next - 1)
      && r.value == CodePoint(HexValue(s[start + 3..next - 1]))
  {
    var codePoint: nat := 0;
    var end := start + 3;
    assert s[start + 3..end] == [];
    while end < |s| && s[end] != '}'
      invariant start + 3 <= end <= |s|
      invariant AllHex(s, start + 3, end) && codePoint == HexValue(s[start + 3..end])
      invariant codePoint <= MaxCodePoint
    {
      if IsHexDigit(s[end]) {
        HexValueSnoc(s, start + 3, end);
        codePoint := codePoint * 16 + HexDigitValue(s[end]);
        if codePoint > MaxCodePoint {
          NoCloserAfterOverflow(s, start, end + 1);
          return Err(InvalidCodePoint), start;
        }
        end := end + 1;
      } else {
        NoCloserPastStop(s, start, end);
        return Err(InvalidUnicodeEscape), start;
      }
    }
    if end >= |s| {
      NoCloserPastStop(s, start, end);
      return Err(UnterminatedUnicodeEscape), start;
    }
    assert ClosesBracedEscape(s, start, end);
    return Ok(CodePoint(codePoint)), end + 1;
  }

  /** Once the running value of the digits exceeds 0x10FFFF, no later `}` closes the escape. */
  lemma NoCloserAfterOverflow(s: string, start: nat, e: nat)
    requires start + 3 <= e && AllHex(s, start + 3, e) && HexValue(s[start + 3..e]) > MaxCodePoint
    ensures forall j :: !ClosesBracedEscape(s, start, j)
  {
    forall j | ClosesBracedEscape(s, start, j) ensures false {
      NoBraceInHexRun(s, start + 3, e, j);
      assert s[start + 3..j][..e - (start + 3)] == s[start + 3..e];
      HexValuePrefix(s[start + 3..j], e - (start + 3));
    }
  }

  /** When the digit run stops at `e` on a character that is neither a hex digit nor
      `}`, or at the end of input, no `}` closes the escape. */
  lemma NoCloserPastStop(s: string, start: nat, e: nat)
    requires start + 3 <= e && AllHex(s, start + 3, e)
    requires e < |s| ==> !IsHexDigit(s[e]) && s[e] != '}'
    ensures forall j :: !ClosesBracedEscape(s, start, j)
  {
    forall j | ClosesBracedEscape(s, start, j) ensures false {
      NoBraceInHexRun(s, start + 3, e, j);
    }
  }

  /** A `}` cannot lie inside a run of hex digits. */
  lemma NoBraceInHexRun(s: string, a: nat, e: nat, j: nat)
    requires a <= e <= |s| && AllHex(s, a, e)
    requires a <= j < |s| && s[j] == '}'
    ensures j >= e
  {
    if j < e {
      HexDigitIsNotBrace(s[j]);
    }
  }

  /** The value of one, two or three octal-flagged digits at `a`, and the bound for
      one or two. */
  lemma OctalDigitsValue(s: string, a: nat, e: nat)
    requires a < e <= a + 3 && AllOctal(s, a, e) && IsOctalEscapeStart(s[a])
    ensures e == a + 1 ==> OctalValue(s[a..e]) == DigitValue(s[a])
    ensures e == a + 2 ==> OctalValue(s[a..e]) == DigitValue(s[a]) * 8 + DigitValue(s[a + 1])
    ensures e == a + 3 ==>
      OctalValue(s[a..e]) == (DigitValue(s[a]) * 8 + DigitValue(s[a + 1])) * 8 + DigitValue(s[a + 2])
    ensures e <= a + 2 ==> OctalValue(s[a..e]) <= 255
  {
    OctalValueSnoc(s, a, a);
    if e >= a + 2 {
      OctalValueSnoc(s, a, a + 1);
    }
    if e == a + 3 {
      OctalValueSnoc(s, a, a + 2);
    }
  }

  /** The legacy octal case outside strict mode: up to two more octal digits after the
      first, and a value of at most 255. */
  method DecodeOctalEscape(s: string, start: nat) returns (r: Result<Decoded>, next: nat)
    requires start + 1 < |s| && IsOctalEscapeStart(s[start + 1])
    ensures r.Ok? || r == Err(InvalidOctalEscape)
    ensures r.Err? ==> next == start
    ensures r == Err(InvalidOctalEscape) <==>
      start + 3 < |s| && AllOctal(s, start + 1, start + 4) && OctalValue(s[start + 1..start + 4]) > 255
    ensures r.Ok? ==>
      start + 2 <= next <= start + 4 && next <= |s| && AllOctal(s, start + 1, next)
      && (next == start + 4 || next == |s| || !IsOctalDigit(s[next]))
      && r.value == CodeUnit(OctalValue(s[start + 1..next])) && OctalValue(s[start + 1..next]) <= 255
  {
    var end := start + 1;
    var octalValue := DigitValue(s[end]);
    end := end + 1;
    if end < |s| && IsOctalDigit(s[end]) {
      octalValue := octalValue * 8 + DigitValue(s[end]);
      end := end + 1;
      if end < |s| && IsOctalDigit(s[end]) {
        octalValue := octalValue * 8 + DigitValue(s[end]);
        end := end + 1;
      }
    }
    OctalDigitsValue(s, start + 1, end);
    if octalValue > 255 {
      return Err(InvalidOctalEscape), start;
    }
    return Ok(CodeUnit(octalValue)), end;
  }
}
