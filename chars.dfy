/** The character classifier of lexer.ts: the 128-entry `charFlags` table and the
    predicates built on it. */
module CharClass {

  const IdentifierStartFlag: bv8 := 1
  const IdentifierPartFlag: bv8 := 2
  const DecimalDigitFlag: bv8 := 4
  const HexDigitFlag: bv8 := 8
  const OctalDigitFlag: bv8 := 16
  const BinaryDigitFlag: bv8 := 32
  const WhitespaceFlag: bv8 := 64
  const LineTerminatorFlag: bv8 := 128

  // The regular-expression tests the table is built from, on a char code.

  /** `/[a-zA-Z$_]/` */
  predicate MatchesIdentifierClass(i: int) {
    (97 <= i <= 122) || (65 <= i <= 90) || i == 36 || i == 95
  }

  /** `/[0-9]/` */
  predicate MatchesDigitClass(i: int) {
    48 <= i <= 57
  }

  /** `/[0-1]/` */
  predicate MatchesBinaryClass(i: int) {
    i == 48 || i == 49
  }

  /** `/\s/` on a one-character string whose code is below 128: tab, line feed,
      vertical tab, form feed, carriage return and space. */
  predicate MatchesSpaceClass(i: int) {
    (9 <= i <= 13) || i == 32
  }

  /** `/\n|\r|\u2028|\u2029/` */
  predicate MatchesLineTerminatorClass(i: int) {
    i == 10 || i == 13 || i == 0x2028 || i == 0x2029
  }

  /** The flags the table-building loop gives to code `i`. */
  function AsciiFlags(i: int): bv8 {
    (if MatchesIdentifierClass(i) then IdentifierStartFlag | IdentifierPartFlag else 0)
    | (if MatchesDigitClass(i) then DecimalDigitFlag | HexDigitFlag | OctalDigitFlag else 0)
    | (if MatchesBinaryClass(i) then BinaryDigitFlag else 0)
    | (if MatchesSpaceClass(i) then WhitespaceFlag else 0)
    | (if MatchesLineTerminatorClass(i) then LineTerminatorFlag else 0)
  }

  /** Builds `charFlags` as the source does: a 128-entry byte array filled in a loop,
      each entry or-ing in the flag of every class test its character passes. */
  method BuildCharFlags() returns (table: array<bv8>)
    ensures fresh(table) && table.Length == 128
    ensures forall i :: 0 <= i < 128 ==> table[i] == AsciiFlags(i)
  {
    table := new bv8[128];
    for i := 0 to 128
      invariant forall k :: 0 <= k < i ==> table[k] == AsciiFlags(k)
    {
      var flags: bv8 := 0;
      if MatchesIdentifierClass(i) { flags := flags | IdentifierStartFlag | IdentifierPartFlag; }
      if MatchesDigitClass(i) { flags := flags | DecimalDigitFlag | HexDigitFlag | OctalDigitFlag; }
      if MatchesBinaryClass(i) { flags := flags | BinaryDigitFlag; }
      if MatchesSpaceClass(i) { flags := flags | WhitespaceFlag; }
      if MatchesLineTerminatorClass(i) { flags := flags | LineTerminatorFlag; }
      table[i] := flags;
    }
  }

  /** `charFlags[c]` as JavaScript evaluates it: past the table the entry is
      `undefined`, which behaves as no flag in `&`. */
  function CharFlags(c: char): bv8 {
    if c as int < 128 then AsciiFlags(c as int) else 0
  }

  predicate HasFlag(c: char, flag: bv8) {
    CharFlags(c) & flag != 0
  }

  // The digit tests the source calls but does not define, read as tests of the table's
  // flags. Those flags are set on `0`-`9` and nothing else (`DigitFlags`), so each test
  // is written as that range.

  predicate IsDecimalDigit(c: char) { '0' <= c <= '9' }
  predicate IsHexDigit(c: char) { '0' <= c <= '9' }
  predicate IsOctalDigit(c: char) { '0' <= c <= '9' }

  /** The whitespace test of the whitespace-skip loop: the table for ASCII, and the
      `isUnicodeWhitespace` stub (always false) beyond. */
  predicate IsSkippableWhitespace(c: char) {
    if c as int < 128 then HasFlag(c, WhitespaceFlag) else IsUnicodeWhitespace(c as int)
  }

  /** `isUnicodeWhitespace`: a stub that accepts nothing. */
  predicate IsUnicodeWhitespace(code: int) {
    false
  }

  /** `isWhitespace`: the table below 128, a fixed list of Unicode spaces above. */
  predicate IsWhitespace(code: int) {
    if 0 <= code < 128 then AsciiFlags(code) & WhitespaceFlag != 0
    else
      code == 0x20 || code == 0x09 || code == 0x0b || code == 0x0c || code == 0xa0
      || (0x1680 <= code <= 0x180e) || (0x2000 <= code <= 0x200a)
      || code == 0x202f || code == 0x205f || code == 0x3000 || code == 0xfeff
  }

  /** `isUnicodeLineTerminator` */
  predicate IsUnicodeLineTerminator(code: int) {
    code == 0x0a || code == 0x0d || code == 0x2028 || code == 0x2029
  }

  /** `isASCIIIdentifierStart` */
  predicate IsAsciiIdentifierStart(c: char) {
    MatchesIdentifierClass(c as int)
  }

  /** `isIdentifierStart`: the table below 128; the Unicode path is a stub returning false. */
  predicate IsIdentifierStart(c: char) {
    if c as int < 128 then HasFlag(c, IdentifierStartFlag) else false
  }

  /** `isIdentifierPart`: the table below 128; the Unicode path is a stub returning false. */
  predicate IsIdentifierPart(c: char) {
    if c as int < 128 then HasFlag(c, IdentifierPartFlag) else false
  }

  // ---- Properties of the table ----

  lemma WhitespaceFlagExactly(c: char)
    ensures HasFlag(c, WhitespaceFlag) <==> (9 <= c as int <= 13 || c == ' ')
    ensures IsSkippableWhitespace(c) <==> HasFlag(c, WhitespaceFlag)
  {
  }

  /** Line terminators in the table are exactly line feed and carriage return, and both
      are also whitespace; no character at or above 128 has any flag. */
  lemma LineTerminatorFlagExactly(c: char)
    ensures HasFlag(c, LineTerminatorFlag) <==> (c == '\n' || c == '\r')
    ensures HasFlag(c, LineTerminatorFlag) ==> HasFlag(c, WhitespaceFlag)
    ensures c as int >= 128 ==> CharFlags(c) == 0
  {
  }

  /** Identifier start and part coincide, and digits are neither. */
  lemma IdentifierFlags(c: char)
    ensures IsIdentifierStart(c) <==> IsIdentifierPart(c)
    ensures IsIdentifierPart(c) <==> MatchesIdentifierClass(c as int)
    ensures HasFlag(c, DecimalDigitFlag) ==> !IsIdentifierPart(c)
    ensures IsAsciiIdentifierStart(c) <==> IsIdentifierStart(c)
  {
  }

  /** The decimal, hex and octal flags are given to exactly the ten decimal digits, so
      the three digit tests are the flag tests. */
  lemma DigitFlags(c: char)
    ensures HasFlag(c, DecimalDigitFlag) <==> IsDecimalDigit(c)
    ensures HasFlag(c, HexDigitFlag) <==> IsHexDigit(c)
    ensures HasFlag(c, OctalDigitFlag) <==> IsOctalDigit(c)
    ensures HasFlag(c, BinaryDigitFlag) <==> (c == '0' || c == '1')
  {
  }

  /** The whitespace-skip loop and `isWhitespace` disagree on non-ASCII spaces:
      U+00A0 is whitespace for `isWhitespace` but the skip loop stops at it. */
  lemma NoBreakSpaceDisagreement()
    ensures IsWhitespace(0xa0) && !IsSkippableWhitespace('\U{00A0}')
  {
  }

  /** On ASCII, `isUnicodeLineTerminator` agrees with the table. */
  lemma LineTerminatorAgreement(c: char)
    requires c as int < 128
    ensures IsUnicodeLineTerminator(c as int) <==> HasFlag(c, LineTerminatorFlag)
  {
  }
}
