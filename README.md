# esquick tokenizer, modelled in Dafny

esquick is a hand-written ECMAScript tokenizer. Its core is `getNextFragment` in
`lexer.ts`. Given the source text and a start index, it returns the next *fragment*:
a bitmask type, a value string, a span, and flags for surrounding comments, escapes and
cooked template text. On a lexer error it reports a diagnostic and returns `null`.
`demo.ts` adds a second `getNextFragment`, which handles regular-expression literals
and the no-match fallback, and a second ASCII classification table, `charTypes`.

This project models that core as Dafny methods over `s: string` and an index, one
module per part of the lexer:

- `Fragments` (fragments.dfy): fragment kinds, fragments, errors, the parser options
  (`LexContext`), the keyword/operator/punctuator tables, the reserved-word sets, and
  `At`, JavaScript's `source[i]` with `"undefined"` past the end.
- `CharClass` (chars.dfy): the `charFlags` table and the classification predicates.
- `Location` (location.dfy): line/column packing into a 32-bit word, and
  `updateLineAndColumn`.
- `Escapes` (escapes.dfy): `handleStringEscape`.
- `Trivia` (trivia.dfy): the whitespace skip, the hashbang, line, block and HTML-like
  comments, and the look-ahead for a comment after a fragment.
- `Identifiers`, `Numbers`, `Literals` (strings and templates), `Operators`: the
  token branches.
- `Lexer` (lexer.dfy): the dispatcher. It covers the incremental cache, the branch
  order and the common tail that builds the fragment.
- `Demo` (demo.dfy): `charTypes`, the regular-expression scanner and the fallback.

Every loop of the source is a `while` or `for` loop with invariants. Most scanning
loops are proved against a recursive reference function that says where the loop
stops or what it computes: `WhitespaceEnd`, `PartRunEnd`, `DigitsEnd`, `FractionStop`,
`DecimalRunEnd`, `StringClose`, `PlainString`, `TemplateClose`, `PlainTemplate`, `GreedyEnd`,
`BodyFrom`, `FlagsEnd`, `HexValue`, `OctalValue` or `LineColumnAfter`. The ensures
clauses of those functions and the lemmas beside them state what they mean. The
others state their result directly: the comment loops by the first closer or line
feed, and the two table-building `for` loops by the class of each entry. The number
branch as a whole has a reference definition, `NumberLiteral`, built from the stops
of its loops.

The inputs that the source reads from undeclared globals are explicit parameters:
- `strict`, `moduleCode`, `annexB`, `incremental` and `needsEscapeDecoding` (`LexContext`);
- the three tables (`Tables`). `DemoTables` holds the empty tables of demo.ts:205-215.

Errors are a `LexError` value instead of a pushed diagnostic.

Decoded text can hold code units such as `\uD800` that are not Dafny characters. So a
fragment's value is a sequence of code values (`seq<int>`), and `Codes` maps source
text into it. The fragment type bitmask is a `set<FragmentType>`; the empty set is
`None`.

Where the source is broken, the model reads it as follows:
- `char` in the number loops (lexer.ts:283, lexer.ts:318) is `source[end]`.
- The HTML-mangled test at lexer.ts:435-436 is `source[end] === "$" && source[end+1] === "{"`.
- The missing `isDigitForNumberType` (lexer.ts:555-557) tests the digits of each radix.
- `end` in demo.ts:354 starts at `start`.
- `isDecimalDigit`, `isHexDigit` and `isOctalDigit` are called but never defined. They
  are read as tests of the `charFlags` bits of those names, which are set on `0`-`9`
  only. So hex escapes accept only decimal digits, and octal escapes accept `8` and `9`
  after the first digit: `\399` is out of range and fails (`OctalEscape399`).

Quirks of the source that the model keeps, each stated by a member:
- `/*/` is a complete comment (`SlashStarSlashCloses`).
- A block comment's value repeats the closing `*`.
- A template closed by the last character of the input is reported unterminated
  (`ScanTemplate`).
- A string's value has no opening quote but does have the closing quote.
- Single-letter escapes decode to the letter itself (`\n` gives `n`).
- `\xHH` and `\uHHHH` fail when they end exactly at the end of input.
- The greedy operator extension can stop short on tables that are not prefix-closed
  (`GreedyStopsShort`).
- The `.`-rewind in the number branch is unreachable (`ScanMantissa`).
- The common tail's cooked-content test can never hold (`CookedTestNeverHolds`).
- A binary or octal literal stops before a digit outside its radix, and the end check
  lets that digit through: `0b12` is the literal `0b1` (`BinaryStopsExample`).

## Model

| member | source | states |
|---|---|---|
| Fragments.At | lexer.ts:209-211 | JavaScript indexing: the character at `i` inside the string, the text "undefined" outside it |
| Fragments.ReservedWordSets | lexer.ts:35-43 | the module-code reserved words are the strict-mode ones without `let` and `yield` |
| CharClass.BuildCharFlags | lexer.ts:19-32 | the 128-entry table filled in a loop holds, at each code, the flags of every class test that code passes |
| CharClass.WhitespaceFlagExactly | lexer.ts:28 | the whitespace flag is set on exactly tab, line feed, vertical tab, form feed, carriage return and space; the skip loop's test is that flag |
| CharClass.LineTerminatorFlagExactly | lexer.ts:29 | the line-terminator flag is set on exactly `\n` and `\r`, always together with the whitespace flag, and no non-ASCII character has a flag |
| CharClass.IdentifierFlags | lexer.ts:591-613 | identifier start and part agree on ASCII letters, `$` and `_`; digits are not identifier parts; `isASCIIIdentifierStart` agrees with `isIdentifierStart` |
| CharClass.DigitFlags | lexer.ts:26-27 | the decimal, hex and octal flags are set on exactly `0`-`9`, the binary flag on `0` and `1` |
| CharClass.NoBreakSpaceDisagreement | lexer.ts:559-584 | `isWhitespace` accepts U+00A0 while the whitespace-skip loop stops at it |
| CharClass.LineTerminatorAgreement | lexer.ts:586-589 | on ASCII, `isUnicodeLineTerminator` is exactly the table's line-terminator flag |
| Location.PackRoundTrip | lexer.ts:45-49 | a line below 2^20 and a column below 2^12 packed into one word are read back unchanged |
| Location.PackInjective | lexer.ts:45-49 | in range, different line/column pairs pack to different words |
| Location.PackOverflow | lexer.ts:45-49 | out of range they collide: a column of 4096 carries into the line, and line 2^20 wraps to 0 |
| Location.PackSignBit | lexer.ts:113 | lines from 2^19 on set bit 31, so JavaScript reads the packed value as negative |
| Location.CountIn | lexer.ts:641-657 | the number of break characters in the text is at most its length |
| Location.LineCount | lexer.ts:641-657 | the line after a stretch of text is the starting line plus the number of break characters in it |
| Location.ColumnWithoutBreak | lexer.ts:641-657 | over text without a break, the column advances by the text's length |
| Location.ColumnAfterLastBreak | lexer.ts:641-657 | after the last break, the column counts the characters since that break |
| Location.UnicodeLineTerminatorsExactly | lexer.ts:586-589 | the break set used for `updateLineAndColumn` is exactly `isUnicodeLineTerminator` |
| Location.UpdateLineAndColumn | lexer.ts:641-657 | the loop's final line and column are the reference accounting over `s[start..end)`, with each index past the input counting as one more column |
| Escapes.HandleStringEscape | lexer.ts:660-794 | every failure returns `start`; every success returns a position in `start+2..|s|`, having consumed after the escape letter only digits and braces; it states the value and position of each escape kind and its error cases; a braced escape succeeds exactly when a `}` closes it, with a code point of at most 0x10FFFF; an octal escape fails exactly when three digits exceed 255 |
| Escapes.DecodeBracedEscape | lexer.ts:694-718 | it fails exactly when no `}` closes a run of hex digits without the running value exceeding 0x10FFFF; on success the code point is the hex value of the digits |
| Escapes.DecodeOctalEscape | lexer.ts:736-769 | it takes at most three digits, stops at the first non-digit, and fails exactly when three digits exceed 255 |
| Escapes.OctalBound | lexer.ts:736-769 | one or two digits never exceed 255; three digits starting with `4` to `7` always do |
| Escapes.OctalEscape399 | lexer.ts:736-769 | with the digit test as written, `\399` takes three digits whose value, 273, is over 255: the exact case in which the decoder fails with InvalidOctalEscape outside strict mode |
| Escapes.HexValuePrefix | lexer.ts:700-707 | the running code point never decreases, so once past 0x10FFFF it stays past |
| Escapes.NoCloserAfterOverflow | lexer.ts:703-705 | once the running code point exceeds 0x10FFFF, no later `}` closes the escape |
| Escapes.NoCloserPastStop | lexer.ts:708-715 | stopping on a non-hex character or at the end of input means no `}` closes the escape |
| Escapes.OctalDigitsValue | lexer.ts:750-761 | the octal value of one, two or three digits, digit by digit |
| Trivia.WhitespaceEnd | lexer.ts:80-110 | the skip stops at the first character the loop does not skip, or at the end of input; every character before is skippable |
| Trivia.SkipWhitespace | lexer.ts:80-110 | the loop stops where `WhitespaceEnd` does; line and column are the reference accounting over the skipped text; the line rises once per `\n` or `\r`; the Whitespace bit is set exactly when a line terminator was crossed |
| Trivia.ClassifySpace | lexer.ts:82-108 | one character's test: skippable exactly when the skip loop takes it, which implies ASCII; a break exactly on `\n` or `\r` |
| Trivia.ScanHashbang | lexer.ts:115-121 | the hashbang runs from 0 to the first line feed or the end of input, and the value is that text |
| Trivia.ScanToLineFeed | lexer.ts:127-130 | the copy loop stops at the first line feed or the end of input, and the value is the text passed over |
| Trivia.ScanLineComment | lexer.ts:124-139 | the value is the text after `//` up to the line feed; the look-ahead flag is set exactly when, after one skipped character and a whitespace run, another `//` follows |
| Trivia.SkipAhead | lexer.ts:527-533 | the look-ahead stops where the whitespace run ends |
| Trivia.SkipRunUnique | lexer.ts:527-533 | the whitespace run from a position has exactly one end |
| Trivia.SlashStarSlashCloses | lexer.ts:143-144 | `/*/` is closed by its own slash |
| Trivia.ScanBlockComment | lexer.ts:140-161 | it fails exactly when no `*/` closes the comment after the opener; on success it ends just past the first closer, the value repeats the `*`, and line and column follow line feeds only |
| Trivia.HtmlCommentCheck | lexer.ts:162-172 | `<!--` fails exactly when Annex B is off |
| Trivia.HasCommentAfter | lexer.ts:525-538 | the flag is set exactly when `//` or `/*` follows a run of whitespace that stops at line terminators |
| Trivia.NoCommentAcrossLineBreak | lexer.ts:527-532 | a comment on the next line is not noticed |
| Identifiers.PartRunEnd | lexer.ts:210-215 | the run of identifier parts ends at the first character that is not one, or at the end of input |
| Identifiers.ScanNameParts | lexer.ts:210-215 | the loop stops where `PartRunEnd` does and copies the text it passed over |
| Identifiers.ScanIdentifierName | lexer.ts:199-215 | the name is the head (a backslash and the skipped character when escaped), then the longest run of identifier parts; it ends at `NameEnd`, and the next character is not an identifier part |
| Identifiers.ClassifyName | lexer.ts:217-234 | keyword exactly when unescaped, in the table and not reserved in the current mode; each error exactly in its case |
| Identifiers.ScanIdentifier | lexer.ts:199-237 | the result is exactly the classification of the scanned name: it succeeds exactly when `ClassifyName` does and fails with its error; on success it ends at `NameEnd`, holds the name and the escape flag, and is a Keyword exactly for an unescaped, unreserved table keyword |
| Identifiers.DemoNamesNeverFail | demo.ts:205-208 | with the demo's empty keyword table a name is never a keyword and never fails |
| Identifiers.ReservedByStrictOnly | lexer.ts:35-43 | `let` is a keyword in non-strict module code, since only strict mode reserves it |
| Identifiers.EscapedNeverKeyword | lexer.ts:217-234 | an escaped name is never classified as a keyword |
| Numbers.DigitsEndStops | lexer.ts:276-290 | the digit run passes only radix digits and `_`, never two `_` in a row, and stops at the first character that is neither a digit of the radix nor a `_` after a non-`_` |
| Numbers.ScanDigits | lexer.ts:276-290 | it copies the longest run of radix digits and separators; it copies `_` only when the value does not already end in `_`; `hasDigits` is set exactly when a digit was seen |
| Numbers.FractionStopStops | lexer.ts:313-330 | the fraction loop passes decimal digits and `_` followed by a digit, and stops at anything else |
| Numbers.Fraction | lexer.ts:304-335 | the fraction fails on a `_` not followed by a digit, or when no digit follows the `.`; otherwise it ends where `FractionStop` does, after at least one character |
| Numbers.ScanFraction | lexer.ts:303-332 | every `_` of the fraction is followed by a digit, the run ends at a non-digit that is not `_`, and it fails on a missing digit or a bad separator |
| Numbers.DecimalRunEnd | lexer.ts:350-354 | the exponent's digit loop stops at the first non-digit |
| Numbers.Exponent | lexer.ts:337-359 | after an optional sign the exponent ends where `DecimalRunEnd` does, and fails exactly when that run is empty |
| Numbers.ScanExponent | lexer.ts:335-356 | it computes `Exponent`: an optional sign, then the longest digit run, which must not be empty |
| Numbers.ScanOptionalFraction | lexer.ts:304-335 | without a `.` the literal is unchanged; a `.` after a non-decimal literal fails; after a decimal one the result is `Fraction`'s: its error, or the fraction appended up to its end |
| Numbers.ScanOptionalExponent | lexer.ts:337-359 | without `e`/`E` the literal is unchanged; after a non-decimal literal it fails; after a decimal one the result is `Exponent`'s: its error, or `e`, the sign and the digits appended |
| Numbers.ScanSuffix | lexer.ts:361-375 | `n` after a decimal literal is appended as a BigInt, after any other it fails; without `n`, an identifier start fails and anything else ends the literal unchanged |
| Numbers.ExpectedDigitsExactly | lexer.ts:276-295 | the digit loop finds no digit exactly after a bare radix prefix followed by neither a radix digit nor `_` and one |
| Numbers.ScanPrefix | lexer.ts:243-274 | it consumes `.` or `0x`/`0o`/`0b` in either case, ending where the digits start, and stores the prefix in lower case; a legacy octal start consumes nothing, and fails exactly in strict mode |
| Numbers.ScanMantissa | lexer.ts:243-302 | it fails with the octal error exactly for a legacy octal in strict mode and with ExpectedDigits exactly after a bare prefix; otherwise it ends where `DigitsEnd` does with the prefix text and the digit run as value; the `.`-rewind cannot happen |
| Numbers.FromSuffix | lexer.ts:361-375 | a BigInt is decimal and ends just past its `n`; any other literal ends where the check ran, before a non-identifier-start |
| Numbers.FromExponent | lexer.ts:337-375 | the literal keeps its radix, a non-decimal one gains no exponent, and one that took an exponent is not followed by a digit |
| Numbers.FromFraction | lexer.ts:304-375 | the literal keeps its radix; a non-decimal one ends at its digits and not before a `.`; one that took more is not followed by a digit |
| Numbers.NumberLiteral | lexer.ts:238-379 | the reference literal fails with the octal error exactly for a legacy octal in strict mode, with ExpectedDigits exactly after a bare prefix, and otherwise only with an error of the tail checks; a literal ends after `e` with the prefix's radix, and is followed by no digit of its radix, no identifier start and, when not decimal, no `.` |
| Numbers.DecimalExample | lexer.ts:276-379 | `12;` is the decimal literal `12` ending at the `;` |
| Numbers.MissingFractionExample | lexer.ts:331-334 | `1.;` fails for want of fraction digits |
| Numbers.MissingDigitsExample | lexer.ts:292-294 | `0x;` fails for want of digits |
| Numbers.IdentifierAfterExample | lexer.ts:371-374 | `3in` fails on the identifier start after `3` |
| Numbers.BinaryStopsExample | lexer.ts:276-290 | `0b12` is the binary literal `0b1`, ending before the `2` |
| Numbers.ScanTail | lexer.ts:304-375 | it computes `FromFraction`: the optional fraction, exponent and suffix in the source's order, keeping the value case-normalised and free of `__` |
| Numbers.ScanNumber | lexer.ts:238-379 | it computes `NumberLiteral` exactly, error and success alike; the value is the source text with only prefix and exponent letters lower-cased and no `__`; a non-decimal literal holds only its digits and separators |
| Numbers.FractionKeepsNoDoubleSeparator | lexer.ts:316-323 | the fraction check excludes `__` |
| Literals.StringCloseSound | lexer.ts:385-402 | the closing quote that the reference scan finds lies inside the input; every quote or line feed before it is escaped |
| Literals.StringClosePlain | lexer.ts:385-402 | plain text followed by the quote closes there |
| Literals.StepString | lexer.ts:386-406 | one pass of the string loop: a raw line feed fails; a plain character is copied; an escape is decoded or kept as written |
| Literals.LiteralEscape | lexer.ts:387-399 | with decoding the escape decoder's result; without, the backslash and next character as written, resuming two on |
| Literals.StringBody | lexer.ts:385-413 | the loop stops at a quote equal to the opening one, or fails unterminated or on a bad escape; without decoding it stops exactly where the reference scan closes, with the body as written; in a body without a backslash before its stop the same holds with decoding; every line feed or quote it passes comes right after a backslash |
| Literals.ScanString | lexer.ts:381-419 | on success it ends just past a quote equal to the opening one; without decoding it succeeds exactly when the reference scan closes, and its value is the body plus closing quote; in a body without a backslash before its stop the same holds with decoding, and the only error is an unterminated string; in both modes every line feed or quote inside an accepted body comes right after a backslash |
| Literals.TemplateCloseSound | lexer.ts:428-466 | the closing backtick that the reference scan finds lies inside the input; every backtick before it is escaped |
| Literals.StepTemplate | lexer.ts:434-465 | one pass of the template loop; only a decoded escape can fail; without decoding, or on anything but a backslash, it keeps the reference closing position and the cooked text is the source passed over |
| Literals.ScanTemplateBody | lexer.ts:428-466 | the raw text is exactly the source passed over; the loop stops at a backtick or past the end and fails only on a decoded escape; a body without a backslash before its stop never fails and stops where the reference scan does, with the source as cooked text, in both modes |
| Literals.ScanTemplate | lexer.ts:421-485 | on success the raw value is the source slice through the closing backtick; without decoding, and in a body without a backslash before its stop in both modes, it succeeds exactly when the reference scan closes before the last character, and raw is the backtick plus cooked; in that body the only error is an unterminated template |
| Operators.OneCharTokenType | lexer.ts:54-58 | Operator exactly when the character is in the operator table, Punctuator when only in the punctuator table, none otherwise |
| Operators.DemoHasNoOperators | demo.ts:209-215 | with the demo's empty tables no character has a token type |
| Operators.GreedyEnd | lexer.ts:495-502 | the greedy extension stays inside the input |
| Operators.GreedyChain | lexer.ts:495-502 | every prefix the extension passes is a table entry, and the next one is not |
| Operators.GreedyIsLongest | lexer.ts:495-502 | on prefix-closed tables the result is the longest table entry at that position |
| Operators.GreedyStopsShort | lexer.ts:495-502 | on other tables it can stop short: `...` is read as `.` when `..` is missing |
| Operators.ScanOperator | lexer.ts:488-516 | no token type exactly when the first character is in no table; the rewind exactly for `?.` before a digit; otherwise the kind comes from the first character and the text is the greedy extension |
| Lexer.Finish | lexer.ts:518-550 | no type gives `null`; otherwise the fragment starts at `start`, has no comment before it and no cooked text, and its comment-after flag is the look-ahead |
| Lexer.IdentifierFragment | lexer.ts:199-237 | it fails exactly when `ClassifyName` rejects the scanned name, with its error; otherwise the fragment ends at `NameEnd`, holds the name and escape flag, and is a Keyword, or an Identifier that keeps the skip's Whitespace bit |
| Lexer.NumberFragment | lexer.ts:238-379 | it fails exactly when `NumberLiteral` does, with its error; otherwise the fragment is a Literal (the Whitespace bit is overwritten) with the reference literal's end and value |
| Lexer.StringFragment | lexer.ts:380-419 | the string branch's fragment or error, tied to the reference scan without decoding or without escapes, with every inner line feed or quote escaped |
| Lexer.TemplateFragment | lexer.ts:421-485 | the template branch returns early, with the raw value, the cooked text, and no comment look-ahead; it succeeds and fails as `ScanTemplate` states |
| Lexer.OperatorFragment | lexer.ts:487-523 | the operator branch's fragment, or `null` after the rewind; with no token type, a whitespace-only fragment exactly when a line terminator was crossed |
| Lexer.TokenBranchExactly | lexer.ts:198-487 | after a backslash the identifier branch runs; otherwise the number, string and template branches run exactly on their entry characters |
| Lexer.ScanToken | lexer.ts:198-523 | the branch `TokenBranch` picks yields its branch predicate: the identifier and number branches exactly their reference results, the others as their rows state |
| Lexer.CookedTestNeverHolds | lexer.ts:548 | at a backtick no whitespace is skipped and neither branch whose tail fragment is a bare Literal runs, so the cooked-content test never holds |
| Lexer.ScanTrivia | lexer.ts:114-183 | each comment branch yields what its own contract says; `<!--` fails exactly without Annex B |
| Lexer.NextFragment | lexer.ts:60-550 | on a cache hit the cached fragment; otherwise the first matching branch, in the source's order, yields what that branch's contract says; every non-cached fragment and every skipped comment ends after `start` |
| Lexer.Advances | lexer.ts:80-523 | every branch that does not fail moves past `start` |
| Demo.CharType | demo.ts:112-128 | `charTypes` gives one of Whitespace, Identifier or Literal, or leaves the entry unset |
| Demo.BuildCharTypes | demo.ts:112-128 | the 128 entries filled in a loop are the classes of their codes |
| Demo.CharTypesAgainstCharFlags | demo.ts:112-128 | Identifier entries are exactly the identifier starts of `charFlags` and Literal entries exactly its decimal digits; the whitespace classes differ by exactly vertical tab and form feed |
| Demo.BodyFrom | demo.ts:357-373 | the body loop stops inside the input or one past it |
| Demo.BodyEnd | demo.ts:357-373 | a closed body ends just past an unclassed slash inside the input; an open one ran to the end |
| Demo.BodyTextEnd | demo.ts:359-362 | the value of a closed body ends with the closing slash |
| Demo.BodyVerbatim | demo.ts:357-373 | without backslashes the body is copied verbatim |
| Demo.ClassClosesOnlyAfterBracket | demo.ts:357-366 | a body read from inside a class closes only after a `]` has ended the class |
| Demo.FlagsEnd | demo.ts:375-379 | the flag loop consumes only `gimsuy` and stops at the first other character |
| Demo.BodyStep | demo.ts:358-372 | one pass of the body loop agrees with the reference body |
| Demo.ScanBody | demo.ts:357-373 | the body loop computes the reference body's text and end |
| Demo.ScanFlags | demo.ts:375-379 | the flag loop copies exactly the flag letters up to `FlagsEnd` |
| Demo.ScanRegex | demo.ts:353-381 | the regular expression is a Literal starting at the slash, whose value is the slash, the reference body, then the flags, and whose end is after the flags |
| Demo.SlashInClass | demo.ts:357-366 | in `/[/]/g` the inner slash does not close the literal and `g` is taken as a flag |
| Demo.EscapedSlash | demo.ts:367-371 | an escaped slash does not close the literal and its backslash is dropped |
| Demo.TrailingBackslash | demo.ts:367-372 | a trailing backslash copies "undefined" and ends one past the input |
| Demo.Fallback | demo.ts:384-391 | the fallback spans exactly `[e, e+1)`, has no type, and holds the one character there (undefined at the end) |
| Demo.DemoNextFragment | demo.ts:349-392 | a slash gives the regular expression; otherwise no type so far gives the fallback, and anything else nothing; every result ends after `e` |

## Left out

- Re-entry after a comment (lexer.ts:186-196): the source marks the next fragment's `hasCommentBefore` and calls itself again. The model returns the comment with the position to continue from (`Skipped`). `getNextNonWhitespaceFragment` has no body in the source.
- HTML-like comment body (lexer.ts:173-183): the source text there is broken and has no readable loop. With Annex B on, the model returns `HtmlCommentBody` at the `<!--`.
- The combined `loc` value (lexer.ts:545): the packing is modelled (`Location`), but fragments carry no `loc`. The template branch reads `endLoc` before its `const` declaration (lexer.ts:481 against lexer.ts:523), which would throw in JavaScript; the model returns the fragment without it.
- Line and column at fragment ends: the source's calls to `updateLineAndColumn` change only its parameters, so they have no effect. `UpdateLineAndColumn` models the function itself.
- Diagnostics' line and column (`reportLexerError`, `locationMask`): errors are values without a position.
- Unicode identifier and whitespace tables: the source's non-ASCII paths are stubs returning false, and the model keeps them so.
- `inExpression` in templates and `commentFollows` after a line comment: the source computes both but never uses them. The model computes them and proves nothing about their use.
- fragment.ts: type declarations only, mirrored by `FragmentType` and `Fragment`.
- The demo pipeline (parse, printer, comment preservation, minifier, linting plugins, operator precedence data in demo.ts): it depends on functions the source does not define.
- JavaScript `undefined` as a fragment value: the fallback at the end of input has value `None`, and text that appends `undefined` appends the string "undefined" (`At`).
- Lexer.TemplateFragment: with escape decoding on and escapes present, the cooked text is stated only to exist, and the closing position and success condition are not stated as a whole. Each escape's contribution is stated by `HandleStringEscape`.
- Literals.ScanTemplate: the same gap with escape decoding on and escapes present.
- Literals.ScanString: with escape decoding on and escapes present, the value, the closing position and the success condition are not stated as a whole, only that inner line feeds and quotes are escaped. Each escape's contribution is stated by `HandleStringEscape`.
- Literals.StringBody: the same gap as `ScanString`, whose loop it is.
- Lexer.StringFragment: the same gap as `ScanString`, which it wraps.
- Lexer.NextFragment: with escape decoding on, a string or template error is not tied to which escape failed.
