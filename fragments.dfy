/** Shared vocabulary of the tokenizer: fragment kinds, fragments, lexer errors,
    the lexer context that the source reads from globals, and the lookup tables. */
module Fragments {

  datatype Option<T> = None | Some(value: T)

  /** Outcome of a scanner that can fail with a lexer error. */
  datatype Result<T> = Ok(value: T) | Err(error: LexError)

  /** The bits of the `FragmentType` bitmask (fragment.ts). A fragment's type is a
      set of these; the empty set is `FragmentType.None`. */
  datatype FragmentType =
    | Identifier
    | Literal
    | Keyword
    | Operator
    | Punctuator
    | Comment
    | Whitespace
    | HashbangComment
    | RegularExpressionLiteral

  /** One tag per diagnostic the lexer reports (instead of message text). */
  datatype LexError =
    | UnterminatedComment
    | HtmlCommentsDisabled
    | UnexpectedReservedWord
    | EscapedKeyword
    | OctalLiteralInStrictMode
    | ExpectedDigits
    | UnexpectedDecimalPoint
    | InvalidNumericSeparator
    | ExpectedFractionDigits
    | UnexpectedExponent
    | ExpectedExponentDigits
    | UnexpectedBigIntSuffix
    | UnexpectedIdentifierAfterNumber
    | UnterminatedString
    | InvalidEscapeInString(cause: LexError)
    | UnterminatedTemplate
    | InvalidEscapeInTemplate(cause: LexError)
    // reported by the escape decoder
    | UnterminatedEscape
    | InvalidHexEscape
    | InvalidUnicodeEscape
    | InvalidCodePoint
    | UnterminatedUnicodeEscape
    | OctalEscapeInStrictMode
    | InvalidOctalEscape
    | DigitEscapeInStrictMode
    | InvalidEscape

  /** What the source reads from `currentScope`, `parserOptions` and
      `needsEscapeDecoding(parserOptions)`, passed explicitly. */
  datatype LexContext = LexContext(
    strict: bool,
    moduleCode: bool,
    annexB: bool,
    incremental: bool,
    needsEscapeDecoding: bool)

  /** The keyword, operator and punctuator sets the lexer consults. */
  datatype Tables = Tables(keywords: set<string>, operators: set<string>, punctuators: set<string>)

  /** The tables as the demo defines them: all three empty. */
  const DemoTables: Tables := Tables({}, {}, {})

  const StrictModeReservedWords: set<string> :=
    {"implements", "interface", "package", "private", "protected", "public", "static",
     "let", "yield", "await"}

  const ModuleCodeReservedWords: set<string> :=
    {"await", "implements", "interface", "package", "private", "protected", "public", "static"}

  /** A fragment as getNextFragment returns it. The combined `loc` field is not modelled;
      `value` holds code values because decoded escapes need not be valid characters. */
  datatype Fragment = Fragment(
    types: set<FragmentType>,
    value: seq<int>,
    start: int,
    end: int,
    hasCommentBefore: bool,
    hasCommentAfter: bool,
    containsEscape: bool,
    cookedContent: Option<seq<int>>)

  /** JavaScript `source[i]` used in a string concatenation: the character, or the text
      "undefined" when `i` is past the end. */
  function At(s: string, i: int): (r: string)
    ensures 0 <= i < |s| ==> r == [s[i]]
    ensures !(0 <= i < |s|) ==> r == "undefined"
  {
    if 0 <= i < |s| then [s[i]] else "undefined"
  }

  /** The code values of a string. */
  function Codes(t: string): (r: seq<int>)
    ensures |r| == |t|
    ensures forall k :: 0 <= k < |t| ==> r[k] == t[k] as int
  {
    if t == [] then [] else [t[0] as int] + Codes(t[1..])
  }

  lemma {:induction false} CodesAppend(a: string, b: string)
    ensures Codes(a + b) == Codes(a) + Codes(b)
  {
    if a != [] {
      assert (a + b)[1..] == a[1..] + b;
      CodesAppend(a[1..], b);
    }
  }

  lemma ReservedWordSets()
    ensures ModuleCodeReservedWords == StrictModeReservedWords - {"let", "yield"}
  {
  }
}
