/** The identifier and keyword branch of getNextFragment (lexer.ts). */
module Identifiers {
  import opened Fragments
  import opened CharClass

  /** The character before `e` is a backslash; the branch then treats the name as
      escaped. */
  predicate PrecededByBackslash(s: string, e: nat) {
    0 < e <= |s| && s[e - 1] == '\\'
  }

  /** The branch is taken on an identifier-start character, or whenever the character
      before `e` is a backslash. */
  predicate IdentifierEntry(s: string, e: nat) {
    (e < |s| && HasFlag(s[e], IdentifierStartFlag)) || PrecededByBackslash(s, e)
  }

  /** Index of the first character copied into the name: after a backslash the
      character at `e` is skipped. */
  function FirstIndex(s: string, e: nat): nat {
    if PrecededByBackslash(s, e) then e + 1 else e
  }

  /** What the name starts with: a backslash when escaped, then the first character,
      taken whatever it is and read as "undefined" past the end of input. */
  function NameHead(s: string, e: nat): string {
    (if PrecededByBackslash(s, e) then "\\" else "") + At(s, FirstIndex(s, e))
  }

  /** The name scanned from `e` when the loop stopped at `end`: the head, then the
      characters between. */
  function NameText(s: string, e: nat, end: nat): string
    requires FirstIndex(s, e) + 1 <= end
  {
    if end <= |s| then NameHead(s, e) + s[FirstIndex(s, e) + 1..end] else NameHead(s, e)
  }

  /** Where a run of identifier-part characters from `k` stops. */
  function PartRunEnd(s: string, k: nat): (r: nat)
    ensures k <= r && (k < r ==> r <= |s|)
    ensures forall j :: k <= j < r ==> j < |s| && HasFlag(s[j], IdentifierPartFlag)
    ensures r < |s| ==> !HasFlag(s[r], IdentifierPartFlag)
    decreases |s| - k
  {
    if k < |s| && HasFlag(s[k], IdentifierPartFlag) then PartRunEnd(s, k + 1) else k
  }

  /** Where the name loop stops: after the head, at the first non-part character. */
  function NameEnd(s: string, e: nat): nat {
    PartRunEnd(s, FirstIndex(s, e) + 1)
  }

  /** The name the branch scans from `e`. */
  function ScannedName(s: string, e: nat): string {
    NameText(s, e, NameEnd(s, e))
  }

  /** The name loop: every identifier-part character from `from` on. */
  method ScanNameParts(s: string, from: nat) returns (tail: string, end: nat)
    requires from <= |s|
    ensures end == PartRunEnd(s, from) && tail == s[from..end]
  {
    end := from;
    tail := "";
    while end < |s| && HasFlag(s[end], IdentifierPartFlag)
      invariant from <= end <= |s| && tail == s[from..end]
      invariant PartRunEnd(s, end) == PartRunEnd(s, from)
    {
      assert s[from..end + 1] == s[from..end] + [s[end]];
      tail := tail + [s[end]];
      end := end + 1;
    }
  }

  /** The name: the head, then every following identifier-part character. */
  method ScanIdentifierName(s: string, e: nat) returns (value: string, end: nat)
    requires IdentifierEntry(s, e)
    ensures end == NameEnd(s, e)
    ensures FirstIndex(s, e) + 1 <= end
    ensures end <= |s| ==> value == NameHead(s, e) + s[FirstIndex(s, e) + 1..end]
    ensures end > |s| ==> end == FirstIndex(s, e) + 1 && value == NameHead(s, e)
    ensures forall k :: FirstIndex(s, e) + 1 <= k < end ==> k < |s| && HasFlag(s[k], IdentifierPartFlag)
    ensures end < |s| ==> !HasFlag(s[end], IdentifierPartFlag)
  {
    end := e;
    value := "";
    if PrecededByBackslash(s, e) {
      end := end + 1;
      value := value + "\\";
    }
    value := value + At(s, end);
    end := end + 1;
    if end <= |s| {
      var tail;
      tail, end := ScanNameParts(s, end);
      value := value + tail;
    }
  }

  /** A strict-mode or module-code reserved word, in the mode that reserves it. */
  predicate IsReserved(name: string, strict: bool, moduleCode: bool) {
    (strict && name in StrictModeReservedWords) || (moduleCode && name in ModuleCodeReservedWords)
  }

  /** The keyword and reserved-word checks on a scanned name; `Ok(true)` means the
      fragment is a Keyword. */
  function ClassifyName(value: string, escaped: bool, ctx: LexContext, keywords: set<string>): (r: Result<bool>)
    ensures r == Ok(true) <==> !escaped && value in keywords && !IsReserved(value, ctx.strict, ctx.moduleCode)
    ensures r == Err(UnexpectedReservedWord) <==> !escaped && value in keywords && IsReserved(value, ctx.strict, ctx.moduleCode)
    ensures r == Err(EscapedKeyword) <==> escaped && |value| >= 1 && value[1..] in keywords
    ensures r == Ok(false) <==> !(value in keywords && !escaped) && !(escaped && |value| >= 1 && value[1..] in keywords)
  {
    if !escaped && value in keywords then
      if IsReserved(value, ctx.strict, ctx.moduleCode) then Err(UnexpectedReservedWord) else Ok(true)
    else if escaped && |value| >= 1 && value[1..] in keywords then Err(EscapedKeyword)
    else Ok(false)
  }

  datatype Ident = Ident(value: string, end: nat, isKeyword: bool, containsEscape: bool)

  /** The whole branch: the name, then its classification. The result is exactly the
      classification of the scanned name: an escaped keyword fails, a reserved word
      fails in the mode that reserves it, and every other name succeeds. */
  method ScanIdentifier(s: string, e: nat, ctx: LexContext, keywords: set<string>) returns (r: Result<Ident>)
    requires IdentifierEntry(s, e)
    ensures var c := ClassifyName(ScannedName(s, e), PrecededByBackslash(s, e), ctx, keywords);
      (r.Ok? <==> c.Ok?) && (r.Err? ==> c == Err(r.error))
      && (r.Ok? ==> r.value.isKeyword == c.value)
    ensures r.Ok? ==>
      r.value.containsEscape == PrecededByBackslash(s, e)
      && r.value.end == NameEnd(s, e)
      && r.value.value == ScannedName(s, e)
      && FirstIndex(s, e) + 1 <= r.value.end
      && (r.value.end < |s| ==> !HasFlag(s[r.value.end], IdentifierPartFlag))
      && (r.value.isKeyword <==> !r.value.containsEscape && r.value.value in keywords)
      && (r.value.isKeyword ==> !IsReserved(r.value.value, ctx.strict, ctx.moduleCode))
    ensures r.Err? ==> r.error == UnexpectedReservedWord || r.error == EscapedKeyword
    ensures r.Err? && r.error == UnexpectedReservedWord ==> !PrecededByBackslash(s, e)
    ensures r.Err? && r.error == EscapedKeyword ==> PrecededByBackslash(s, e)
  {
    var value, end := ScanIdentifierName(s, e);
    var escaped := PrecededByBackslash(s, e);
    var c := ClassifyName(value, escaped, ctx, keywords);
    match c {
      case Ok(isKeyword) => r := Ok(Ident(value, end, isKeyword, escaped));
      case Err(error) => r := Err(error);
    }
  }

  /** With the empty demo keyword table no name is a keyword and the branch never fails. */
  lemma DemoNamesNeverFail(value: string, escaped: bool, ctx: LexContext)
    ensures ClassifyName(value, escaped, ctx, DemoTables.keywords) == Ok(false)
  {
  }

  /** `let` and `yield` are reserved only by strict mode: a non-strict module may use
      them as keywords, while every module-reserved word is also strict-reserved. */
  lemma ReservedByStrictOnly(keywords: set<string>, ctx: LexContext)
    requires "let" in keywords && !ctx.strict && ctx.moduleCode
    ensures ClassifyName("let", false, ctx, keywords) == Ok(true)
    ensures forall w :: w in ModuleCodeReservedWords ==> w in StrictModeReservedWords
  {
    ReservedWordSets();
  }

  /** An escaped keyword is never classified as a Keyword. */
  lemma EscapedNeverKeyword(value: string, ctx: LexContext, keywords: set<string>)
    ensures ClassifyName(value, true, ctx, keywords) != Ok(true)
  {
  }
}
