/** The string-literal and template-literal branches of getNextFragment (lexer.ts). */
module Literals {
  import opened Fragments
  import opened CharClass
  import opened Escapes

  // ---- Code values of a stretch of source ----

  /** `v` holds the code values of `s[a..b)`. */
  predicate CodesOf(v: seq<int>, s: string, a: int, b: int) {
    0 <= a <= b <= |s| && |v| == b - a && forall k :: 0 <= k < |v| ==> v[k] == s[a + k] as int
  }

  lemma CodesOfAppend(v: seq<int>, w: seq<int>, s: string, a: int, b: int, c: int)
    requires CodesOf(v, s, a, b) && CodesOf(w, s, b, c)
    ensures CodesOf(v + w, s, a, c)
  {
    forall k | 0 <= k < |v + w| ensures (v + w)[k] == s[a + k] as int {
      if k >= |v| {
        assert (v + w)[k] == w[k - |v|];
      }
    }
  }

  lemma CodesOfIsCodes(v: seq<int>, s: string, a: int, b: int)
    requires CodesOf(v, s, a, b)
    ensures v == Codes(s[a..b])
  {
  }

  // ---- String literals ----

  predicate IsQuote(c: char) {
    c == '"' || c == '\''
  }

  /** Reference scan of a string body from `i` with escapes kept as written: a
      backslash passes over the next character, a raw line feed or the end of input
      leaves the literal unterminated, and the first other `quote` closes it. The
      result is the index of that closing quote. */
  function StringClose(s: string, i: nat, quote: char): (r: Option<nat>)
    decreases |s| - i
  {
    if i >= |s| then None
    else if s[i] == quote then Some(i)
    else if s[i] == '\\' then StringClose(s, i + 2, quote)
    else if s[i] == '\n' then None
    else StringClose(s, i + 1, quote)
  }

  /** A closing quote found by the reference scan lies after `i`, and every line feed
      or quote before it is escaped. */
  lemma {:induction false} StringCloseSound(s: string, i: nat, quote: char)
    requires StringClose(s, i, quote).Some?
    ensures var c := StringClose(s, i, quote).value;
      i <= c < |s| && s[c] == quote
      && forall k :: i <= k < c && (s[k] == '\n' || s[k] == quote) ==> i < k && s[k - 1] == '\\'
    decreases |s| - i
  {
    if s[i] != quote {
      if s[i] == '\\' {
        StringCloseSound(s, i + 2, quote);
      } else {
        StringCloseSound(s, i + 1, quote);
      }
    }
  }

  /** Plain text (no backslash, line feed or quote) followed by the quote closes there. */
  lemma {:induction false} StringClosePlain(s: string, i: nat, c: nat, quote: char)
    requires i <= c < |s| && s[c] == quote
    requires forall k :: i <= k < c ==> s[k] != '\\' && s[k] != '\n' && s[k] != quote
    ensures StringClose(s, i, quote) == Some(c)
    decreases c - i
  {
    if i < c {
      StringClosePlain(s, i + 1, c, quote);
    }
  }

  /** The body from `i` reaches its closing quote, a raw line feed or the end of input
      without passing a backslash, so no escape is decoded whatever the mode. */
  predicate PlainString(s: string, i: nat, quote: char)
    decreases |s| - i
  {
    i >= |s| || s[i] == quote || s[i] == '\n' || (s[i] != '\\' && PlainString(s, i + 1, quote))
  }

  /** What an escape contributes to a literal and where the scan resumes. */
  datatype Piece = Piece(text: seq<int>, next: nat)

  /** The escape at the backslash `end`. With decoding it is what the escape decoder
      returns; without, the backslash and the next character as written (past the end
      of input, the text "undefined"), and the scan resumes two characters on. */
  method LiteralEscape(s: string, end: nat, decode: bool, strict: bool) returns (r: Result<Piece>)
    requires end < |s| && s[end] == '\\'
    ensures r.Ok? ==> end + 2 <= r.value.next
    ensures r.Ok? && decode ==> r.value.next <= |s|
    ensures r.Ok? && !decode ==>
      r.value.next == end + 2 && (end + 1 < |s| ==> CodesOf(r.value.text, s, end, end + 2))
    ensures r.Ok? ==> forall k :: end + 2 <= k < r.value.next && k < |s| ==> IsEscapeTail(s[k])
    ensures r.Err? ==> decode
  {
    if decode {
      var d, next := HandleStringEscape(s, end, strict);
      if d.Err? {
        return Err(d.error);
      }
      r := Ok(Piece(DecodedUnits(d.value), next));
    } else {
      r := Ok(Piece(Codes("\\" + At(s, end + 1)), end + 2));
    }
  }

  /** One pass of the string loop at `end`, which is not the closing quote: an
      escape, a raw line feed (the literal is unterminated) or a plain character. */
  method StepString(s: string, end: nat, decode: bool, strict: bool) returns (r: Result<Piece>)
    requires end < |s|
    ensures r.Ok? ==> end < r.value.next <= |s| + 1 && s[end] != '\n'
    ensures r.Ok? && s[end] != '\\' ==> r.value.next == end + 1 && CodesOf(r.value.text, s, end, end + 1)
    ensures r.Ok? ==> forall k :: end + 2 <= k < r.value.next && k < |s| ==> IsEscapeTail(s[k])
    ensures r.Ok? && decode ==> r.value.next <= |s|
    ensures r.Ok? && !decode ==>
      (s[end] == '\\' ==> r.value.next == end + 2)
      && (r.value.next <= |s| ==> CodesOf(r.value.text, s, end, r.value.next))
    ensures r.Err? ==>
      (s[end] == '\n' && r.error == UnterminatedString)
      || (decode && s[end] == '\\' && r.error.InvalidEscapeInString?)
  {
    if s[end] == '\\' {
      var x := LiteralEscape(s, end, decode, strict);
      if x.Err? {
        return Err(InvalidEscapeInString(x.error));
      }
      r := x;
    } else if s[end] == '\n' {
      r := Err(UnterminatedString);
    } else {
      r := Ok(Piece([s[end] as int], end + 1));
    }
  }

  datatype StringLiteral = StringLiteral(value: seq<int>, end: nat)

  /** The string loop from the quote `e` up to the closing quote: the text of the
      body (without the closing quote) and the index of that quote. */
  method StringBody(s: string, e: nat, decode: bool, strict: bool) returns (r: Result<Piece>)
    requires e < |s| && IsQuote(s[e])
    ensures r.Ok? ==> e < r.value.next < |s| && s[r.value.next] == s[e]
    ensures r.Err? ==> r.error == UnterminatedString || r.error.InvalidEscapeInString?
    ensures !decode ==>
      (r.Ok? <==> StringClose(s, e + 1, s[e]).Some?)
      && (r.Ok? ==> r.value.next == StringClose(s, e + 1, s[e]).value && CodesOf(r.value.text, s, e + 1, r.value.next))
    ensures PlainString(s, e + 1, s[e]) ==>
      (r.Ok? <==> StringClose(s, e + 1, s[e]).Some?)
      && (r.Err? ==> r.error == UnterminatedString)
      && (r.Ok? ==> r.value.next == StringClose(s, e + 1, s[e]).value && CodesOf(r.value.text, s, e + 1, r.value.next))
    ensures r.Ok? && (forall k :: e < k < r.value.next ==> s[k] != '\\') ==>
      CodesOf(r.value.text, s, e + 1, r.value.next)
    ensures r.Ok? ==>
      forall k :: e < k < r.value.next && (s[k] == '\n' || s[k] == s[e]) ==> s[k - 1] == '\\'
  {
    var quote := s[e];
    var end := e + 1;
    var value: seq<int> := [];
    ghost var plain, backslashAt := true, e;
    while end < |s| && s[end] != quote
      invariant e + 1 <= end <= |s| + 1
      invariant !decode ==> StringClose(s, e + 1, quote) == StringClose(s, end, quote)
      invariant end <= |s| && (!decode || plain) ==> CodesOf(value, s, e + 1, end)
      invariant plain ==> forall k :: e < k < end ==> k < |s| && s[k] != '\\'
      invariant !plain ==> e < backslashAt < end && backslashAt < |s| && s[backslashAt] == '\\'
      invariant forall k :: e < k < end && k < |s| && (s[k] == '\n' || s[k] == quote) ==> s[k - 1] == '\\'
      invariant PlainString(s, e + 1, quote) ==>
        end <= |s| && plain && PlainString(s, end, quote) && StringClose(s, e + 1, quote) == StringClose(s, end, quote)
      decreases |s| + 1 - end
    {
      var x := StepString(s, end, decode, strict);
      if x.Err? {
        return Err(x.error);
      }
      var next := x.value.next;
      if next <= |s| && (!decode || (plain && s[end] != '\\')) {
        CodesOfAppend(value, x.value.text, s, e + 1, end, next);
      }
      if plain && s[end] == '\\' {
        plain, backslashAt := false, end;
      }
      value := value + x.value.text;
      end := next;
    }
    if end >= |s| {
      return Err(UnterminatedString);
    }
    r := Ok(Piece(value, end));
  }

  /** The string branch at the quote `e`. Without escape decoding the value is the
      body as written plus the closing quote (the opening quote is not included); with
      decoding each escape contributes what the decoder returns. */
  method ScanString(s: string, e: nat, decode: bool, strict: bool) returns (r: Result<StringLiteral>)
    requires e < |s| && IsQuote(s[e])
    ensures r.Ok? ==> e + 2 <= r.value.end <= |s| && s[r.value.end - 1] == s[e]
    ensures r.Err? ==> r.error == UnterminatedString || r.error.InvalidEscapeInString?
    ensures !decode ==>
      (r.Ok? <==> StringClose(s, e + 1, s[e]).Some?)
      && (r.Ok? ==>
            r.value.end == StringClose(s, e + 1, s[e]).value + 1
            && r.value.value == Codes(s[e + 1..r.value.end]))
    // a body without escapes comes out the same in both modes
    ensures PlainString(s, e + 1, s[e]) ==>
      (r.Ok? <==> StringClose(s, e + 1, s[e]).Some?)
      && (r.Err? ==> r.error == UnterminatedString)
      && (r.Ok? ==>
            r.value.end == StringClose(s, e + 1, s[e]).value + 1
            && r.value.value == Codes(s[e + 1..r.value.end]))
    ensures r.Ok? && (forall k :: e < k < r.value.end ==> s[k] != '\\') ==>
      r.value.value == Codes(s[e + 1..r.value.end])
    // in either mode, a line feed or quote inside an accepted body comes right after a backslash
    ensures r.Ok? ==>
      forall k :: e < k < r.value.end - 1 && (s[k] == '\n' || s[k] == s[e]) ==> s[k - 1] == '\\'
  {
    var b := StringBody(s, e, decode, strict);
    if b.Err? {
      return Err(b.error);
    }
    var end := b.value.next;
    if CodesOf(b.value.text, s, e + 1, end) {
      CodesOfAppend(b.value.text, [s[e] as int], s, e + 1, end, end + 1);
      CodesOfIsCodes(b.value.text + [s[e] as int], s, e + 1, end + 1);
    }
    r := Ok(StringLiteral(b.value.text + [s[e] as int], end + 1));
  }

  // ---- Template literals ----

  /** Reference scan of a template body from `i` with escapes kept as written: a
      backslash passes over the next character and the first other backtick closes
      the template. `${` and `}` play no part: the source copies them like any other
      text, whatever its `inExpression` flag says. */
  function TemplateClose(s: string, i: nat): (r: Option<nat>)
    decreases |s| - i
  {
    if i >= |s| then None
    else if s[i] == '`' then Some(i)
    else if s[i] == '\\' then TemplateClose(s, i + 2)
    else TemplateClose(s, i + 1)
  }

  /** A closing backtick found by the reference scan lies after `i`, and every
      backtick before it is escaped. */
  lemma {:induction false} TemplateCloseSound(s: string, i: nat)
    requires TemplateClose(s, i).Some?
    ensures var c := TemplateClose(s, i).value;
      i <= c < |s| && s[c] == '`' && forall k :: i <= k < c && s[k] == '`' ==> i < k && s[k - 1] == '\\'
    decreases |s| - i
  {
    if s[i] != '`' {
      if s[i] == '\\' {
        TemplateCloseSound(s, i + 2);
      } else {
        TemplateCloseSound(s, i + 1);
      }
    }
  }

  /** The template body from `i` reaches its closing backtick or the end of input
      without passing a backslash, so no escape is decoded whatever the mode. */
  predicate PlainTemplate(s: string, i: nat)
    decreases |s| - i
  {
    i >= |s| || s[i] == '`' || (s[i] != '\\' && PlainTemplate(s, i + 1))
  }

  /** One pass of the template loop: the cooked text it appends, where it moves to
      (the raw text appended is the source passed over), and the new `inExpression`. */
  datatype TemplateStep = TemplateStep(cooked: seq<int>, next: nat, inExpression: bool)

  /** One pass of the template loop at `end`, which is not the closing backtick.
      Without decoding, or on anything but a backslash, the cooked text is the source
      text passed over; only a decoded escape can fail. */
  method StepTemplate(s: string, end: nat, inExpression: bool, decode: bool, strict: bool)
    returns (r: Result<TemplateStep>)
    requires end < |s| && s[end] != '`'
    ensures r.Ok? ==> end < r.value.next <= |s| + 1
    ensures r.Ok? && (!decode || s[end] != '\\') ==> TemplateClose(s, end) == TemplateClose(s, r.value.next)
    ensures r.Ok? && (!decode || s[end] != '\\') && r.value.next <= |s| ==>
      CodesOf(r.value.cooked, s, end, r.value.next)
    ensures r.Ok? && r.value.next > |s| ==> !decode && s[end] == '\\' && r.value.next == end + 2
    ensures r.Ok? && s[end] != '\\' ==> PlainTemplate(s, end) == PlainTemplate(s, r.value.next)
    ensures r.Err? ==> decode && s[end] == '\\'
  {
    if s[end] == '$' && end + 1 < |s| && s[end + 1] == '{' {
      r := Ok(TemplateStep(Codes("${"), end + 2, true));
    } else if s[end] == '}' && inExpression {
      r := Ok(TemplateStep(Codes("}"), end + 1, false));
    } else if s[end] == '\\' {
      var x := LiteralEscape(s, end, decode, strict);
      if x.Err? {
        return Err(x.error);
      }
      r := Ok(TemplateStep(x.value.text, x.value.next, inExpression));
    } else {
      r := Ok(TemplateStep([s[end] as int], end + 1, inExpression));
    }
  }

  datatype TemplateLiteral = TemplateLiteral(raw: string, cooked: seq<int>, end: nat)

  /** The template loop up to, not including, the closing backtick: it stops at a
      backtick or once past the end of input. The raw text is the source slice passed
      over, except that an escape cut off by the end of input is copied as a backslash
      followed by "undefined". */
  method ScanTemplateBody(s: string, e: nat, decode: bool, strict: bool) returns (r: Result<TemplateLiteral>)
    requires e < |s| && s[e] == '`'
    ensures r.Ok? ==>
      e + 1 <= r.value.end <= |s| + 1
      && (r.value.end < |s| ==> s[r.value.end] == '`')
      && (r.value.end <= |s| ==> r.value.raw == s[e..r.value.end])
    ensures r.Ok? && !decode ==> TemplateClose(s, e + 1) == TemplateClose(s, r.value.end)
    ensures r.Ok? && !decode && r.value.end <= |s| ==> CodesOf(r.value.cooked, s, e + 1, r.value.end)
    ensures r.Err? ==> decode && r.error.InvalidEscapeInTemplate?
    // a body without escapes is scanned the same in both modes
    ensures PlainTemplate(s, e + 1) ==>
      r.Ok? && r.value.end <= |s| && TemplateClose(s, e + 1) == TemplateClose(s, r.value.end)
      && CodesOf(r.value.cooked, s, e + 1, r.value.end)
  {
    var inExpression := false;
    var cooked: seq<int> := [];
    var raw := "`";
    var end := e + 1;
    while end < |s| && s[end] != '`'
      invariant e + 1 <= end <= |s| + 1
      invariant end <= |s| ==> raw == s[e..end]
      invariant !decode ==> TemplateClose(s, e + 1) == TemplateClose(s, end)
      invariant !decode && end <= |s| ==> CodesOf(cooked, s, e + 1, end)
      invariant PlainTemplate(s, e + 1) ==>
        end <= |s| && PlainTemplate(s, end) && TemplateClose(s, e + 1) == TemplateClose(s, end)
        && CodesOf(cooked, s, e + 1, end)
      decreases |s| + 1 - end
    {
      var step := StepTemplate(s, end, inExpression, decode, strict);
      if step.Err? {
        return Err(InvalidEscapeInTemplate(step.error));
      }
      var next := step.value.next;
      if next <= |s| {
        assert s[e..next] == s[e..end] + s[end..next];
        if !decode || PlainTemplate(s, e + 1) {
          CodesOfAppend(cooked, step.value.cooked, s, e + 1, end, next);
        }
        raw := raw + s[end..next];
      } else {
        raw := raw + "\\" + At(s, end + 1);
      }
      cooked := cooked + step.value.cooked;
      end := next;
      inExpression := step.value.inExpression;
    }
    r := Ok(TemplateLiteral(raw, cooked, end));
  }

  /** The template branch at the backtick `e`. The raw text is the source slice from
      the opening backtick on; the cooked text starts after it and decodes escapes
      when asked to. A template closed by the very last character of the input is
      reported unterminated, because the end is advanced past the backtick before the
      end-of-input check. */
  method ScanTemplate(s: string, e: nat, decode: bool, strict: bool) returns (r: Result<TemplateLiteral>)
    requires e < |s| && s[e] == '`'
    ensures r.Ok? ==>
      e + 2 <= r.value.end < |s| && s[r.value.end - 1] == '`'
      && r.value.raw == s[e..r.value.end]
    ensures r.Err? ==> r.error == UnterminatedTemplate || r.error.InvalidEscapeInTemplate?
    ensures !decode ==>
      (r.Ok? <==> TemplateClose(s, e + 1).Some? && TemplateClose(s, e + 1).value + 1 < |s|)
      && (r.Ok? ==>
            r.value.end == TemplateClose(s, e + 1).value + 1
            && Codes(r.value.raw) == ['`' as int] + r.value.cooked)
    // a body without escapes comes out the same in both modes
    ensures PlainTemplate(s, e + 1) ==>
      (r.Ok? <==> TemplateClose(s, e + 1).Some? && TemplateClose(s, e + 1).value + 1 < |s|)
      && (r.Err? ==> r.error == UnterminatedTemplate)
      && (r.Ok? ==>
            r.value.end == TemplateClose(s, e + 1).value + 1
            && Codes(r.value.raw) == ['`' as int] + r.value.cooked)
  {
    var body := ScanTemplateBody(s, e, decode, strict);
    if body.Err? {
      return Err(body.error);
    }
    var raw, cooked, end := body.value.raw, body.value.cooked, body.value.end;
    // The source's loop copies the closing backtick and then breaks.
    if end < |s| {
      if !decode || PlainTemplate(s, e + 1) {
        CodesOfAppend(cooked, ['`' as int], s, e + 1, end, end + 1);
      }
      assert s[e..end + 1] == s[e..end] + "`";
      cooked := cooked + ['`' as int];
      raw := raw + "`";
      end := end + 1;
    }
    if end >= |s| {
      return Err(UnterminatedTemplate);
    }
    if !decode || PlainTemplate(s, e + 1) {
      CodesOfAppend(['`' as int], cooked, s, e, e + 1, end);
      CodesOfIsCodes(['`' as int] + cooked, s, e, end);
      CodesOfIsCodes(Codes(raw), s, e, end);
    }
    r := Ok(TemplateLiteral(raw, cooked, end));
  }
}
