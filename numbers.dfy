/** The numeric-literal branch of getNextFragment (lexer.ts): radix prefix, digit run
    with `_` separators, fraction, exponent, BigInt suffix and the check for an
    identifier right after the literal. */
module Numbers {
  import opened Fragments
  import opened CharClass

  /** The source's `numberType` radix (the BigInt bit is kept apart). */
  datatype Radix = Decimal | Hex | Octal | Binary

  /** `isDigitForNumberType`, per radix. */
  predicate IsRadixDigit(c: char, radix: Radix) {
    match radix
    case Decimal => '0' <= c <= '9'
    case Hex => ('0' <= c <= '9') || ('a' <= c <= 'f') || ('A' <= c <= 'F')
    case Octal => '0' <= c <= '7'
    case Binary => c == '0' || c == '1'
  }

  /** The branch is taken on a decimal digit, or on a `.` followed by one. */
  predicate NumberEntry(s: string, e: nat) {
    (e < |s| && IsDecimalDigit(s[e])) || (e + 1 < |s| && s[e] == '.' && IsDecimalDigit(s[e + 1]))
  }

  predicate IsLetterCase(c: char, lower: char) {
    c == lower || c as int == lower as int - 32
  }

  /** `0x`, `0o` or `0b` in either case at `e`. */
  predicate ExplicitPrefix(s: string, e: nat) {
    e + 1 < |s| && s[e] == '0'
    && (IsLetterCase(s[e + 1], 'x') || IsLetterCase(s[e + 1], 'o') || IsLetterCase(s[e + 1], 'b'))
  }

  /** A `0` followed by `0`-`7`: a legacy octal literal. */
  predicate LegacyOctalStart(s: string, e: nat) {
    e + 1 < |s| && s[e] == '0' && '0' <= s[e + 1] <= '7'
  }

  /** The radix the prefix check chooses. */
  function PrefixRadix(s: string, e: nat): Radix {
    if e + 1 < |s| && s[e] == '0' then
      if IsLetterCase(s[e + 1], 'x') then Hex
      else if IsLetterCase(s[e + 1], 'o') then Octal
      else if IsLetterCase(s[e + 1], 'b') then Binary
      else if '0' <= s[e + 1] <= '7' then Octal
      else Decimal
    else Decimal
  }

  /** `v` is `t` except that the prefix and exponent letters `X`, `O`, `B`, `E` may
      have been written in lower case (the source appends `0x`, `0o`, `0b`, `e`
      whatever case it read). */
  predicate CaseNormalized(v: string, t: string) {
    |v| == |t|
    && forall k :: 0 <= k < |v| ==>
      v[k] == t[k] || ((t[k] == 'X' || t[k] == 'O' || t[k] == 'B' || t[k] == 'E') && v[k] as int == t[k] as int + 32)
  }

  lemma CaseNormalizedAppend(v1: string, t1: string, v2: string, t2: string)
    requires CaseNormalized(v1, t1) && CaseNormalized(v2, t2)
    ensures CaseNormalized(v1 + v2, t1 + t2)
  {
    forall k | 0 <= k < |v1 + v2|
      ensures (v1 + v2)[k] == (t1 + t2)[k]
        || (((t1 + t2)[k] == 'X' || (t1 + t2)[k] == 'O' || (t1 + t2)[k] == 'B' || (t1 + t2)[k] == 'E')
            && (v1 + v2)[k] as int == (t1 + t2)[k] as int + 32)
    {
      if k >= |v1| {
        assert (v1 + v2)[k] == v2[k - |v1|] && (t1 + t2)[k] == t2[k - |v1|];
      }
    }
  }

  lemma CaseNormalizedSame(t: string)
    ensures CaseNormalized(t, t)
  {
  }

  /** No `_` directly after another `_`. */
  predicate NoDoubleSeparator(v: string) {
    forall k :: 0 < k < |v| && v[k] == '_' ==> v[k - 1] != '_'
  }

  predicate EndsWithSeparator(v: string) {
    |v| > 0 && v[|v| - 1] == '_'
  }

  lemma AppendKeepsNoDoubleSeparator(v: string, c: char)
    requires NoDoubleSeparator(v) && (c == '_' ==> !EndsWithSeparator(v))
    ensures NoDoubleSeparator(v + [c])
  {
    assert forall k :: 0 <= k < |v| ==> (v + [c])[k] == v[k];
  }

  // ---- The integer digit loop ----

  /** Where the digit loop that started at `from` stops, looking from `k` on: it takes
      a digit of `radix`, and a `_` unless the character before it was a `_` it took. */
  function DigitsEnd(s: string, from: nat, k: nat, radix: Radix): (r: nat)
    requires from <= k <= |s|
    ensures k <= r <= |s|
    decreases |s| - k
  {
    if k < |s| && (IsRadixDigit(s[k], radix) || (s[k] == '_' && !(from < k && s[k - 1] == '_')))
    then DigitsEnd(s, from, k + 1, radix)
    else k
  }

  /** The digit run holds only radix digits and separators, never two `_` in a row,
      and stops at a character that is not a radix digit, or at a second `_`. */
  lemma {:induction false} DigitsEndStops(s: string, from: nat, k: nat, radix: Radix)
    requires from <= k <= |s|
    ensures var r := DigitsEnd(s, from, k, radix);
      (forall j :: k <= j < r ==> IsRadixDigit(s[j], radix) || s[j] == '_')
      && (forall j :: k <= j < r && from < j && s[j] == '_' ==> s[j - 1] != '_')
      && (r < |s| ==> !IsRadixDigit(s[r], radix) && (s[r] == '_' ==> from < r && s[r - 1] == '_'))
    decreases |s| - k
  {
    if k < |s| && (IsRadixDigit(s[k], radix) || (s[k] == '_' && !(from < k && s[k - 1] == '_'))) {
      DigitsEndStops(s, from, k + 1, radix);
    }
  }

  /** Copies digits of `radix` and `_` separators from `from` on; a `_` is taken only
      when the value so far does not end in `_`. The value it starts from is a prefix
      (empty, `.` or a radix prefix), which never ends in `_`. */
  method ScanDigits(s: string, from: nat, radix: Radix, value0: string)
    returns (value: string, end: nat, hasDigits: bool)
    requires from <= |s| && NoDoubleSeparator(value0) && !EndsWithSeparator(value0)
    ensures from <= end <= |s| && value == value0 + s[from..end]
    ensures end == DigitsEnd(s, from, from, radix)
    ensures hasDigits <==> exists k :: from <= k < end && IsRadixDigit(s[k], radix)
    ensures NoDoubleSeparator(value)
  {
    value, end, hasDigits := value0, from, false;
    ghost var digitAt := from;
    while end < |s|
      invariant from <= end <= |s| && value == value0 + s[from..end]
      invariant hasDigits ==> from <= digitAt < end && IsRadixDigit(s[digitAt], radix)
      invariant !hasDigits ==> forall k :: from <= k < end ==> !IsRadixDigit(s[k], radix)
      invariant NoDoubleSeparator(value)
      invariant DigitsEnd(s, from, end, radix) == DigitsEnd(s, from, from, radix)
      invariant EndsWithSeparator(value) <==> from < end && s[end - 1] == '_'
    {
      assert s[from..end + 1] == s[from..end] + [s[end]];
      if IsRadixDigit(s[end], radix) {
        AppendKeepsNoDoubleSeparator(value, s[end]);
        value := value + [s[end]];
        hasDigits, digitAt := true, end;
      } else if s[end] == '_' && !EndsWithSeparator(value) {
        AppendKeepsNoDoubleSeparator(value, '_');
        value := value + "_";
      } else {
        assert DigitsEnd(s, from, end, radix) == end;
        break;
      }
      assert DigitsEnd(s, from, end, radix) == DigitsEnd(s, from, end + 1, radix);
      end := end + 1;
    }
  }

  // ---- Fraction ----

  /** A fraction `_` is acceptable at `k`: a decimal digit follows it. */
  predicate SeparatorFollowedByDigit(s: string, k: nat) {
    k + 1 < |s| && IsDecimalDigit(s[k + 1])
  }

  /** Where the fraction loop stops, looking from `k` on: it takes a decimal digit, and
      a `_` that a decimal digit follows. */
  function FractionStop(s: string, k: nat): (r: nat)
    requires k <= |s|
    ensures k <= r <= |s|
    decreases |s| - k
  {
    if k < |s| && (IsDecimalDigit(s[k]) || (s[k] == '_' && SeparatorFollowedByDigit(s, k)))
    then FractionStop(s, k + 1)
    else k
  }

  /** The fraction run holds decimal digits and `_` followed by a digit, and stops at
      anything else. */
  lemma {:induction false} FractionStopStops(s: string, k: nat)
    requires k <= |s|
    ensures var r := FractionStop(s, k);
      (forall j :: k <= j < r ==> IsDecimalDigit(s[j]) || (s[j] == '_' && SeparatorFollowedByDigit(s, j)))
      && (r < |s| ==> !IsDecimalDigit(s[r]) && (s[r] == '_' ==> !SeparatorFollowedByDigit(s, r)))
    decreases |s| - k
  {
    if k < |s| && (IsDecimalDigit(s[k]) || (s[k] == '_' && SeparatorFollowedByDigit(s, k))) {
      FractionStopStops(s, k + 1);
    }
  }

  /** What the fraction loop comes to for the `.` at `from`: a `_` without a digit after
      it is an invalid separator; otherwise at least one character must have been taken
      (a taken `_` is always followed by a taken digit), and the fraction ends where the
      loop stopped. */
  function Fraction(s: string, from: nat): (r: Result<nat>)
    requires from < |s|
    ensures r.Ok? ==>
      from + 1 < r.value <= |s|
      && (forall k :: from < k < r.value ==> IsDecimalDigit(s[k]) || s[k] == '_')
      && (forall k :: from < k < r.value && s[k] == '_' ==> k + 1 < r.value && IsDecimalDigit(s[k + 1]))
      && (r.value < |s| ==> !IsDecimalDigit(s[r.value]) && s[r.value] != '_')
    ensures r.Err? ==> r.error == InvalidNumericSeparator || r.error == ExpectedFractionDigits
    ensures r == Err(ExpectedFractionDigits) <==>
      from + 1 == |s| || (!IsDecimalDigit(s[from + 1]) && s[from + 1] != '_')
    ensures r == Err(InvalidNumericSeparator) ==>
      exists k :: from < k < |s| && s[k] == '_' && !SeparatorFollowedByDigit(s, k)
  {
    var q := FractionStop(s, from + 1);
    FractionStopStops(s, from + 1);
    if q < |s| && s[q] == '_' then Err(InvalidNumericSeparator)
    else if q == from + 1 then Err(ExpectedFractionDigits)
    else Ok(q)
  }

  datatype Scanned = Scanned(value: string, end: nat)

  /** The fraction after the `.` at `from`. Every `_` must be followed by a decimal
      digit (and not follow another `_`, which the first rule already excludes), and at
      least one digit is required. */
  method ScanFraction(s: string, from: nat, value0: string) returns (r: Result<Scanned>)
    requires from < |s| && s[from] == '.'
    ensures r.Ok? ==>
      from + 1 < r.value.end <= |s|
      && r.value.value == value0 + s[from..r.value.end]
      && (forall k :: from < k < r.value.end ==> IsDecimalDigit(s[k]) || s[k] == '_')
      && (forall k :: from < k < r.value.end && s[k] == '_' ==> k + 1 < r.value.end && IsDecimalDigit(s[k + 1]))
      && (r.value.end < |s| ==> !IsDecimalDigit(s[r.value.end]) && s[r.value.end] != '_')
    ensures r.Err? ==> r.error == InvalidNumericSeparator || r.error == ExpectedFractionDigits
    ensures r == Err(ExpectedFractionDigits) <==>
      from + 1 == |s| || (!IsDecimalDigit(s[from + 1]) && s[from + 1] != '_')
    ensures r == Err(InvalidNumericSeparator) ==>
      exists k :: from < k < |s| && s[k] == '_' && !SeparatorFollowedByDigit(s, k)
    ensures NoDoubleSeparator(value0) && r.Ok? ==> NoDoubleSeparator(r.value.value)
    ensures r.Ok? ==> Fraction(s, from) == Ok(r.value.end)
    ensures r.Err? ==> Fraction(s, from) == Err(r.error)
  {
    var value := value0 + ".";
    var end := from + 1;
    var hasDigits := false;
    assert s[from..end] == ".";
    while end < |s|
      invariant from + 1 <= end <= |s| && value == value0 + s[from..end]
      invariant EndsWithSeparator(value) ==> end > from + 1 && s[end - 1] == '_' && SeparatorFollowedByDigit(s, end - 1)
      invariant hasDigits <==> end > from + 1 && (s[from + 1] != '_' || end > from + 2)
      invariant FractionStop(s, from + 1) == FractionStop(s, end)
    {
      assert s[from..end + 1] == s[from..end] + [s[end]];
      if IsDecimalDigit(s[end]) {
        value := value + [s[end]];
        hasDigits := true;
      } else if s[end] == '_' {
        if EndsWithSeparator(value) || !SeparatorFollowedByDigit(s, end) {
          assert FractionStop(s, end) == end;
          r := Err(InvalidNumericSeparator);
          return;
        }
        value := value + "_";
      } else {
        break;
      }
      end := end + 1;
    }
    assert FractionStop(s, end) == end;
    if !hasDigits {
      r := Err(ExpectedFractionDigits);
      return;
    }
    assert Fraction(s, from) == Ok(end);
    if NoDoubleSeparator(value0) {
      FractionKeepsNoDoubleSeparator(s, from, end, value0);
    }
    r := Ok(Scanned(value, end));
  }

  /** A fraction whose every `_` is followed by a digit adds no double separator. */
  lemma FractionKeepsNoDoubleSeparator(s: string, from: nat, end: nat, value0: string)
    requires from < end <= |s| && s[from] == '.' && NoDoubleSeparator(value0)
    requires forall k :: from < k < end && s[k] == '_' ==> k + 1 < end && IsDecimalDigit(s[k + 1])
    ensures NoDoubleSeparator(value0 + s[from..end])
  {
    var v := value0 + s[from..end];
    forall i | 0 < i < |v| && v[i] == '_' ensures v[i - 1] != '_' {
      if i > |value0| {
        assert v[i] == s[from + i - |value0|] && v[i - 1] == s[from + i - |value0| - 1];
      } else if i < |value0| {
        assert v[i] == value0[i] && v[i - 1] == value0[i - 1];
      }
    }
  }

  // ---- Exponent ----

  /** Where a run of decimal digits from `k` ends. */
  function DecimalRunEnd(s: string, k: nat): (r: nat)
    requires k <= |s|
    ensures k <= r <= |s|
    ensures forall j :: k <= j < r ==> IsDecimalDigit(s[j])
    ensures r < |s| ==> !IsDecimalDigit(s[r])
    decreases |s| - k
  {
    if k < |s| && IsDecimalDigit(s[k]) then DecimalRunEnd(s, k + 1) else k
  }

  /** Where the exponent digits start after the `e` at `from`: past an optional sign. */
  function ExponentDigitsStart(s: string, from: nat): (d: nat)
    requires from < |s|
    ensures from + 1 <= d <= from + 2 && d <= |s|
  {
    if from + 1 < |s| && (s[from + 1] == '+' || s[from + 1] == '-') then from + 2 else from + 1
  }

  /** What the exponent loop comes to for the `e` at `from`: at least one digit after
      the optional sign, and the exponent ends with the digit run. */
  function Exponent(s: string, from: nat): (r: Result<nat>)
    requires from < |s|
    ensures r.Ok? ==> ExponentDigitsStart(s, from) < r.value <= |s|
    ensures r.Err? ==> r.error == ExpectedExponentDigits
  {
    var d := ExponentDigitsStart(s, from);
    var q := DecimalRunEnd(s, d);
    if q == d then Err(ExpectedExponentDigits) else Ok(q)
  }

  /** The exponent at `from` (`e` or `E`, appended as `e`): an optional sign, then at
      least one decimal digit. */
  method ScanExponent(s: string, from: nat, value0: string) returns (r: Result<Scanned>)
    requires from < |s| && IsLetterCase(s[from], 'e')
    ensures var d := if from + 1 < |s| && (s[from + 1] == '+' || s[from + 1] == '-') then from + 2 else from + 1;
      (r.Ok? ==>
        d < r.value.end <= |s|
        && r.value.value == value0 + "e" + s[from + 1..r.value.end]
        && (forall k :: d <= k < r.value.end ==> IsDecimalDigit(s[k]))
        && (r.value.end < |s| ==> !IsDecimalDigit(s[r.value.end])))
      && (r.Err? <==> d == |s| || !IsDecimalDigit(s[d]))
    ensures r.Err? ==> r.error == ExpectedExponentDigits
    ensures NoDoubleSeparator(value0) && r.Ok? ==> NoDoubleSeparator(r.value.value)
    ensures r.Ok? ==> Exponent(s, from) == Ok(r.value.end)
    ensures r.Err? ==> Exponent(s, from) == Err(r.error)
  {
    var value := value0 + "e";
    if NoDoubleSeparator(value0) {
      AppendKeepsNoDoubleSeparator(value0, 'e');
    }
    var end := from + 1;
    if end < |s| && (s[end] == '+' || s[end] == '-') {
      if NoDoubleSeparator(value0) {
        AppendKeepsNoDoubleSeparator(value, s[end]);
      }
      value := value + [s[end]];
      end := end + 1;
    }
    var d := end;
    while end < |s| && IsDecimalDigit(s[end])
      invariant d <= end <= |s| && value == value0 + "e" + s[from + 1..end]
      invariant forall k :: d <= k < end ==> IsDecimalDigit(s[k])
      invariant NoDoubleSeparator(value0) ==> NoDoubleSeparator(value)
      invariant DecimalRunEnd(s, d) == DecimalRunEnd(s, end)
    {
      if NoDoubleSeparator(value0) {
        AppendKeepsNoDoubleSeparator(value, s[end]);
      }
      value := value + [s[end]];
      end := end + 1;
    }
    if end == d {
      r := Err(ExpectedExponentDigits);
    } else {
      r := Ok(Scanned(value, end));
    }
  }

  // ---- The whole literal ----

  /** Extending a normalized prefix by a normalized continuation. */
  lemma NormalizedExtend(v: string, w: string, s: string, e: nat, a: nat, b: nat)
    requires e <= a <= b <= |s|
    requires CaseNormalized(v, s[e..a]) && CaseNormalized(w, s[a..b])
    ensures CaseNormalized(v + w, s[e..b])
  {
    assert s[e..b] == s[e..a] + s[a..b];
    CaseNormalizedAppend(v, s[e..a], w, s[a..b]);
  }

  /** Where the digit run starts: after an explicit prefix, after a leading `.`, or at
      the first character. */
  function DigitsStart(s: string, e: nat): (r: nat)
    requires NumberEntry(s, e)
    ensures e <= r <= |s|
  {
    if ExplicitPrefix(s, e) then e + 2 else if s[e] == '.' then e + 1 else e
  }

  /** What the prefix check appends: the `.`, or the radix prefix in lower case. */
  function PrefixText(s: string, e: nat): string
    requires NumberEntry(s, e)
  {
    if s[e] == '.' then "."
    else if ExplicitPrefix(s, e) then
      match PrefixRadix(s, e)
      case Hex => "0x"
      case Octal => "0o"
      case _ => "0b"
    else ""
  }

  /** The digit loop after the prefix takes at least one digit of the radix. */
  predicate HasDigits(s: string, e: nat)
    requires NumberEntry(s, e)
  {
    var from := DigitsStart(s, e);
    exists k :: from <= k < DigitsEnd(s, from, from, PrefixRadix(s, e)) && IsRadixDigit(s[k], PrefixRadix(s, e))
  }

  /** After an explicit prefix, neither a digit of the radix nor a `_` and such a digit
      follows. */
  predicate NoDigitAfterPrefix(s: string, e: nat) {
    var radix := PrefixRadix(s, e);
    !(e + 2 < |s| && (IsRadixDigit(s[e + 2], radix) || (s[e + 2] == '_' && e + 3 < |s| && IsRadixDigit(s[e + 3], radix))))
  }

  /** The digit loop finds no digit exactly after a bare radix prefix: a literal that
      starts with a digit, or with a `.` and a digit, always has one. */
  lemma ExpectedDigitsExactly(s: string, e: nat)
    requires NumberEntry(s, e)
    ensures !HasDigits(s, e) <==> ExplicitPrefix(s, e) && NoDigitAfterPrefix(s, e)
  {
    var from, radix := DigitsStart(s, e), PrefixRadix(s, e);
    var m := DigitsEnd(s, from, from, radix);
    if !ExplicitPrefix(s, e) {
      assert IsRadixDigit(s[from], radix);
      assert from < m;
    } else if from < |s| && IsRadixDigit(s[from], radix) {
      assert from < m;
    } else if from + 1 < |s| && s[from] == '_' && IsRadixDigit(s[from + 1], radix) {
      assert m == DigitsEnd(s, from, from + 1, radix);
      assert from + 1 < m;
    } else if from < |s| && s[from] == '_' {
      assert m == DigitsEnd(s, from, from + 1, radix) == from + 1;
    } else {
      assert m == from;
    }
  }

  datatype Prefix = Prefix(value: string, end: nat, radix: Radix)

  /** A radix prefix read in either case is stored in lower case. */
  lemma PrefixNormalized(s: string, e: nat, lower: char)
    requires e + 1 < |s| && s[e] == '0' && IsLetterCase(s[e + 1], lower)
    requires lower == 'x' || lower == 'o' || lower == 'b'
    ensures CaseNormalized(['0', lower], s[e..e + 2])
  {
    assert s[e..e + 2] == [s[e], s[e + 1]];
  }

  /** The leading `.` or radix prefix. A legacy octal start consumes nothing but sets
      the radix, and fails in strict mode. */
  method ScanPrefix(s: string, e: nat, strict: bool) returns (r: Result<Prefix>)
    requires NumberEntry(s, e)
    ensures r.Err? <==> LegacyOctalStart(s, e) && strict
    ensures r.Err? ==> r.error == OctalLiteralInStrictMode
    ensures r.Ok? ==>
      r.value.radix == PrefixRadix(s, e)
      && r.value.end == DigitsStart(s, e)
      && r.value.value == PrefixText(s, e)
      && CaseNormalized(r.value.value, s[e..r.value.end])
      && NoDoubleSeparator(r.value.value) && !EndsWithSeparator(r.value.value)
  {
    var value := "";
    var end := e;
    var radix := Decimal;
    if s[e] == '.' {
      assert s[e..e + 1] == ".";
      value := value + ".";
      end := end + 1;
      assert value == PrefixText(s, e) == ".";
    } else if s[end] == '0' && end + 1 < |s| {
      var next := s[end + 1];
      if IsLetterCase(next, 'x') {
        radix := Hex;
        PrefixNormalized(s, e, 'x');
        value := value + "0x";
        end := end + 2;
        assert value == PrefixText(s, e) == "0x";
      } else if IsLetterCase(next, 'o') {
        radix := Octal;
        PrefixNormalized(s, e, 'o');
        value := value + "0o";
        end := end + 2;
        assert value == PrefixText(s, e) == "0o";
      } else if IsLetterCase(next, 'b') {
        radix := Binary;
        PrefixNormalized(s, e, 'b');
        value := value + "0b";
        end := end + 2;
        assert value == PrefixText(s, e) == "0b";
      } else if '0' <= next <= '7' {
        if strict {
          r := Err(OctalLiteralInStrictMode);
          return;
        }
        radix := Octal;
      }
    }
    r := Ok(Prefix(value, end, radix));
  }

  /** The errors reported after the integer digits. */
  predicate IsTailError(error: LexError) {
    error == UnexpectedDecimalPoint || error == InvalidNumericSeparator || error == ExpectedFractionDigits
    || error == UnexpectedExponent || error == ExpectedExponentDigits || error == UnexpectedBigIntSuffix
    || error == UnexpectedIdentifierAfterNumber
  }

  /** The fraction, if a `.` follows the integer digits; an error on a non-decimal
      literal. `value` holds the literal from `e` up to `end`. */
  method ScanOptionalFraction(s: string, e: nat, end: nat, radix: Radix, value: string) returns (r: Result<Scanned>)
    requires e < end <= |s|
    requires CaseNormalized(value, s[e..end]) && NoDoubleSeparator(value)
    ensures (end == |s| || s[end] != '.') ==> r == Ok(Scanned(value, end))
    ensures end < |s| && s[end] == '.' && radix != Decimal ==> r == Err(UnexpectedDecimalPoint)
    ensures end < |s| && s[end] == '.' && radix == Decimal ==>
      match Fraction(s, end)
      case Ok(f) => r == Ok(Scanned(value + s[end..f], f))
      case Err(error) => r == Err(error)
    ensures r.Ok? ==>
      end <= r.value.end <= |s|
      && CaseNormalized(r.value.value, s[e..r.value.end])
      && NoDoubleSeparator(r.value.value)
    ensures r.Err? ==> IsTailError(r.error)
  {
    if end < |s| && s[end] == '.' {
      if radix != Decimal {
        return Err(UnexpectedDecimalPoint);
      }
      var f := ScanFraction(s, end, value);
      if f.Err? {
        return Err(f.error);
      }
      CaseNormalizedSame(s[end..f.value.end]);
      NormalizedExtend(value, s[end..f.value.end], s, e, end, f.value.end);
      return f;
    }
    return Ok(Scanned(value, end));
  }

  /** The exponent, if an `e` or `E` follows; an error on a non-decimal literal. */
  method ScanOptionalExponent(s: string, e: nat, end: nat, radix: Radix, value: string) returns (r: Result<Scanned>)
    requires e < end <= |s|
    requires CaseNormalized(value, s[e..end]) && NoDoubleSeparator(value)
    ensures (end == |s| || !IsLetterCase(s[end], 'e')) ==> r == Ok(Scanned(value, end))
    ensures end < |s| && IsLetterCase(s[end], 'e') && radix != Decimal ==> r == Err(UnexpectedExponent)
    ensures end < |s| && IsLetterCase(s[end], 'e') && radix == Decimal ==>
      match Exponent(s, end)
      case Ok(x) => r == Ok(Scanned(value + "e" + s[end + 1..x], x))
      case Err(error) => r == Err(error)
    ensures r.Ok? ==>
      end <= r.value.end <= |s|
      && CaseNormalized(r.value.value, s[e..r.value.end])
      && NoDoubleSeparator(r.value.value)
    ensures r.Err? ==> IsTailError(r.error)
  {
    if end < |s| && IsLetterCase(s[end], 'e') {
      if radix != Decimal {
        return Err(UnexpectedExponent);
      }
      var x := ScanExponent(s, end, value);
      if x.Err? {
        return Err(x.error);
      }
      assert CaseNormalized("e" + s[end + 1..x.value.end], s[end..x.value.end]);
      NormalizedExtend(value, "e" + s[end + 1..x.value.end], s, e, end, x.value.end);
      return x;
    }
    return Ok(Scanned(value, end));
  }

  /** A scanned numeric literal; the source keeps `radix` and `bigInt` together in
      its `numberType` bits. */
  datatype Number = Number(value: string, end: nat, radix: Radix, bigInt: bool)

  /** The BigInt suffix, or else the check that no identifier starts right after the
      literal. */
  method ScanSuffix(s: string, e: nat, end: nat, radix: Radix, value: string) returns (r: Result<Number>)
    requires e < end <= |s|
    requires CaseNormalized(value, s[e..end]) && NoDoubleSeparator(value)
    ensures end < |s| && s[end] == 'n' ==>
      r == if radix == Decimal then Ok(Number(value + "n", end + 1, radix, true)) else Err(UnexpectedBigIntSuffix)
    ensures !(end < |s| && s[end] == 'n') ==>
      r == if end < |s| && IsIdentifierStart(s[end]) then Err(UnexpectedIdentifierAfterNumber)
           else Ok(Number(value, end, radix, false))
    ensures r.Ok? ==>
      r.value.radix == radix
      && end <= r.value.end <= |s|
      && CaseNormalized(r.value.value, s[e..r.value.end])
      && NoDoubleSeparator(r.value.value)
    ensures r.Ok? && !r.value.bigInt ==> r.value.end == end && (end == |s| || !IsIdentifierStart(s[end]))
    ensures r.Err? ==> IsTailError(r.error)
  {
    if end < |s| && s[end] == 'n' {
      if radix != Decimal {
        return Err(UnexpectedBigIntSuffix);
      }
      NormalizedExtend(value, "n", s, e, end, end + 1);
      AppendKeepsNoDoubleSeparator(value, 'n');
      return Ok(Number(value + "n", end + 1, radix, true));
    } else if end < |s| && IsIdentifierStart(s[end]) {
      return Err(UnexpectedIdentifierAfterNumber);
    }
    return Ok(Number(value, end, radix, false));
  }

  // ---- The literal as a whole: a reference definition ----

  /** The literal from the BigInt check on, at `x`, with value `v` so far. */
  function FromSuffix(s: string, x: nat, radix: Radix, v: string): (r: Result<Number>)
    requires x <= |s|
    ensures r.Ok? ==> r.value.radix == radix
    ensures r.Ok? && r.value.bigInt ==> radix == Decimal && x < |s| && s[x] == 'n' && r.value.end == x + 1
    ensures r.Ok? && !r.value.bigInt ==> r.value.end == x && (x == |s| || !IsIdentifierStart(s[x]))
    ensures r.Err? ==> IsTailError(r.error)
  {
    if x < |s| && s[x] == 'n' then
      if radix == Decimal then Ok(Number(v + "n", x + 1, radix, true)) else Err(UnexpectedBigIntSuffix)
    else if x < |s| && IsIdentifierStart(s[x]) then Err(UnexpectedIdentifierAfterNumber)
    else Ok(Number(v, x, radix, false))
  }

  /** The literal from the exponent check on, at `f`. */
  function FromExponent(s: string, f: nat, radix: Radix, v: string): (r: Result<Number>)
    requires f <= |s|
    ensures r.Ok? ==> r.value.radix == radix && f <= r.value.end <= |s|
    ensures r.Ok? && radix != Decimal ==> !r.value.bigInt && r.value.end == f
    ensures r.Ok? && r.value.bigInt ==> radix == Decimal && 0 < r.value.end && s[r.value.end - 1] == 'n'
    ensures r.Ok? && !r.value.bigInt && r.value.end != f && r.value.end < |s| ==> !IsDecimalDigit(s[r.value.end])
    ensures r.Ok? && !r.value.bigInt && r.value.end < |s| ==> !IsIdentifierStart(s[r.value.end])
    ensures r.Err? ==> IsTailError(r.error)
  {
    if f < |s| && IsLetterCase(s[f], 'e') then
      if radix != Decimal then Err(UnexpectedExponent)
      else
        match Exponent(s, f)
        case Err(error) => Err(error)
        case Ok(x) => FromSuffix(s, x, radix, v + "e" + s[f + 1..x])
    else FromSuffix(s, f, radix, v)
  }

  /** The literal from the fraction check on, at `m`, just past the integer digits. */
  function FromFraction(s: string, m: nat, radix: Radix, v: string): (r: Result<Number>)
    requires m <= |s|
    ensures r.Ok? ==> r.value.radix == radix && m <= r.value.end <= |s|
    ensures r.Ok? && radix != Decimal ==> !r.value.bigInt && r.value.end == m && (m == |s| || s[m] != '.')
    ensures r.Ok? && r.value.bigInt ==> radix == Decimal && 0 < r.value.end && s[r.value.end - 1] == 'n'
    ensures r.Ok? && !r.value.bigInt && r.value.end != m && r.value.end < |s| ==> !IsDecimalDigit(s[r.value.end])
    ensures r.Ok? && !r.value.bigInt && r.value.end < |s| ==> !IsIdentifierStart(s[r.value.end])
    ensures r.Err? ==> IsTailError(r.error)
  {
    if m < |s| && s[m] == '.' then
      if radix != Decimal then Err(UnexpectedDecimalPoint)
      else
        match Fraction(s, m)
        case Err(error) => Err(error)
        case Ok(f) =>
          FractionStopStops(s, m + 1);
          FromExponent(s, f, radix, v + s[m..f])
    else FromExponent(s, m, radix, v)
  }

  /** The numeric literal at `e`, defined stage by stage from where each of the
      source's loops stops. */
  function NumberLiteral(s: string, e: nat, strict: bool): (r: Result<Number>)
    requires NumberEntry(s, e)
    ensures r == Err(OctalLiteralInStrictMode) <==> LegacyOctalStart(s, e) && strict
    ensures r == Err(ExpectedDigits) <==> ExplicitPrefix(s, e) && NoDigitAfterPrefix(s, e)
    ensures r.Err? ==> r.error == OctalLiteralInStrictMode || r.error == ExpectedDigits || IsTailError(r.error)
    ensures r.Ok? ==> r.value.radix == PrefixRadix(s, e) && e < r.value.end <= |s|
    ensures r.Ok? && r.value.bigInt ==> r.value.radix == Decimal && s[r.value.end - 1] == 'n'
    // after a literal without BigInt suffix: no further digit and no identifier start,
    // and no `.` after a non-decimal one
    ensures r.Ok? && !r.value.bigInt && r.value.end < |s| ==>
      !IsRadixDigit(s[r.value.end], r.value.radix) && !IsIdentifierStart(s[r.value.end])
      && (r.value.radix != Decimal ==> s[r.value.end] != '.')
  {
    ExpectedDigitsExactly(s, e);
    if LegacyOctalStart(s, e) && strict then Err(OctalLiteralInStrictMode)
    else if !HasDigits(s, e) then Err(ExpectedDigits)
    else
      var from, radix := DigitsStart(s, e), PrefixRadix(s, e);
      var m := DigitsEnd(s, from, from, radix);
      assert from < m;
      DigitsEndStops(s, from, from, radix);
      FromFraction(s, m, radix, PrefixText(s, e) + s[from..m])
  }

  /** A decimal literal ends at the first character that continues none of its parts. */
  lemma DecimalExample()
    ensures NumberLiteral("12;", 0, false) == Ok(Number("12", 2, Decimal, false))
  {
    var s := "12;";
    assert DigitsEnd(s, 0, 0, Decimal) == DigitsEnd(s, 0, 1, Decimal) == DigitsEnd(s, 0, 2, Decimal) == 2;
    assert IsRadixDigit(s[0], Decimal);
    assert HasDigits(s, 0);
    assert PrefixText(s, 0) + s[0..2] == "12";
    assert !IsIdentifierStart(s[2]);
    assert FromSuffix(s, 2, Decimal, "12") == Ok(Number("12", 2, Decimal, false));
  }

  /** A `.` not followed by a digit is a missing fraction. */
  lemma MissingFractionExample()
    ensures NumberLiteral("1.;", 0, false) == Err(ExpectedFractionDigits)
  {
    var s := "1.;";
    assert DigitsEnd(s, 0, 0, Decimal) == DigitsEnd(s, 0, 1, Decimal) == 1;
    assert IsRadixDigit(s[0], Decimal);
    assert FractionStop(s, 2) == 2;
  }

  /** A bare radix prefix has no digits. */
  lemma MissingDigitsExample()
    ensures NumberLiteral("0x;", 0, false) == Err(ExpectedDigits)
  {
    var s := "0x;";
    assert ExplicitPrefix(s, 0) && PrefixRadix(s, 0) == Hex;
    assert NoDigitAfterPrefix(s, 0);
  }

  /** An identifier start right after the literal is an error. */
  lemma IdentifierAfterExample()
    ensures NumberLiteral("3in", 0, false) == Err(UnexpectedIdentifierAfterNumber)
  {
    var s := "3in";
    assert DigitsEnd(s, 0, 0, Decimal) == DigitsEnd(s, 0, 1, Decimal) == 1;
    assert IsRadixDigit(s[0], Decimal);
  }

  /** A binary literal stops before a decimal digit that is not binary, which the
      identifier check then lets through. */
  lemma BinaryStopsExample()
    ensures NumberLiteral("0b12", 0, false) == Ok(Number("0b1", 3, Binary, false))
  {
    var s := "0b12";
    assert ExplicitPrefix(s, 0) && PrefixRadix(s, 0) == Binary;
    assert DigitsEnd(s, 2, 2, Binary) == DigitsEnd(s, 2, 3, Binary) == 3;
    assert IsRadixDigit(s[2], Binary);
    assert HasDigits(s, 0);
    assert PrefixText(s, 0) + s[2..3] == "0b1";
    assert !IsIdentifierStart(s[3]);
    assert FromSuffix(s, 3, Binary, "0b1") == Ok(Number("0b1", 3, Binary, false));
  }

  // ---- The scanner ----

  /** The prefix and the digit run after it, up to any fraction. */
  method ScanMantissa(s: string, e: nat, strict: bool) returns (r: Result<Scanned>)
    requires NumberEntry(s, e)
    ensures r == Err(OctalLiteralInStrictMode) <==> LegacyOctalStart(s, e) && strict
    ensures r == Err(ExpectedDigits) <==> ExplicitPrefix(s, e) && NoDigitAfterPrefix(s, e)
    ensures r.Err? ==> r.error == OctalLiteralInStrictMode || r.error == ExpectedDigits
    ensures r.Ok? <==> !(LegacyOctalStart(s, e) && strict) && HasDigits(s, e)
    ensures r.Ok? ==>
      e < r.value.end <= |s|
      && r.value.end == DigitsEnd(s, DigitsStart(s, e), DigitsStart(s, e), PrefixRadix(s, e))
      && r.value.value == PrefixText(s, e) + s[DigitsStart(s, e)..r.value.end]
      && CaseNormalized(r.value.value, s[e..r.value.end])
      && NoDoubleSeparator(r.value.value)
  {
    ExpectedDigitsExactly(s, e);
    var p := ScanPrefix(s, e, strict);
    if p.Err? {
      r := Err(p.error);
      return;
    }
    var value, end, hasDigits := ScanDigits(s, p.value.end, p.value.radix, p.value.value);
    if !hasDigits {
      if s[e] != '.' {
        r := Err(ExpectedDigits);
        return;
      }
      // The rewind to a `.` punctuator: entry required a digit after the `.`.
      assert false;
    }
    CaseNormalizedSame(s[p.value.end..end]);
    NormalizedExtend(p.value.value, s[p.value.end..end], s, e, p.value.end, end);
    r := Ok(Scanned(value, end));
  }

  /** Everything after the integer digits, which end at `m`. */
  method ScanTail(s: string, e: nat, m: nat, radix: Radix, value: string) returns (r: Result<Number>)
    requires e < m <= |s|
    requires CaseNormalized(value, s[e..m]) && NoDoubleSeparator(value)
    ensures r == FromFraction(s, m, radix, value)
    ensures r.Ok? ==>
      CaseNormalized(r.value.value, s[e..r.value.end]) && NoDoubleSeparator(r.value.value)
  {
    var f := ScanOptionalFraction(s, e, m, radix, value);
    if f.Err? {
      return Err(f.error);
    }
    assert FromFraction(s, m, radix, value) == FromExponent(s, f.value.end, radix, f.value.value);
    var x := ScanOptionalExponent(s, e, f.value.end, radix, f.value.value);
    if x.Err? {
      return Err(x.error);
    }
    assert FromExponent(s, f.value.end, radix, f.value.value) == FromSuffix(s, x.value.end, radix, x.value.value);
    r := ScanSuffix(s, e, x.value.end, radix, x.value.value);
  }

  /** The numeric-literal branch at `e`: the reference definition, whose value is the
      source text with only the prefix and exponent letters lower-cased and without a
      double separator. */
  method ScanNumber(s: string, e: nat, strict: bool) returns (r: Result<Number>)
    requires NumberEntry(s, e)
    ensures r == NumberLiteral(s, e, strict)
    ensures r.Ok? ==>
      CaseNormalized(r.value.value, s[e..r.value.end]) && NoDoubleSeparator(r.value.value)
    ensures r.Ok? && r.value.radix != Decimal ==>
      forall k :: DigitsStart(s, e) <= k < r.value.end ==> IsRadixDigit(s[k], r.value.radix) || s[k] == '_'
  {
    var m := ScanMantissa(s, e, strict);
    if m.Err? {
      return Err(m.error);
    }
    DigitsEndStops(s, DigitsStart(s, e), DigitsStart(s, e), PrefixRadix(s, e));
    r := ScanTail(s, e, m.value.end, PrefixRadix(s, e), m.value.value);
  }
}
