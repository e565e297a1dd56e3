/** The operator and punctuator branch of getNextFragment (lexer.ts) and
    `getOneCharTokenType`. */
module Operators {
  import opened Fragments
  import opened CharClass

  /** `getOneCharTokenType`: a character in the operator table is an Operator, else
      one in the punctuator table is a Punctuator, else it has no token type. */
  function OneCharTokenType(c: char, tables: Tables): (r: Option<FragmentType>)
    ensures r == Some(Operator) <==> [c] in tables.operators
    ensures r == Some(Punctuator) <==> [c] !in tables.operators && [c] in tables.punctuators
    ensures r == None <==> [c] !in tables.operators && [c] !in tables.punctuators
  {
    if [c] in tables.operators then Some(Operator)
    else if [c] in tables.punctuators then Some(Punctuator)
    else None
  }

  /** With the demo's empty tables no character has a token type. */
  lemma DemoHasNoOperators(c: char)
    ensures OneCharTokenType(c, DemoTables) == None
  {
  }

  predicate InTables(t: string, tables: Tables) {
    t in tables.operators || t in tables.punctuators
  }

  /** Where the greedy extension of `s[e..k)` stops: it takes the next character as
      long as the text with it is in one of the tables. */
  function GreedyEnd(s: string, e: nat, k: nat, tables: Tables): (r: nat)
    requires e <= k <= |s|
    ensures k <= r <= |s|
    decreases |s| - k
  {
    if k < |s| && InTables(s[e..k + 1], tables) then GreedyEnd(s, e, k + 1, tables) else k
  }

  /** Every step of the greedy extension is a table entry, and the next step would not be. */
  lemma {:induction false} GreedyChain(s: string, e: nat, k: nat, tables: Tables)
    requires e <= k <= |s|
    ensures forall j :: k < j <= GreedyEnd(s, e, k, tables) ==> InTables(s[e..j], tables)
    ensures GreedyEnd(s, e, k, tables) < |s| ==> !InTables(s[e..GreedyEnd(s, e, k, tables) + 1], tables)
    decreases |s| - k
  {
    if k < |s| && InTables(s[e..k + 1], tables) {
      GreedyChain(s, e, k + 1, tables);
    }
  }

  /** Every non-empty proper prefix of a table entry is itself an entry. */
  ghost predicate PrefixClosed(tables: Tables) {
    forall t, j :: InTables(t, tables) && 0 < j < |t| ==> InTables(t[..j], tables)
  }

  /** On prefix-closed tables the greedy extension finds the longest entry. */
  lemma GreedyIsLongest(s: string, e: nat, tables: Tables)
    requires e < |s| && PrefixClosed(tables)
    ensures forall j :: GreedyEnd(s, e, e + 1, tables) < j <= |s| ==> !InTables(s[e..j], tables)
  {
    var g := GreedyEnd(s, e, e + 1, tables);
    GreedyChain(s, e, e + 1, tables);
    forall j | g < j <= |s| ensures !InTables(s[e..j], tables) {
      assert s[e..j][..g + 1 - e] == s[e..g + 1];
    }
  }

  /** On tables that are not prefix-closed the extension can stop short: with `.` and
      `...` but not `..` listed, `...` is read as `.`. */
  lemma GreedyStopsShort()
    ensures GreedyEnd("...", 0, 1, Tables({}, {}, {".", "..."})) == 1
    ensures InTables("...", Tables({}, {}, {".", "..."}))
  {
    assert "..."[0..2] == "..";
  }

  /** The text `?.` right before a decimal digit: the source then rewinds. */
  predicate OptionalChainBeforeDigit(s: string, e: nat, end: nat) {
    e <= end < |s| && s[e..end] == "?." && IsDecimalDigit(s[end])
  }

  datatype OperatorScan =
    | NoTokenType                                           // the first character is in no table
    | Rewound                                              // `?.` before a digit: no fragment
    | Matched(kind: FragmentType, value: string, end: nat)

  /** The operator branch at `e`. The kind comes from the first character alone; the
      text is then extended greedily. */
  method ScanOperator(s: string, e: nat, tables: Tables) returns (r: OperatorScan)
    ensures r == NoTokenType <==> e >= |s| || OneCharTokenType(s[e], tables).None?
    ensures r == Rewound <==>
      e < |s| && OneCharTokenType(s[e], tables).Some?
      && OptionalChainBeforeDigit(s, e, GreedyEnd(s, e, e + 1, tables))
    ensures r.Matched? ==>
      e < r.end <= |s| && r.value == s[e..r.end]
      && Some(r.kind) == OneCharTokenType(s[e], tables)
      && r.end == GreedyEnd(s, e, e + 1, tables)
  {
    if e >= |s| {
      return NoTokenType;
    }
    var kind := OneCharTokenType(s[e], tables);
    if kind.None? {
      return NoTokenType;
    }
    var value := [s[e]];
    var end := e + 1;
    assert value == s[e..end];
    while end < |s| && InTables(value + [s[end]], tables)
      invariant e + 1 <= end <= |s| && value == s[e..end]
      invariant GreedyEnd(s, e, e + 1, tables) == GreedyEnd(s, e, end, tables)
      decreases |s| - end
    {
      assert s[e..end + 1] == value + [s[end]];
      value := value + [s[end]];
      end := end + 1;
    }
    if end < |s| {
      assert s[e..end + 1] == value + [s[end]];
    }
    if value == "?." && end < |s| && IsDecimalDigit(s[end]) {
      return Rewound;
    }
    r := Matched(kind.value, value, end);
  }
}
