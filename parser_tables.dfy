/** The tables of the generated LR parser: grammar symbols, productions,
    the action and goto table and its default actions
    (src/jsonLintParser.ts:232-458). */
module ParserTables {
  import opened StringOps

  /** An entry of the table: `[1, n]` shift and go to state `n`, `[2, p]`
      reduce by production `p`, `[3]` accept, and a bare number the state to
      go to after a reduction produced a nonterminal. */
  datatype Action = Shift(target: nat) | Reduce(prod: nat) | Accept | Goto(target: nat)

  const ERROR_SYMBOL: int := 2
  const STATE_COUNT: nat := 32
  const PRODUCTION_COUNT: nat := 22

  /** `terminals_`: the names error messages give the terminals. */
  function TerminalName(id: int): Option<string>
  {
    match id
    case 2 => Some("error")
    case 4 => Some("STRING")
    case 6 => Some("NUMBER")
    case 8 => Some("NULL")
    case 10 => Some("TRUE")
    case 11 => Some("FALSE")
    case 14 => Some("EOF")
    case 17 => Some("{")
    case 18 => Some("}")
    case 21 => Some(":")
    case 22 => Some(",")
    case 23 => Some("[")
    case 24 => Some("]")
    case _ => None
  }

  /** The nonterminals of `symbols_`: JSONString, JSONNumber,
      JSONNullLiteral, JSONBooleanLiteral, JSONText, JSONValue, JSONObject,
      JSONArray, JSONMemberList, JSONMember and JSONElementList. */
  predicate IsNonterminal(id: int)
  {
    id == 3 || id == 5 || id == 7 || id == 9 || id == 12 || id == 13 || id == 15
    || id == 16 || id == 19 || id == 20 || id == 25
  }

  /** `productions_[p][0]`: the nonterminal production `p` produces. */
  function Lhs(p: nat): int
    requires 1 <= p < PRODUCTION_COUNT
  {
    if p == 1 then 3
    else if p == 2 then 5
    else if p == 3 then 7
    else if p <= 5 then 9
    else if p == 6 then 12
    else if p <= 12 then 13
    else if p <= 14 then 15
    else if p == 15 then 20
    else if p <= 17 then 19
    else if p <= 19 then 16
    else 25
  }

  /** `productions_[p][1]`: how many symbols production `p` replaces. */
  function Len(p: nat): nat
    requires 1 <= p < PRODUCTION_COUNT
  {
    if p <= 5 then 1
    else if p == 6 then 2
    else if p <= 12 then 1
    else if p == 13 then 2
    else if p == 14 || p == 15 then 3
    else if p == 16 then 1
    else if p == 17 then 3
    else if p == 18 then 2
    else if p == 19 then 3
    else if p == 20 then 1
    else 3
  }

  /** `table[state]`, its entries in ascending order of their keys, which is
      the order `for (p in table[state])` visits them. Any other state, such
      as the `undefined` a missing goto leaves on the stack, has no row. */
  function Row(state: int): seq<(int, Action)>
  {
    match state
    case 0 => [(3, Goto(5)), (4, Shift(12)), (5, Goto(6)), (6, Shift(13)), (7, Goto(3)), (8, Shift(9)), (9, Goto(4)), (10, Shift(10)), (11, Shift(11)), (12, Goto(1)), (13, Goto(2)), (15, Goto(7)), (16, Goto(8)), (17, Shift(14)), (23, Shift(15))]
    case 1 => [(1, Accept)]
    case 2 => [(14, Shift(16))]
    case 3 => [(14, Reduce(7)), (18, Reduce(7)), (22, Reduce(7)), (24, Reduce(7))]
    case 4 => [(14, Reduce(8)), (18, Reduce(8)), (22, Reduce(8)), (24, Reduce(8))]
    case 5 => [(14, Reduce(9)), (18, Reduce(9)), (22, Reduce(9)), (24, Reduce(9))]
    case 6 => [(14, Reduce(10)), (18, Reduce(10)), (22, Reduce(10)), (24, Reduce(10))]
    case 7 => [(14, Reduce(11)), (18, Reduce(11)), (22, Reduce(11)), (24, Reduce(11))]
    case 8 => [(14, Reduce(12)), (18, Reduce(12)), (22, Reduce(12)), (24, Reduce(12))]
    case 9 => [(14, Reduce(3)), (18, Reduce(3)), (22, Reduce(3)), (24, Reduce(3))]
    case 10 => [(14, Reduce(4)), (18, Reduce(4)), (22, Reduce(4)), (24, Reduce(4))]
    case 11 => [(14, Reduce(5)), (18, Reduce(5)), (22, Reduce(5)), (24, Reduce(5))]
    case 12 => [(14, Reduce(1)), (18, Reduce(1)), (21, Reduce(1)), (22, Reduce(1)), (24, Reduce(1))]
    case 13 => [(14, Reduce(2)), (18, Reduce(2)), (22, Reduce(2)), (24, Reduce(2))]
    case 14 => [(3, Goto(20)), (4, Shift(12)), (18, Shift(17)), (19, Goto(18)), (20, Goto(19))]
    case 15 => [(3, Goto(5)), (4, Shift(12)), (5, Goto(6)), (6, Shift(13)), (7, Goto(3)), (8, Shift(9)), (9, Goto(4)), (10, Shift(10)), (11, Shift(11)), (13, Goto(23)), (15, Goto(7)), (16, Goto(8)), (17, Shift(14)), (23, Shift(15)), (24, Shift(21)), (25, Goto(22))]
    case 16 => [(1, Reduce(6))]
    case 17 => [(14, Reduce(13)), (18, Reduce(13)), (22, Reduce(13)), (24, Reduce(13))]
    case 18 => [(18, Shift(24)), (22, Shift(25))]
    case 19 => [(18, Reduce(16)), (22, Reduce(16))]
    case 20 => [(21, Shift(26))]
    case 21 => [(14, Reduce(18)), (18, Reduce(18)), (22, Reduce(18)), (24, Reduce(18))]
    case 22 => [(22, Shift(28)), (24, Shift(27))]
    case 23 => [(22, Reduce(20)), (24, Reduce(20))]
    case 24 => [(14, Reduce(14)), (18, Reduce(14)), (22, Reduce(14)), (24, Reduce(14))]
    case 25 => [(3, Goto(20)), (4, Shift(12)), (20, Goto(29))]
    case 26 => [(3, Goto(5)), (4, Shift(12)), (5, Goto(6)), (6, Shift(13)), (7, Goto(3)), (8, Shift(9)), (9, Goto(4)), (10, Shift(10)), (11, Shift(11)), (13, Goto(30)), (15, Goto(7)), (16, Goto(8)), (17, Shift(14)), (23, Shift(15))]
    case 27 => [(14, Reduce(19)), (18, Reduce(19)), (22, Reduce(19)), (24, Reduce(19))]
    case 28 => [(3, Goto(5)), (4, Shift(12)), (5, Goto(6)), (6, Shift(13)), (7, Goto(3)), (8, Shift(9)), (9, Goto(4)), (10, Shift(10)), (11, Shift(11)), (13, Goto(31)), (15, Goto(7)), (16, Goto(8)), (17, Shift(14)), (23, Shift(15))]
    case 29 => [(18, Reduce(17)), (22, Reduce(17))]
    case 30 => [(18, Reduce(15)), (22, Reduce(15))]
    case 31 => [(22, Reduce(21)), (24, Reduce(21))]
    case _ => []
  }

  /** The first entry of `row` for `key`. */
  function Lookup(row: seq<(int, Action)>, key: int): (r: Option<Action>)
    ensures r.Some? ==> exists i :: 0 <= i < |row| && row[i] == (key, r.value)
    ensures r.None? ==> forall i :: 0 <= i < |row| ==> row[i].0 != key
  {
    if row == [] then None
    else if row[0].0 == key then Some(row[0].1)
    else
      var r := Lookup(row[1..], key);
      assert r.Some? ==> row[1..][0..] == row[1..];
      r
  }

  /** `table[state][symbol]`. */
  function ActionOf(state: int, symbol: int): Option<Action>
  {
    Lookup(Row(state), symbol)
  }

  /** `defaultActions`: state 16 reduces by production 6 without looking at
      the next token. */
  function DefaultAction(state: int): Option<Action>
  {
    if state == 16 then Some(Reduce(6)) else None
  }

  /** `expected` of an error report: the row's terminals with an id above
      `error`, each in single quotes, in the order of the row. */
  function Expected(row: seq<(int, Action)>): seq<string>
  {
    if row == [] then []
    else
      var k := row[0].0;
      var rest := Expected(row[1..]);
      if TerminalName(k).Some? && k > ERROR_SYMBOL then ["'" + TerminalName(k).value + "'"] + rest else rest
  }

  /** `expected.join(", ")`. */
  function JoinComma(items: seq<string>): string
  {
    if items == [] then ""
    else if |items| == 1 then items[0]
    else items[0] + ", " + JoinComma(items[1..])
  }

  // ---------------------------------------------------------------------
  // Facts about the states, read off the table.

  /** The symbol every transition into `state` is made on (the symbol the
      stack holds just below the state). */
  function Accessing(state: int): int
  {
    match state
    case 1 => 12
    case 2 => 13
    case 3 => 7
    case 4 => 9
    case 5 => 3
    case 6 => 5
    case 7 => 15
    case 8 => 16
    case 9 => 8
    case 10 => 10
    case 11 => 11
    case 12 => 4
    case 13 => 6
    case 14 => 17
    case 15 => 23
    case 16 => 14
    case 17 => 18
    case 18 => 19
    case 19 => 20
    case 20 => 3
    case 21 => 24
    case 22 => 25
    case 23 => 13
    case 24 => 18
    case 25 => 22
    case 26 => 21
    case 27 => 24
    case 28 => 22
    case 29 => 20
    case 30 => 13
    case 31 => 13
    case _ => 0
  }

  /** The fewest transitions that reach `state` from state 0. */
  function Depth(state: int): nat
  {
    if 1 <= state <= 15 then 1
    else if 16 <= state <= 23 then 2
    else if 24 <= state <= 28 then 3
    else if 29 <= state <= 31 then 4
    else 0
  }

  /** A weight per grammar symbol such that every reduction lowers the total
      weight of the symbols on the stack. */
  function SymbolWeight(sym: int): nat
  {
    if sym == 12 || sym == 25 then 1
    else if sym == 13 || sym == 19 then 2
    else if IsNonterminal(sym) then 3
    else 4
  }

  /** What an entry at `key` of `state`'s row must satisfy for the parse loop
      to keep its stack invariants and to terminate. */
  predicate EntryOK(state: int, key: int, a: Action)
  {
    && key != ERROR_SYMBOL
    && (a.Goto? <==> IsNonterminal(key))
    && (a.Accept? ==> key == 1)
    && (key == 1 ==> a.Accept? || state == 16)
    && ((a.Shift? || a.Goto?) ==> Accessing(a.target) == key && Depth(a.target) <= Depth(state) + 1)
    && (a.Reduce? ==>
          && 1 <= a.prod < PRODUCTION_COUNT
          && Len(a.prod) <= Depth(state)
          && SymbolWeight(Lhs(a.prod)) < SymbolWeight(Accessing(state)) + Len(a.prod) - 1)
  }

  /** Every entry of `row` from index `i` on is as `EntryOK` demands, and
      their keys ascend. */
  predicate RowOK(state: int, row: seq<(int, Action)>, i: nat)
    decreases |row| - i
  {
    i >= |row|
    || (&& EntryOK(state, row[i].0, row[i].1)
        && (i + 1 < |row| ==> row[i].0 < row[i + 1].0)
        && RowOK(state, row, i + 1))
  }

  predicate Ascending(row: seq<(int, Action)>)
  {
    forall i, j :: 0 <= i < j < |row| ==> row[i].0 < row[j].0
  }

  // ---------------------------------------------------------------------
  // Every row meets `EntryOK`, checked state by state.

  lemma Row0OK()
    ensures RowOK(0, Row(0), 0)
  {
    assert RowOK(0, Row(0), 8);
  }

  lemma Row1OK()
    ensures RowOK(1, Row(1), 0)
  {
  }

  lemma Row2OK()
    ensures RowOK(2, Row(2), 0)
  {
  }

  lemma Row3OK()
    ensures RowOK(3, Row(3), 0)
  {
  }

  lemma Row4OK()
    ensures RowOK(4, Row(4), 0)
  {
  }

  lemma Row5OK()
    ensures RowOK(5, Row(5), 0)
  {
  }

  lemma Row6OK()
    ensures RowOK(6, Row(6), 0)
  {
  }

  lemma Row7OK()
    ensures RowOK(7, Row(7), 0)
  {
  }

  lemma Row8OK()
    ensures RowOK(8, Row(8), 0)
  {
  }

  lemma Row9OK()
    ensures RowOK(9, Row(9), 0)
  {
  }

  lemma Row10OK()
    ensures RowOK(10, Row(10), 0)
  {
  }

  lemma Row11OK()
    ensures RowOK(11, Row(11), 0)
  {
  }

  lemma Row12OK()
    ensures RowOK(12, Row(12), 0)
  {
  }

  lemma Row13OK()
    ensures RowOK(13, Row(13), 0)
  {
  }

  lemma Row14OK()
    ensures RowOK(14, Row(14), 0)
  {
  }

  lemma Row15OK()
    ensures RowOK(15, Row(15), 0)
  {
    assert RowOK(15, Row(15), 8);
  }

  lemma Row16OK()
    ensures RowOK(16, Row(16), 0)
  {
  }

  lemma Row17OK()
    ensures RowOK(17, Row(17), 0)
  {
  }

  lemma Row18OK()
    ensures RowOK(18, Row(18), 0)
  {
  }

  lemma Row19OK()
    ensures RowOK(19, Row(19), 0)
  {
  }

  lemma Row20OK()
    ensures RowOK(20, Row(20), 0)
  {
  }

  lemma Row21OK()
    ensures RowOK(21, Row(21), 0)
  {
  }

  lemma Row22OK()
    ensures RowOK(22, Row(22), 0)
  {
  }

  lemma Row23OK()
    ensures RowOK(23, Row(23), 0)
  {
  }

  lemma Row24OK()
    ensures RowOK(24, Row(24), 0)
  {
  }

  lemma Row25OK()
    ensures RowOK(25, Row(25), 0)
  {
  }

  lemma Row26OK()
    ensures RowOK(26, Row(26), 0)
  {
    assert RowOK(26, Row(26), 8);
  }

  lemma Row27OK()
    ensures RowOK(27, Row(27), 0)
  {
  }

  lemma Row28OK()
    ensures RowOK(28, Row(28), 0)
  {
    assert RowOK(28, Row(28), 8);
  }

  lemma Row29OK()
    ensures RowOK(29, Row(29), 0)
  {
  }

  lemma Row30OK()
    ensures RowOK(30, Row(30), 0)
  {
  }

  lemma Row31OK()
    ensures RowOK(31, Row(31), 0)
  {
  }

  lemma RowsOK(s: int)
    requires 0 <= s < STATE_COUNT
    ensures RowOK(s, Row(s), 0)
  {
    if s == 0 { Row0OK(); }
    else if s == 1 { Row1OK(); }
    else if s == 2 { Row2OK(); }
    else if s == 3 { Row3OK(); }
    else if s == 4 { Row4OK(); }
    else if s == 5 { Row5OK(); }
    else if s == 6 { Row6OK(); }
    else if s == 7 { Row7OK(); }
    else if s == 8 { Row8OK(); }
    else if s == 9 { Row9OK(); }
    else if s == 10 { Row10OK(); }
    else if s == 11 { Row11OK(); }
    else if s == 12 { Row12OK(); }
    else if s == 13 { Row13OK(); }
    else if s == 14 { Row14OK(); }
    else if s == 15 { Row15OK(); }
    else if s == 16 { Row16OK(); }
    else if s == 17 { Row17OK(); }
    else if s == 18 { Row18OK(); }
    else if s == 19 { Row19OK(); }
    else if s == 20 { Row20OK(); }
    else if s == 21 { Row21OK(); }
    else if s == 22 { Row22OK(); }
    else if s == 23 { Row23OK(); }
    else if s == 24 { Row24OK(); }
    else if s == 25 { Row25OK(); }
    else if s == 26 { Row26OK(); }
    else if s == 27 { Row27OK(); }
    else if s == 28 { Row28OK(); }
    else if s == 29 { Row29OK(); }
    else if s == 30 { Row30OK(); }
    else if s == 31 { Row31OK(); }
  }

  lemma {:induction false} RowOKAt(s: int, row: seq<(int, Action)>, i: nat, j: nat)
    requires RowOK(s, row, i) && i <= j < |row|
    ensures EntryOK(s, row[j].0, row[j].1)
    ensures j + 1 < |row| ==> row[j].0 < row[j + 1].0
    decreases j - i
  {
    if i < j {
      RowOKAt(s, row, i + 1, j);
    }
  }

  /** Whatever the table holds for a state and a symbol is as `EntryOK`
      demands: no `error` entries, gotos exactly at nonterminals, shifts and
      gotos into states entered on that symbol and no deeper than one more
      than the state, and reductions that fit the stack and lower its
      weight. */
  lemma ActionFacts(state: int, key: int)
    requires ActionOf(state, key).Some?
    ensures EntryOK(state, key, ActionOf(state, key).value)
  {
    var row := Row(state);
    var i :| 0 <= i < |row| && row[i] == (key, ActionOf(state, key).value);
    RowsOK(state);
    RowOKAt(state, row, 0, i);
  }

  /** The keys of every row ascend, so listing a row in order lists it as
      `for (p in table[state])` does. */
  lemma RowKeysAscend(state: int)
    ensures Ascending(Row(state))
  {
    var row := Row(state);
    if 0 <= state < STATE_COUNT {
      RowsOK(state);
      forall i, j | 0 <= i < j < |row|
        ensures row[i].0 < row[j].0
      {
        AscendStep(state, row, i, j);
      }
    }
  }

  lemma {:induction false} AscendStep(state: int, row: seq<(int, Action)>, i: nat, j: nat)
    requires RowOK(state, row, 0) && i < j < |row|
    ensures row[i].0 < row[j].0
    decreases j - i
  {
    RowOKAt(state, row, 0, j - 1);
    if i < j - 1 {
      AscendStep(state, row, i, j - 1);
    }
  }

  /** Terminal names are distinct. */
  lemma TerminalNamesDistinct(a: int, b: int)
    requires TerminalName(a).Some? && TerminalName(a) == TerminalName(b)
    ensures a == b
  {
  }

  lemma QuotedInjective(x: string, y: string)
    requires "'" + x + "'" == "'" + y + "'"
    ensures x == y
  {
    assert x == ("'" + x + "'")[1..|x| + 1];
    assert y == ("'" + y + "'")[1..|y| + 1];
  }

  /** The expected list of an error report names exactly the terminals above
      `error` that have an entry in the row. */
  lemma {:induction false} ExpectedIff(row: seq<(int, Action)>, k: int)
    requires TerminalName(k).Some? && k > ERROR_SYMBOL
    ensures ("'" + TerminalName(k).value + "'" in Expected(row)) <==> Lookup(row, k).Some?
  {
    if row != [] {
      ExpectedIff(row[1..], k);
      var k0 := row[0].0;
      if TerminalName(k0).Some? && k0 > ERROR_SYMBOL {
        if "'" + TerminalName(k).value + "'" == "'" + TerminalName(k0).value + "'" {
          QuotedInjective(TerminalName(k).value, TerminalName(k0).value);
          TerminalNamesDistinct(k, k0);
        }
      }
    }
  }
}
