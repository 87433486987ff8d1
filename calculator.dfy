/** `calculateDiffs` (src/calculateDiffs.ts:653-693): validate both texts with
    the generated parser, print both values with the path table, walk them
    side by side, and order the differences by the left-hand line. */
module Calculator {
  import opened StringOps
  import opened Json
  import opened Printer
  import opened Differ
  import DifferProperties
  import JsonLexer
  import JsonParser

  /** What `calculateDiffs` returns, or the message of what it throws. */
  datatype DiffResult =
    | Valid(leftOutput: string, rightOutput: string, diffs: seq<Diff>)
    | Invalid(leftError: Option<string>, rightError: Option<string>)
    | Thrown(msg: string)

  // ---------------------------------------------------------------------
  // `diffs.slice().sort((a, b) => a.path1.line - b.path1.line)`: a stable
  // sort by the left-hand line.

  predicate SortedByLine(ds: seq<Diff>)
  {
    forall i, j :: 0 <= i < j < |ds| ==> ds[i].path1.line <= ds[j].path1.line
  }

  /** `d` placed before the first element whose line is not below its own. */
  function InsertByLine(d: Diff, ds: seq<Diff>): seq<Diff>
  {
    if ds == [] || d.path1.line <= ds[0].path1.line then [d] + ds
    else [ds[0]] + InsertByLine(d, ds[1..])
  }

  function SortByLine(ds: seq<Diff>): seq<Diff>
  {
    if ds == [] then [] else InsertByLine(ds[0], SortByLine(ds[1..]))
  }

  /** The differences on one left-hand line, in order. */
  function OnLine(ds: seq<Diff>, line: int): seq<Diff>
  {
    if ds == [] then []
    else if ds[0].path1.line == line then [ds[0]] + OnLine(ds[1..], line)
    else OnLine(ds[1..], line)
  }

  lemma InsertSorted(d: Diff, ds: seq<Diff>)
    requires SortedByLine(ds)
    ensures SortedByLine(InsertByLine(d, ds))
    ensures multiset(InsertByLine(d, ds)) == multiset(ds) + multiset{d}
  {
    InsertByLineOrder(d, ds);
    InsertByLineKeeps(d, ds);
  }

  lemma {:induction false} InsertByLineOrder(d: Diff, ds: seq<Diff>)
    requires SortedByLine(ds)
    ensures SortedByLine(InsertByLine(d, ds))
    ensures |InsertByLine(d, ds)| == |ds| + 1
    ensures InsertByLine(d, ds)[0] == d || InsertByLine(d, ds)[0] == ds[0]
  {
    if ds != [] && d.path1.line > ds[0].path1.line {
      InsertByLineOrder(d, ds[1..]);
      var rest := InsertByLine(d, ds[1..]);
      assert SortedByLine(rest);
      assert rest[0].path1.line >= ds[0].path1.line;
      var r := [ds[0]] + rest;
      forall i, j | 0 <= i < j < |r|
        ensures r[i].path1.line <= r[j].path1.line
      {
        if i > 0 {
          assert r[i] == rest[i - 1] && r[j] == rest[j - 1];
        } else {
          assert rest[0].path1.line <= rest[j - 1].path1.line;
        }
      }
    }
  }

  lemma {:induction false} InsertByLineKeeps(d: Diff, ds: seq<Diff>)
    ensures multiset(InsertByLine(d, ds)) == multiset(ds) + multiset{d}
  {
    if ds != [] && d.path1.line > ds[0].path1.line {
      InsertByLineKeeps(d, ds[1..]);
      assert ds == [ds[0]] + ds[1..];
    }
  }

  /** The sort orders by line and keeps every difference, each as often as
      it occurs. */
  lemma {:induction false} SortByLineSorts(ds: seq<Diff>)
    ensures SortedByLine(SortByLine(ds))
    ensures multiset(SortByLine(ds)) == multiset(ds)
  {
    if ds != [] {
      SortByLineSorts(ds[1..]);
      InsertSorted(ds[0], SortByLine(ds[1..]));
      assert ds == [ds[0]] + ds[1..];
    }
  }

  lemma {:induction false} OnLineAppend(a: seq<Diff>, b: seq<Diff>, line: int)
    ensures OnLine(a + b, line) == OnLine(a, line) + OnLine(b, line)
  {
    if a == [] {
      assert a + b == b;
    } else {
      OnLineAppend(a[1..], b, line);
      assert (a + b)[0] == a[0];
      assert (a + b)[1..] == a[1..] + b;
      if a[0].path1.line == line {
        assert [a[0]] + (OnLine(a[1..], line) + OnLine(b, line)) == ([a[0]] + OnLine(a[1..], line)) + OnLine(b, line);
      }
    }
  }

  lemma {:induction false} InsertOnLine(d: Diff, ds: seq<Diff>, line: int)
    ensures OnLine(InsertByLine(d, ds), line) == OnLine([d], line) + OnLine(ds, line)
  {
    if ds == [] || d.path1.line <= ds[0].path1.line {
      OnLineAppend([d], ds, line);
    } else {
      var rest := InsertByLine(d, ds[1..]);
      InsertOnLine(d, ds[1..], line);
      OnLineAppend([ds[0]], rest, line);
      OnLineAppend([ds[0]], ds[1..], line);
      assert [ds[0]] + ds[1..] == ds;
      // `d` and `ds[0]` are on different lines, so at most one is kept.
      assert [d][1..] == [] && [ds[0]][1..] == [];
      if d.path1.line == line {
        assert OnLine([ds[0]], line) == [];
      } else {
        assert OnLine([d], line) == [];
      }
    }
  }

  /** The sort is stable: the differences on any one line keep their order. */
  lemma {:induction false} SortByLineStable(ds: seq<Diff>, line: int)
    ensures OnLine(SortByLine(ds), line) == OnLine(ds, line)
  {
    if ds != [] {
      SortByLineStable(ds[1..], line);
      InsertOnLine(ds[0], SortByLine(ds[1..]), line);
      OnLineAppend([ds[0]], ds[1..], line);
      assert [ds[0]] + ds[1..] == ds;
    }
  }

  // ---------------------------------------------------------------------
  // The whole computation.

  /** `getInputError` run on the parser object. */
  method GetInputErrorOf(lexer: JsonLexer.Lexer, input: string) returns (e: Option<string>)
    modifies lexer
    ensures e == JsonParser.GetInputError(input)
  {
    var outcome := JsonParser.Parse(lexer, input);
    match outcome {
      case Returned(_) => e := None;
      case Threw(msg) => e := Some(msg);
    }
  }

  /** What `calculateDiffs` returns when both texts parse: `table` holds the
      rows the path table had before, then the left document's, then the
      right document's, and both sides of the walk look paths up in it. */
  function ValidSpec(leftValue: Value, rightValue: Value, table0: seq<PathEntry>, segs0: seq<string>): DiffResult
  {
    var left := DecorateSpec(leftValue, -1, segs0, 1, table0 == []);
    var segs1 := if leftValue.Arr? then Popped(segs0) else segs0;
    var right := DecorateSpec(rightValue, -1, segs1, 1, table0 + left.entries == []);
    var table := table0 + left.entries + right.entries;
    WalkResult(leftValue, rightValue, left.text, right.text, table, table)
  }

  /** The walk with empty segment stacks, the left side looked up in `t1`
      and the right side in `t2`, then the sort; `leftText` and `rightText`
      are the printed documents. */
  function WalkResult(leftValue: Value, rightValue: Value, leftText: string, rightText: string,
                      t1: seq<PathEntry>, t2: seq<PathEntry>): DiffResult
  {
    var w := DiffValSpec(leftValue, rightValue, [], [], t1, t2);
    if w.thrown.Some? then Thrown(w.thrown.value) else Valid(leftText, rightText, SortByLine(w.diffs))
  }

  /** When both texts are valid and the walk does not throw, the result
      lists no difference exactly when the two values are the same JSON
      value. */
  lemma NoDiffsIffSame(leftValue: Value, rightValue: Value, table0: seq<PathEntry>, segs0: seq<string>)
    requires ValidSpec(leftValue, rightValue, table0, segs0).Valid?
    ensures ValidSpec(leftValue, rightValue, table0, segs0).diffs == [] <==> Same(leftValue, rightValue)
  {
    var left := DecorateSpec(leftValue, -1, segs0, 1, table0 == []);
    var segs1 := if leftValue.Arr? then Popped(segs0) else segs0;
    var right := DecorateSpec(rightValue, -1, segs1, 1, table0 + left.entries == []);
    var table := table0 + left.entries + right.entries;
    WalkEmptyIff(leftValue, rightValue, left.text, right.text, table, table);
  }

  /** The sorted walk is empty exactly when the values are the same. */
  lemma WalkEmptyIff(leftValue: Value, rightValue: Value, leftText: string, rightText: string,
                     t1: seq<PathEntry>, t2: seq<PathEntry>)
    requires WalkResult(leftValue, rightValue, leftText, rightText, t1, t2).Valid?
    ensures WalkResult(leftValue, rightValue, leftText, rightText, t1, t2).diffs == [] <==> Same(leftValue, rightValue)
  {
    var w := DiffValSpec(leftValue, rightValue, [], [], t1, t2);
    DifferProperties.ValSameIff(leftValue, rightValue, [], [], t1, t2);
    SortByLineEmpty(w.diffs);
  }

  lemma SortByLineEmpty(ds: seq<Diff>)
    ensures SortByLine(ds) == [] <==> ds == []
  {
  }

  // ---------------------------------------------------------------------
  // The shared path table. Both configs are shallow copies of
  // `DEFAULT_CONFIG`, so they push onto, and `generateDiff` searches, one
  // array: the right-hand lookup of a path the left document also has finds
  // the left document's row, and the right-hand highlight lands on the
  // left document's line.

  /** Two documents of the same shape, `{"//": 1}` and `{"//": 2}`: the
      member's row is `/#/`, but `generateDiff` strips the lookup to `/#`,
      which no row has, so the call throws instead of reporting the
      different numbers. */
  lemma SlashKeyThrows()
    ensures var left := Obj([Member("//", Num(Number("1")))]);
      var right := Obj([Member("//", Num(Number("2")))]);
      && TableAfter(left, right, [], []) == [PathEntry("/", 1), PathEntry("/#/", 2), PathEntry("/#/", 2)]
      && ValidSpec(left, right, [], []) == Thrown(LookupError("Both sides should be equal numbers", "/#"))
  {
    var left := Obj([Member("//", Num(Number("1")))]);
    var right := Obj([Member("//", Num(Number("2")))]);
    var t := [PathEntry("/", 1), PathEntry("/#/", 2), PathEntry("/#/", 2)];
    SlashSegment();
    SlashKeyTable();
    SlashKeyWalk(t);
    WalkThrows(left, right, [], [], t, LookupError("Both sides should be equal numbers", "/#"));
  }

  /** The shared table after `{"//": 1}` and `{"//": 2}`: the left root row
      and member row, then the right member row, both members on line 2. */
  lemma SlashKeyTable()
    ensures TableAfter(Obj([Member("//", Num(Number("1")))]), Obj([Member("//", Num(Number("2")))]), [], [])
      == [PathEntry("/", 1), PathEntry("/#/", 2), PathEntry("/#/", 2)]
  {
    SlashSegment();
    OneMemberTable("//", Num(Number("1")), Num(Number("2")));
  }

  /** The shared table after two one-member objects with the same key and
      number values: the left root row and member row, then the right
      member row, both members on line 2. */
  lemma OneMemberTable(key: string, v1: Value, v2: Value)
    requires v1.Num? && v2.Num?
    ensures var row := PathEntry(GeneratePath([Separator, ReplaceFirst(key, '/', "#")], None), 2);
      TableAfter(Obj([Member(key, v1)]), Obj([Member(key, v2)]), [], []) == [PathEntry("/", 1), row, row]
  {
    var row := PathEntry(GeneratePath([Separator, ReplaceFirst(key, '/', "#")], None), 2);
    OneMemberRows(key, v1, true);
    OneMemberRows(key, v2, false);
    assert RootEntry(true, [], 1) == [PathEntry("/", 1)] by {
      assert GeneratePath([], None) == "/";
    }
    TableOfObject(Obj([Member(key, v1)]), Obj([Member(key, v2)]), [PathEntry("/", 1), row], [row]);
  }

  /** From an empty table and stack, a left document that is not an array
      and prints some rows is followed by the right document's rows, printed
      without a root row. */
  lemma TableOfObject(leftValue: Value, rightValue: Value, le: seq<PathEntry>, re: seq<PathEntry>)
    requires !leftValue.Arr? && le != []
    requires DecorateSpec(leftValue, -1, [], 1, true).entries == le
    requires DecorateSpec(rightValue, -1, [], 1, false).entries == re
    ensures TableAfter(leftValue, rightValue, [], []) == le + re
  {
    assert [] + le == le;
  }

  /** A call whose walk over the shared table throws reports that error. */
  lemma WalkThrows(leftValue: Value, rightValue: Value, table0: seq<PathEntry>, segs0: seq<string>,
                   t: seq<PathEntry>, err: string)
    requires TableAfter(leftValue, rightValue, table0, segs0) == t
    requires DiffValSpec(leftValue, rightValue, [], [], t, t).thrown == Some(err)
    ensures ValidSpec(leftValue, rightValue, table0, segs0) == Thrown(err)
  {
  }

  /** The key `//` becomes the segment `#/`, its row is `/#/`, and the
      lookup `generateDiff` makes for it is `/#`. */
  lemma SlashSegment()
    ensures ReplaceFirst("//", '/', "#") == "#/"
    ensures GeneratePath([Separator, "#/"], None) == "/#/"
    ensures StripSeparator("/#/") == "/#"
  {
    ReplaceFirstSpec("//", '/', "#");
    assert IndexOf("//", '/') == 0;
    assert [Separator, "#/"][..1] == [Separator];
    assert Concat([Separator]) == "/";
    assert Concat([Separator, "#/"]) == "/#/";
  }

  /** The rows of a one-member object whose value is a number: the root row
      when the table was empty, then the member's row on line 2. */
  lemma OneMemberRows(key: string, v: Value, empty: bool)
    requires v.Num?
    ensures DecorateSpec(Obj([Member(key, v)]), -1, [], 1, empty).entries
      == RootEntry(empty, [], 1) + [PathEntry(GeneratePath([Separator, ReplaceFirst(key, '/', "#")], None), 2)]
  {
    var ms := [Member(key, v)];
    var seg := ReplaceFirst(key, '/', "#");
    assert Keys(ms) == [key];
    assert SortStrings([key]) == [key];
    var e := OpenIndent(-1);
    assert [] + [Separator] == [Separator];
    assert [Separator] + [seg] == [Separator, seg];
    assert ValSpec(v, e, [Separator, seg], 2, false).entries == [];
    var m := MemberSpec(key, v, e, [Separator], 1);
    assert m.entries == [PathEntry(GeneratePath([Separator, seg], None), 2)];
    assert KeyIndex(ms, key) == 0;
    assert MembersSpec(ms, [key], 1, e, [Separator], m.line).entries == [];
    var body := MembersSpec(ms, [key], 0, e, [Separator], 1);
    assert body.entries == m.entries;
    assert DecorateSpec(Obj(ms), -1, [], 1, empty).entries == RootEntry(empty, [], 1) + body.entries;
  }

  /** The walk over the two one-member objects: the numbers differ, and the
      lookup of `/#` in the shared table throws. */
  lemma SlashKeyWalk(t: seq<PathEntry>)
    requires t == [PathEntry("/", 1), PathEntry("/#/", 2), PathEntry("/#/", 2)]
    requires ReplaceFirst("//", '/', "#") == "#/"
    requires GeneratePath([Separator, "#/"], None) == "/#/"
    requires StripSeparator("/#/") == "/#"
    ensures DiffValSpec(Obj([Member("//", Num(Number("1")))]), Obj([Member("//", Num(Number("2")))]), [], [], t, t)
      == Walk([], Some(LookupError("Both sides should be equal numbers", "/#")))
  {
    var m1 := [Member("//", Num(Number("1")))];
    var m2 := [Member("//", Num(Number("2")))];
    var err := Walk([], Some(LookupError("Both sides should be equal numbers", "/#")));
    assert forall i | 0 <= i < |t| :: t[i].path != "/#";
    assert FindPath(t, "/#") == |t|;
    assert KeyIndex(m2, "//") == 0;
    assert [] + [Separator] == [Separator];
    var msg := "Both sides should be equal numbers";
    assert GenerateDiff(t, "/#/", t, "/#/", msg, Eq) == Err(LookupError(msg, "/#"));
    assert Here(t, [Separator, "#/"], t, [Separator, "#/"], msg, Eq) == err;
    assert [Separator] + ["#/"] == [Separator, "#/"];
    assert DiffValSpec(m1[0].val, m2[0].val, [Separator, "#/"], [Separator, "#/"], t, t) == err;
    assert LeftMemberSpec(m1, m2, 0, [Separator], [Separator], t, t) == err;
    assert LeftMembersSpec(m1, m2, 0, [Separator], [Separator], t, t) == err;
  }

  /** The left document `[{}, 1]` and the right document `[0, 2]`: element 1
      is on line 4 on the left and on line 3 on the right, yet the `eq` diff
      about it gives line 4 for both sides. */
  lemma SharedTableMisplacesRight()
    ensures var left := Arr([Obj([]), Num(Number("1"))]);
      var right := Arr([Num(Number("0")), Num(Number("2"))]);
      var r := ValidSpec(left, right, [], []);
      && TableAfter(left, right, [], []) ==
           [PathEntry("/", 1), PathEntry("/[0]", 2), PathEntry("/[1]", 4), PathEntry("/[0]", 2), PathEntry("/[1]", 3)]
      && r.Valid? && |r.diffs| == 2
      && r.diffs[1].kind == Eq && r.diffs[1].path1 == PathEntry("/[1]", 4) && r.diffs[1].path2 == PathEntry("/[1]", 4)
  {
    var d0 := Diff(PathEntry("/[0]", 2), PathEntry("/[0]", 2), Type, TypeMsg(Obj([])));
    var d1 := Diff(PathEntry("/[1]", 4), PathEntry("/[1]", 4), Eq, "Both sides should be equal numbers");
    ExampleTable();
    SharedExampleWalk(d0, d1);
    ExampleSorted(d0, d1);
  }

  /** The walk of the example over the shared table. */
  lemma SharedExampleWalk(d0: Diff, d1: Diff)
    requires d0 == Diff(PathEntry("/[0]", 2), PathEntry("/[0]", 2), Type, TypeMsg(Obj([])))
    requires d1 == Diff(PathEntry("/[1]", 4), PathEntry("/[1]", 4), Eq, "Both sides should be equal numbers")
    ensures var table := [PathEntry("/", 1), PathEntry("/[0]", 2), PathEntry("/[1]", 4), PathEntry("/[0]", 2), PathEntry("/[1]", 3)];
      DiffValSpec(Arr([Obj([]), Num(Number("1"))]), Arr([Num(Number("0")), Num(Number("2"))]), [], [], table, table)
        == Walk([d0, d1], None)
  {
    var table := [PathEntry("/", 1), PathEntry("/[0]", 2), PathEntry("/[1]", 4), PathEntry("/[0]", 2), PathEntry("/[1]", 3)];
    FindPathAt(table, "/[0]", 1);
    FindPathAt(table, "/[1]", 2);
    ExampleWalk(table, table, d0, d1);
  }

  /** The evident intent: each copy of `DEFAULT_CONFIG` with a path table
      and a segment stack of its own, so each document is printed from an
      empty table and each side is looked up in its own document's rows. */
  function SeparateTablesSpec(leftValue: Value, rightValue: Value): DiffResult
  {
    var left := DecorateSpec(leftValue, -1, [], 1, true);
    var right := DecorateSpec(rightValue, -1, [], 1, true);
    WalkResult(leftValue, rightValue, left.text, right.text, left.entries, right.entries)
  }

  /** With separate tables every diff names a row of the left document for
      the left side and a row of the right document for the right side. */
  lemma SeparateTablesRows(leftValue: Value, rightValue: Value)
    requires SeparateTablesSpec(leftValue, rightValue).Valid?
    ensures var r := SeparateTablesSpec(leftValue, rightValue);
      var lt := DecorateSpec(leftValue, -1, [], 1, true).entries;
      var rt := DecorateSpec(rightValue, -1, [], 1, true).entries;
      forall k :: 0 <= k < |r.diffs| ==> r.diffs[k].path1 in lt && r.diffs[k].path2 in rt
  {
    var r := SeparateTablesSpec(leftValue, rightValue);
    var lt := DecorateSpec(leftValue, -1, [], 1, true).entries;
    var rt := DecorateSpec(rightValue, -1, [], 1, true).entries;
    var w := DiffValSpec(leftValue, rightValue, [], [], lt, rt);
    DifferProperties.ValRows(leftValue, rightValue, [], [], lt, rt);
    DifferProperties.RowsAtMeaning(w.diffs, lt, rt, 0);
    SortKeepsRows(w.diffs, lt, rt);
  }

  /** Sorting keeps every difference, so a property of all the rows named
      before the sort holds after it. */
  lemma SortKeepsRows(ds: seq<Diff>, t1: seq<PathEntry>, t2: seq<PathEntry>)
    requires forall j :: 0 <= j < |ds| ==> ds[j].path1 in t1 && ds[j].path2 in t2
    ensures forall k :: 0 <= k < |SortByLine(ds)| ==> SortByLine(ds)[k].path1 in t1 && SortByLine(ds)[k].path2 in t2
  {
    var r := SortByLine(ds);
    SortByLineSorts(ds);
    forall k | 0 <= k < |r| ensures r[k].path1 in t1 && r[k].path2 in t2 {
      assert r[k] in multiset(ds);
      var j :| 0 <= j < |ds| && ds[j] == r[k];
    }
  }

  /** On the example, separate tables give element 1's own line on each
      side: 4 on the left, 3 on the right. */
  lemma SeparateTablesExample()
    ensures var r := SeparateTablesSpec(Arr([Obj([]), Num(Number("1"))]), Arr([Num(Number("0")), Num(Number("2"))]));
      && r.Valid? && |r.diffs| == 2
      && r.diffs[1].kind == Eq && r.diffs[1].path1 == PathEntry("/[1]", 4) && r.diffs[1].path2 == PathEntry("/[1]", 3)
  {
    var d0 := Diff(PathEntry("/[0]", 2), PathEntry("/[0]", 2), Type, TypeMsg(Obj([])));
    var d1 := Diff(PathEntry("/[1]", 4), PathEntry("/[1]", 3), Eq, "Both sides should be equal numbers");
    SeparateExampleDiffs(d0, d1);
  }

  /** The two diffs of the example, in line order. */
  lemma SeparateExampleDiffs(d0: Diff, d1: Diff)
    requires d0 == Diff(PathEntry("/[0]", 2), PathEntry("/[0]", 2), Type, TypeMsg(Obj([])))
    requires d1 == Diff(PathEntry("/[1]", 4), PathEntry("/[1]", 3), Eq, "Both sides should be equal numbers")
    ensures var r := SeparateTablesSpec(Arr([Obj([]), Num(Number("1"))]), Arr([Num(Number("0")), Num(Number("2"))]));
      r.Valid? && r.diffs == [d0, d1]
  {
    var left := Arr([Obj([]), Num(Number("1"))]);
    var right := Arr([Num(Number("0")), Num(Number("2"))]);
    LeftExampleRows();
    RightOwnRows();
    SeparateExampleWalk(d0, d1);
    ExampleSorted(d0, d1);
    var lt := [PathEntry("/", 1), PathEntry("/[0]", 2), PathEntry("/[1]", 4)];
    var rt := [PathEntry("/", 1), PathEntry("/[0]", 2), PathEntry("/[1]", 3)];
    SeparateTwoDiffs(left, right, lt, rt, d0, d1);
  }

  /** Separate tables on documents whose walk gives two diffs in line order. */
  lemma SeparateTwoDiffs(leftValue: Value, rightValue: Value, lt: seq<PathEntry>, rt: seq<PathEntry>, d0: Diff, d1: Diff)
    requires DecorateSpec(leftValue, -1, [], 1, true).entries == lt
    requires DecorateSpec(rightValue, -1, [], 1, true).entries == rt
    requires DiffValSpec(leftValue, rightValue, [], [], lt, rt) == Walk([d0, d1], None)
    requires SortByLine([d0, d1]) == [d0, d1]
    ensures SeparateTablesSpec(leftValue, rightValue).Valid?
    ensures SeparateTablesSpec(leftValue, rightValue).diffs == [d0, d1]
  {
  }

  /** The walk of the example over the two documents' own tables. */
  lemma SeparateExampleWalk(d0: Diff, d1: Diff)
    requires d0 == Diff(PathEntry("/[0]", 2), PathEntry("/[0]", 2), Type, TypeMsg(Obj([])))
    requires d1 == Diff(PathEntry("/[1]", 4), PathEntry("/[1]", 3), Eq, "Both sides should be equal numbers")
    ensures var lt := [PathEntry("/", 1), PathEntry("/[0]", 2), PathEntry("/[1]", 4)];
      var rt := [PathEntry("/", 1), PathEntry("/[0]", 2), PathEntry("/[1]", 3)];
      DiffValSpec(Arr([Obj([]), Num(Number("1"))]), Arr([Num(Number("0")), Num(Number("2"))]), [], [], lt, rt)
        == Walk([d0, d1], None)
  {
    var lt := [PathEntry("/", 1), PathEntry("/[0]", 2), PathEntry("/[1]", 4)];
    var rt := [PathEntry("/", 1), PathEntry("/[0]", 2), PathEntry("/[1]", 3)];
    FindPathAt(lt, "/[0]", 1);
    FindPathAt(lt, "/[1]", 2);
    FindPathAt(rt, "/[0]", 1);
    FindPathAt(rt, "/[1]", 2);
    ExampleWalk(lt, rt, d0, d1);
  }

  /** The shared table after the example: the left document's rows, then
      the right document's without a root row. */
  lemma ExampleTable()
    ensures TableAfter(Arr([Obj([]), Num(Number("1"))]), Arr([Num(Number("0")), Num(Number("2"))]), [], []) ==
      [PathEntry("/", 1), PathEntry("/[0]", 2), PathEntry("/[1]", 4), PathEntry("/[0]", 2), PathEntry("/[1]", 3)]
  {
    LeftExampleRows();
    RightExampleRows(false);
    assert Popped([]) == [];
  }

  /** `find` returns the first row for `p`. */
  lemma {:induction false} FindPathAt(t: seq<PathEntry>, p: string, i: nat)
    requires i < |t| && t[i].path == p
    requires forall j :: 0 <= j < i ==> t[j].path != p
    ensures FindPath(t, p) == i
  {
    if i > 0 {
      assert t[0].path != p;
      FindPathAt(t[1..], p, i - 1);
    }
  }

  /** The rows of `[{}, 1]` printed from an empty table: the empty object
      takes lines 2 and 3. */
  lemma LeftExampleRows()
    ensures DecorateSpec(Arr([Obj([]), Num(Number("1"))]), -1, [], 1, true).entries
      == [PathEntry("/", 1), PathEntry("/[0]", 2), PathEntry("/[1]", 4)]
  {
    ExampleSegments();
    var items := [Obj([]), Num(Number("1"))];
    var e := OpenIndent(-1);
    var e0 := ElemSpec(items[0], 0, e, [], 1);
    assert MembersSpec([], SortStrings(Keys([])), 0, OpenIndent(e), ["/[0]"] + [Separator], 2) == Printed("", [], 2);
    assert e0.entries == [PathEntry("/[0]", 2)] && e0.line == 3;
    var e1 := ElemSpec(items[1], 1, e, [], 3);
    assert e1.entries == [PathEntry("/[1]", 4)] && e1.line == 4;
    assert ElemsSpec(items, 2, e, [], 4) == Printed("", [], 4);
    assert ElemsSpec(items, 0, e, [], 1).entries == e0.entries + e1.entries;
  }

  /** The rows of `[0, 2]`, with the root row only when the table was empty. */
  lemma RightExampleRows(empty: bool)
    ensures DecorateSpec(Arr([Num(Number("0")), Num(Number("2"))]), -1, [], 1, empty).entries
      == (if empty then [PathEntry("/", 1)] else []) + [PathEntry("/[0]", 2), PathEntry("/[1]", 3)]
  {
    ExampleSegments();
    var e := OpenIndent(-1);
    var items := [Num(Number("0")), Num(Number("2"))];
    var f0 := ElemSpec(items[0], 0, e, [], 1);
    assert f0.entries == [PathEntry("/[0]", 2)] && f0.line == 2;
    var f1 := ElemSpec(items[1], 1, e, [], 2);
    assert f1.entries == [PathEntry("/[1]", 3)] && f1.line == 3;
    assert ElemsSpec(items, 2, e, [], 3) == Printed("", [], 3);
    assert ElemsSpec(items, 0, e, [], 1).entries == f0.entries + f1.entries;
  }

  /** The right document of the example printed into a table of its own. */
  lemma RightOwnRows()
    ensures DecorateSpec(Arr([Num(Number("0")), Num(Number("2"))]), -1, [], 1, true).entries
      == [PathEntry("/", 1), PathEntry("/[0]", 2), PathEntry("/[1]", 3)]
  {
    RightExampleRows(true);
    assert [PathEntry("/", 1)] + [PathEntry("/[0]", 2), PathEntry("/[1]", 3)]
      == [PathEntry("/", 1), PathEntry("/[0]", 2), PathEntry("/[1]", 3)];
  }

  /** The segment paths of the example. */
  lemma ExampleSegments()
    ensures GeneratePath([], Some(IndexSegment(0))) == "/[0]"
    ensures GeneratePath([], Some(IndexSegment(1))) == "/[1]"
    ensures GeneratePath([], None) == "/"
    ensures Separator + IndexSegment(0) == "/[0]" && Separator + IndexSegment(1) == "/[1]"
  {
    assert IndexSegment(0) == "[0]" by { assert NatToString(0) == "0"; }
    assert IndexSegment(1) == "[1]" by { assert NatToString(1) == "1"; }
    TopSegmentPath("[0]");
    TopSegmentPath("[1]");
  }

  /** A segment without a separator, as the only part of a path. */
  lemma TopSegmentPath(seg: string)
    requires seg != "" && '/' !in seg
    ensures GeneratePath([], Some(seg)) == Separator + seg
  {
    ReplaceFirstSpec(seg, '/', "#");
    assert Concat([]) + Separator == Separator;
  }

  /** The walk of the example: a `type` diff at element 0 and an `eq` diff
      at element 1, whatever rows the two lookups find. */
  lemma ExampleWalk(t1: seq<PathEntry>, t2: seq<PathEntry>, d0: Diff, d1: Diff)
    requires GenerateDiff(t1, "/[0]", t2, "/[0]", TypeMsg(Obj([])), Type) == Ok(d0)
    requires GenerateDiff(t1, "/[1]", t2, "/[1]", "Both sides should be equal numbers", Eq) == Ok(d1)
    ensures DiffValSpec(Arr([Obj([]), Num(Number("1"))]), Arr([Num(Number("0")), Num(Number("2"))]), [], [], t1, t2)
      == Walk([d0, d1], None)
  {
    var a1 := [Obj([]), Num(Number("1"))];
    var a2 := [Num(Number("0")), Num(Number("2"))];
    assert Separator + IndexSegment(0) == "/[0]" && Separator + IndexSegment(1) == "/[1]" by {
      ExampleSegments();
    }
    HereAt("/[0]");
    HereAt("/[1]");
    ElementMismatch(a1, a2, 0, "/[0]", t1, t2, d0);
    ElementMismatch(a1, a2, 1, "/[1]", t1, t2, d1);
    TwoElements(a1, a2, t1, t2, d0, d1);
  }

  /** Two arrays of two elements, each pair giving one diff. */
  lemma TwoElements(a1: seq<Value>, a2: seq<Value>, t1: seq<PathEntry>, t2: seq<PathEntry>, d0: Diff, d1: Diff)
    requires |a1| == 2 && |a2| == 2
    requires ElemDiffSpec(a1, a2, 0, [], [], t1, t2) == Walk([d0], None)
    requires ElemDiffSpec(a1, a2, 1, [], [], t1, t2) == Walk([d1], None)
    ensures DiffValSpec(Arr(a1), Arr(a2), [], [], t1, t2) == Walk([d0, d1], None)
  {
    TwoElementWalk(a1, a2, [], [], t1, t2);
  }

  /** The walk over two elements pushes what the first pushes, then what
      the second pushes. */
  lemma TwoElementWalk(a1: seq<Value>, a2: seq<Value>, s1: seq<string>, s2: seq<string>, t1: seq<PathEntry>, t2: seq<PathEntry>)
    requires |a1| == 2
    ensures var w0 := ElemDiffSpec(a1, a2, 0, s1, s2, t1, t2);
      var w1 := ElemDiffSpec(a1, a2, 1, s1, s2, t1, t2);
      ElemsDiffSpec(a1, a2, 0, s1, s2, t1, t2) == AndThen(w0, AndThen(w1, NoDiffs))
  {
    assert ElemsDiffSpec(a1, a2, 2, s1, s2, t1, t2) == NoDiffs;
  }

  /** Element `i`, an object or a number against a different number, at the
      one-segment path `p`: the one diff `generateDiff` makes of `p`. */
  lemma ElementMismatch(a1: seq<Value>, a2: seq<Value>, i: nat, p: string, t1: seq<PathEntry>, t2: seq<PathEntry>, d: Diff)
    requires i < |a1| && i < |a2| && Separator + IndexSegment(i) == p && GeneratePath([p], None) == p
    requires (a1[i].Obj? || a1[i].Num?) && a2[i].Num? && a1[i] != a2[i]
    requires GenerateDiff(t1, p, t2, p, if a1[i].Obj? then TypeMsg(a1[i]) else "Both sides should be equal numbers",
                          if a1[i].Obj? then Type else Eq) == Ok(d)
    ensures ElemDiffSpec(a1, a2, i, [], [], t1, t2) == Walk([d], None)
  {
    assert [] + [p] == [p];
    assert ElemDiffSpec(a1, a2, i, [], [], t1, t2) == DiffValSpec(a1[i], a2[i], [p], [p], t1, t2);
    var msg := if a1[i].Obj? then TypeMsg(a1[i]) else "Both sides should be equal numbers";
    var kind := if a1[i].Obj? then Type else Eq;
    assert DiffValSpec(a1[i], a2[i], [p], [p], t1, t2) == Here(t1, [p], t2, [p], msg, kind);
  }

  /** The path `generateDiff` is handed for a one-segment stack. */
  lemma HereAt(p: string)
    requires p == "/[0]" || p == "/[1]"
    ensures GeneratePath([p], None) == p
  {
    assert Concat([p]) == p by { assert [p][..0] == []; }
  }

  /** The order of the example's two diffs survives the sort. */
  lemma ExampleSorted(d0: Diff, d1: Diff)
    requires d0.path1.line <= d1.path1.line
    ensures SortByLine([d0, d1]) == [d0, d1]
  {
    assert [d0, d1][1..] == [d1];
    assert SortByLine([d1]) == [d1];
  }

  /** The path table after a call that got past the validation. */
  function TableAfter(leftValue: Value, rightValue: Value, table0: seq<PathEntry>, segs0: seq<string>): seq<PathEntry>
  {
    var left := DecorateSpec(leftValue, -1, segs0, 1, table0 == []);
    var segs1 := if leftValue.Arr? then Popped(segs0) else segs0;
    var right := DecorateSpec(rightValue, -1, segs1, 1, table0 + left.entries == []);
    table0 + left.entries + right.entries
  }

  /** The shared segment stack after a call that got past the validation:
      `formatAndDecorate` pops it once more for each document that is an
      array. */
  function StackAfter(leftValue: Value, rightValue: Value, segs0: seq<string>): seq<string>
  {
    var segs1 := if leftValue.Arr? then Popped(segs0) else segs0;
    if rightValue.Arr? then Popped(segs1) else segs1
  }

  /** So the stack the next call starts from is what this call started
      from, short by one segment per array document (and never below
      empty). */
  lemma StackAfterPrefix(leftValue: Value, rightValue: Value, segs0: seq<string>)
    ensures var k := (if leftValue.Arr? then 1 else 0) + (if rightValue.Arr? then 1 else 0);
      StackAfter(leftValue, rightValue, segs0) == segs0[..if |segs0| >= k then |segs0| - k else 0]
  {
    var segs1 := if leftValue.Arr? then Popped(segs0) else segs0;
    assert segs1 == segs0[..if leftValue.Arr? && |segs0| >= 1 then |segs0| - 1 else if leftValue.Arr? then 0 else |segs0|];
  }

  /** The message of the `SyntaxError` that `JSON.parse` throws. Its text is
      the engine's own and is not modelled. */
  const JsonParseFailure: string := "SyntaxError"

  /** `calculateDiffs({ leftInput, rightInput })`. `leftParsed` and
      `rightParsed` are what `JSON.parse` makes of the two texts, `None` where
      it throws (it rejects texts the lint parser accepts, such as one
      starting with a no-break space); `paths` and `currentPath` are the
      arrays of `DEFAULT_CONFIG`, which every call shares. */
  method CalculateDiffs(lexer: JsonLexer.Lexer, leftInput: string, rightInput: string,
                        leftParsed: Option<Value>, rightParsed: Option<Value>,
                        paths: PathTable, currentPath: SegmentStack)
    returns (r: DiffResult)
    modifies lexer, paths, currentPath
    ensures JsonParser.GetInputError(leftInput).Some? || JsonParser.GetInputError(rightInput).Some? ==>
      && r == Invalid(JsonParser.GetInputError(leftInput), JsonParser.GetInputError(rightInput))
      && paths.entries == old(paths.entries)
      && currentPath.segs == old(currentPath.segs)
    ensures JsonParser.GetInputError(leftInput).None? && JsonParser.GetInputError(rightInput).None? &&
            (leftParsed.None? || rightParsed.None?) ==>
      && r == Thrown(JsonParseFailure)
      && paths.entries == old(paths.entries)
      && currentPath.segs == old(currentPath.segs)
    ensures JsonParser.GetInputError(leftInput).None? && JsonParser.GetInputError(rightInput).None? &&
            leftParsed.Some? && rightParsed.Some? ==>
      var leftValue, rightValue := leftParsed.value, rightParsed.value;
      && r == ValidSpec(leftValue, rightValue, old(paths.entries), old(currentPath.segs))
      && paths.entries == TableAfter(leftValue, rightValue, old(paths.entries), old(currentPath.segs))
      && currentPath.segs == StackAfter(leftValue, rightValue, old(currentPath.segs))
  {
    var leftInputErrorMessage := GetInputErrorOf(lexer, leftInput);
    var rightInputErrorMessage := GetInputErrorOf(lexer, rightInput);
    if leftInputErrorMessage.Some? || rightInputErrorMessage.Some? {
      return Invalid(leftInputErrorMessage, rightInputErrorMessage);
    }
    if leftParsed.None? || rightParsed.None? {
      return Thrown(JsonParseFailure);
    }
    r := PrintAndDiff(leftParsed.value, rightParsed.value, paths, currentPath);
  }

  /** `formatAndDecorate` on a fresh copy of `DEFAULT_CONFIG`: the copy
      shares the path table and the segment stack. */
  method PrintSide(value: Value, paths: PathTable, currentPath: SegmentStack) returns (config: Config)
    modifies paths, currentPath
    ensures fresh(config) && config.paths == paths && config.currentPath == currentPath
    ensures currentPath.segs == if value.Arr? then Popped(old(currentPath.segs)) else old(currentPath.segs)
    ensures var p := DecorateSpec(value, -1, old(currentPath.segs), 1, old(paths.entries) == []);
      && config.out == p.text
      && paths.entries == old(paths.entries) + p.entries
  {
    config := new Config.FromDefault(paths, currentPath);
    FormatAndDecorate(config, value);
    assert "" + config.out[0..] == config.out;
  }

  /** The walk of `calculateDiffs`: fresh segment stacks on both configs,
      `diffVal`, then the sort of what it collected. */
  method DiffBoth(leftValue: Value, leftConfig: Config, rightValue: Value, rightConfig: Config, ghost table: seq<PathEntry>)
    returns (r: DiffResult)
    requires leftConfig != rightConfig
    requires leftConfig.paths.entries == table && rightConfig.paths.entries == table
    modifies leftConfig`currentPath, rightConfig`currentPath
    ensures r == WalkResult(leftValue, rightValue, leftConfig.out, rightConfig.out, table, table)
  {
    leftConfig.currentPath := new SegmentStack();
    rightConfig.currentPath := new SegmentStack();
    var diffs := new DiffList();
    ghost var w := DiffValSpec(leftValue, rightValue, [], [], table, table);
    var thrown := DiffVal(diffs, leftValue, leftConfig, rightValue, rightConfig);
    assert diffs.items == [] + w.diffs == w.diffs;
    if thrown.Some? {
      return Thrown(thrown.value);
    }
    r := Valid(leftConfig.out, rightConfig.out, SortByLine(diffs.items));
  }

  /** The part of `calculateDiffs` after the validation: each value printed
      through its own copy of `DEFAULT_CONFIG`, then both walked with fresh
      segment stacks. */
  method PrintAndDiff(leftValue: Value, rightValue: Value, paths: PathTable, currentPath: SegmentStack)
    returns (r: DiffResult)
    modifies paths, currentPath
    ensures r == ValidSpec(leftValue, rightValue, old(paths.entries), old(currentPath.segs))
    ensures paths.entries == TableAfter(leftValue, rightValue, old(paths.entries), old(currentPath.segs))
    ensures currentPath.segs == StackAfter(leftValue, rightValue, old(currentPath.segs))
  {
    ghost var table0, segs0 := paths.entries, currentPath.segs;
    var leftConfig, rightConfig := PrintBoth(leftValue, rightValue, paths, currentPath);
    r := DiffBoth(leftValue, leftConfig, rightValue, rightConfig, TableAfter(leftValue, rightValue, table0, segs0));
  }

  /** The two `formatAndDecorate` calls of `calculateDiffs`: both documents
      printed in turn on fresh configs that share the path table and the
      segment stack. */
  method PrintBoth(leftValue: Value, rightValue: Value, paths: PathTable, currentPath: SegmentStack)
    returns (leftConfig: Config, rightConfig: Config)
    modifies paths, currentPath
    ensures fresh(leftConfig) && fresh(rightConfig) && leftConfig != rightConfig
    ensures leftConfig.paths == paths && rightConfig.paths == paths
    ensures var table0, segs0 := old(paths.entries), old(currentPath.segs);
      var left := DecorateSpec(leftValue, -1, segs0, 1, table0 == []);
      var segs1 := if leftValue.Arr? then Popped(segs0) else segs0;
      && leftConfig.out == left.text
      && rightConfig.out == DecorateSpec(rightValue, -1, segs1, 1, table0 + left.entries == []).text
    ensures paths.entries == TableAfter(leftValue, rightValue, old(paths.entries), old(currentPath.segs))
    ensures currentPath.segs == StackAfter(leftValue, rightValue, old(currentPath.segs))
  {
    leftConfig := PrintSide(leftValue, paths, currentPath);
    rightConfig := PrintSide(rightValue, paths, currentPath);
  }
}
