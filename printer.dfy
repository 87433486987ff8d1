/** The canonical printer of src/calculateDiffs.ts: it renders a value tree
    into `config.out` with four-space indentation and sorted keys, counts lines
    in `config.line`, and records in the path table the line on which every
    addressable node starts. */
module Printer {
  import opened StringOps
  import opened Json

  const Separator: string := "/"

  /** One row of the path table: a node's path and the line it starts on. */
  datatype PathEntry = PathEntry(path: string, line: int)

  /** `config.paths`. Every `Config` copied from the default shares the one
      array, so the table is an object of its own. */
  class PathTable {
    var entries: seq<PathEntry>

    constructor ()
      ensures entries == []
    {
      entries := [];
    }

    method Push(e: PathEntry)
      modifies this
      ensures entries == old(entries) + [e]
    {
      entries := entries + [e];
    }
  }

  /** `config.currentPath`: the stack of path segments of the node being
      visited. Shared by copies of the default like the path table. */
  class SegmentStack {
    var segs: seq<string>

    constructor ()
      ensures segs == []
    {
      segs := [];
    }

    method Push(s: string)
      modifies this
      ensures segs == old(segs) + [s]
    {
      segs := segs + [s];
    }

    /** `Array.prototype.pop`: removes the top segment, if there is one. */
    method Pop()
      modifies this
      ensures segs == Popped(old(segs))
    {
      if segs != [] {
        segs := segs[..|segs| - 1];
      }
    }
  }

  function Popped(segs: seq<string>): seq<string>
  {
    if segs == [] then [] else segs[..|segs| - 1]
  }

  /** The printer state `Config` (src/calculateDiffs.ts:20-29). */
  class Config {
    var out: string
    var indent: int
    var line: int
    var currentPath: SegmentStack
    var paths: PathTable

    /** `{ ...DEFAULT_CONFIG }` (src/calculateDiffs.ts:33-39): fresh scalar
        fields, but the same `paths` and `currentPath` arrays as the default. */
    constructor FromDefault(paths: PathTable, currentPath: SegmentStack)
      ensures out == "" && indent == -1 && line == 1
      ensures this.paths == paths && this.currentPath == currentPath
    {
      out := "";
      indent := -1;
      line := 1;
      this.paths := paths;
      this.currentPath := currentPath;
    }
  }

  /** `getTabs`: four spaces per indentation level, nothing for a level of
      zero or below. */
  function GetTabs(indent: int): (r: string)
    ensures |r| == 4 * (if indent < 0 then 0 else indent)
    decreases if indent < 0 then 0 else indent
  {
    if indent <= 0 then "" else GetTabs(indent - 1) + "    "
  }

  lemma {:induction false} GetTabsSpaces(indent: int)
    ensures forall i :: 0 <= i < |GetTabs(indent)| ==> GetTabs(indent)[i] == ' '
    decreases if indent < 0 then 0 else indent
  {
    if indent > 0 {
      GetTabsSpaces(indent - 1);
    }
  }

  /** `generatePath`: the stack's segments concatenated, then `/` and the
      property (its first `/` turned into `#`) when a non-empty property is
      given; `/` stands for the empty path. */
  function GeneratePath(segs: seq<string>, prop: Option<string>): (r: string)
    ensures r != ""
    ensures (prop.None? || prop.value == "") && Concat(segs) == "" ==> r == Separator
    ensures (prop.None? || prop.value == "") && Concat(segs) != "" ==> r == Concat(segs)
    ensures prop.Some? && prop.value != "" ==>
      r == Concat(segs) + Separator + ReplaceFirst(prop.value, '/', "#")
  {
    var s := Concat(segs);
    var s := if prop.Some? && prop.value != "" then s + Separator + ReplaceFirst(prop.value, '/', "#") else s;
    if |s| == 0 then Separator else s
  }

  /** The differ names a right-only member by `generatePath` with the key as
      the property; the printer recorded that member's row under the
      object's segments, `/` and the key's own segment. For a non-empty key
      the two paths are the same. For the empty key `generatePath` ignores
      the property, and the two agree only at the root. */
  lemma KeyPathAgrees(segs: seq<string>, key: string)
    ensures var row := GeneratePath(segs + [Separator] + [ReplaceFirst(key, '/', "#")], None);
      && (key != "" ==> GeneratePath(segs, Some(key)) == row)
      && (key == "" ==> (GeneratePath(segs, Some(key)) == row <==> Concat(segs) == ""))
  {
    var seg := ReplaceFirst(key, '/', "#");
    ConcatSnoc(segs, Separator);
    ConcatSnoc(segs + [Separator], seg);
    if key == "" {
      assert seg == "";
      assert Concat(segs + [Separator] + [seg]) == Concat(segs) + Separator;
    }
  }

  /** The out buffer after `removeTrailingComma`. */
  function DropTrailingComma(s: string): string
  {
    if |s| > 0 && s[|s| - 1] == ',' then s[..|s| - 1] else s
  }

  lemma DropTrailingCommaAppend(a: string, b: string)
    requires b != []
    ensures DropTrailingComma(a + b) == a + DropTrailingComma(b)
  {
    assert (a + b)[|a + b| - 1] == b[|b| - 1];
    if b[|b| - 1] == ',' {
      assert (a + b)[..|a + b| - 1] == a + b[..|b| - 1];
    }
  }

  /** `unescapeString`: the seven replacements applied in order. The ones
      written with a string pattern replace the first occurrence only (the
      backslash and the backspace); the regular expressions with `g` replace
      every occurrence. The empty string is returned as it is. */
  function UnescapeString(val: string): string
  {
    if val == "" then val
    else
      var s1 := ReplaceFirst(val, '\\', "\\\\");
      var s2 := ReplaceAll(s1, '"', "\\\"");
      var s3 := ReplaceAll(s2, Newline, "\\n");
      var s4 := ReplaceFirst(s3, Backspace, "\\b");
      var s5 := ReplaceAll(s4, FormFeed, "\\f");
      var s6 := ReplaceAll(s5, CarriageReturn, "\\r");
      ReplaceAll(s6, Tab, "\\t")
  }

  /** The own enumerable properties `for...in` visits in `formatAndDecorate`:
      an object's members; for a string, its character indices; none for the
      other scalars (src/calculateDiffs.ts:219-227). */
  function OwnProperties(data: Value): seq<Member>
  {
    match data
    case Obj(ms) => ms
    case Str(s) => CharProperties(s, 0)
    case _ => []
  }

  /** The index properties `i`, `i + 1`, ... of a string, each holding the
      one-character string at that index. */
  function CharProperties(s: string, i: nat): (ms: seq<Member>)
    requires i <= |s|
    ensures |ms| == |s| - i
    ensures forall j :: 0 <= j < |ms| ==> ms[j] == Member(NatToString(i + j), Str([s[i + j]]))
    decreases |s| - i
  {
    if i == |s| then [] else [Member(NatToString(i), Str([s[i]]))] + CharProperties(s, i + 1)
  }

  predicate SortedKeys(ks: seq<string>)
  {
    forall i, j :: 0 <= i < j < |ks| ==> !CodePointLess(ks[j], ks[i])
  }

  lemma NotLessTrans(a: string, b: string, c: string)
    requires !CodePointLess(b, a) && !CodePointLess(c, b)
    ensures !CodePointLess(c, a)
  {
    if CodePointLess(c, a) {
      if a != b { CodePointLessTotal(a, b); }
      if b != c { CodePointLessTotal(b, c); }
      if a != b && b != c { CodePointLessTrans(a, b, c); }
      if a != c { CodePointLessTrans(a, c, a); }
      CodePointLessIrreflexive(a);
    }
  }

  /** Inserts `k` before the first element it does not follow. */
  function Insert(k: string, ks: seq<string>): seq<string>
  {
    if ks == [] then [k]
    else if !CodePointLess(ks[0], k) then [k] + ks
    else [ks[0]] + Insert(k, ks[1..])
  }

  lemma {:induction false} InsertPermutes(k: string, ks: seq<string>)
    ensures multiset(Insert(k, ks)) == multiset(ks) + multiset{k}
  {
    if ks != [] && CodePointLess(ks[0], k) {
      InsertPermutes(k, ks[1..]);
      assert ks == [ks[0]] + ks[1..];
    }
  }

  lemma {:induction false} InsertSorted(k: string, ks: seq<string>)
    requires SortedKeys(ks)
    ensures SortedKeys(Insert(k, ks))
  {
    if ks == [] {
    } else if !CodePointLess(ks[0], k) {
      forall j | 0 <= j < |ks| ensures !CodePointLess(ks[j], k) {
        if j > 0 { NotLessTrans(k, ks[0], ks[j]); }
      }
    } else {
      var t := Insert(k, ks[1..]);
      InsertSorted(k, ks[1..]);
      InsertPermutes(k, ks[1..]);
      assert ks == [ks[0]] + ks[1..];
      forall j | 0 <= j < |t| ensures !CodePointLess(t[j], ks[0]) {
        assert t[j] in multiset(t);
        if t[j] == k {
          if CodePointLess(k, ks[0]) { CodePointLessTrans(k, ks[0], k); CodePointLessIrreflexive(k); }
        } else {
          assert t[j] in multiset(ks[1..]);
          var i :| 0 <= i < |ks[1..]| && ks[1..][i] == t[j];
          assert ks[i + 1] == t[j];
        }
      }
    }
  }

  /** Insertion sort in code-point order. */
  function SortStrings(ks: seq<string>): seq<string>
  {
    if ks == [] then [] else Insert(ks[0], SortStrings(ks[1..]))
  }

  lemma {:induction false} SortStringsSortsAndPermutes(ks: seq<string>)
    ensures SortedKeys(SortStrings(ks))
    ensures multiset(SortStrings(ks)) == multiset(ks)
  {
    if ks != [] {
      SortStringsSortsAndPermutes(ks[1..]);
      InsertSorted(ks[0], SortStrings(ks[1..]));
      InsertPermutes(ks[0], SortStrings(ks[1..]));
      assert ks == [ks[0]] + ks[1..];
    }
  }

  /** `getSortedProperties`: the own property names of `obj`, sorted. */
  function GetSortedProperties(obj: Value): seq<string>
  {
    SortStrings(Keys(OwnProperties(obj)))
  }

  /** The property names come out sorted, each exactly as often as `obj`
      has it. */
  lemma GetSortedPropertiesSortsAndPermutes(obj: Value)
    ensures SortedKeys(GetSortedProperties(obj))
    ensures multiset(GetSortedProperties(obj)) == multiset(Keys(OwnProperties(obj)))
  {
    SortStringsSortsAndPermutes(Keys(OwnProperties(obj)));
  }

  lemma SortedPropertiesPresent(ms: seq<Member>)
    ensures forall j :: 0 <= j < |SortStrings(Keys(ms))| ==> KeyIndex(ms, SortStrings(Keys(ms))[j]) < |ms|
  {
    var props := SortStrings(Keys(ms));
    SortStringsSortsAndPermutes(Keys(ms));
    forall j | 0 <= j < |props| ensures KeyIndex(ms, props[j]) < |ms| {
      assert props[j] in multiset(props);
      assert props[j] in multiset(Keys(ms));
    }
  }

  // ---------------------------------------------------------------------
  // What the printer produces, as functions of the state it starts from.

  /** The text a part of the printer appends to `out`, the rows it appends to
      the path table, and the line counter it leaves. */
  datatype Printed = Printed(text: string, entries: seq<PathEntry>, line: int)

  /** One part printed after another. */
  function Then(p: Printed, q: Printed): Printed
  {
    Printed(p.text + q.text, p.entries + q.entries, q.line)
  }

  /** The indentation `startArray` and `startObject` leave: one level deeper,
      and 1 rather than 0 at the top. */
  function OpenIndent(indent: int): int
  {
    if indent + 1 == 0 then 1 else indent + 1
  }

  /** The indentation `finishArray` and `finishObject` leave. */
  function CloseIndent(indent: int): int
  {
    (if indent == 0 then indent - 1 else indent) - 1
  }

  /** What `finishArray`/`finishObject` append after dropping the trailing
      comma, for the indentation they leave: the closing bracket on a line of
      its own, then a comma inside a collection or a final line break at the
      top. */
  function CloseText(indent: int, bracket: string): string
  {
    "\n" + GetTabs(indent) + bracket + (if indent != 0 then "," else "\n")
  }

  /** A collection printed between `startArray`/`startObject` and
      `finishArray`/`finishObject`: the opening bracket, the `body` without
      its last comma, the closing text for the indentation `c` the finish
      leaves; `root` is the row the start pushed, if any. */
  function Enclose(open: string, body: Printed, close: string, c: int, root: seq<PathEntry>): Printed
  {
    Printed(DropTrailingComma(open + body.text) + CloseText(c, close), root + body.entries,
            body.line + (if c != 0 then 1 else 2))
  }

  /** What `start...`, the body and `finish...` print and record, put
      together, is the enclosed body. */
  lemma EncloseParts(out0: string, open: string, body: Printed, close: string, c: int, root: seq<PathEntry>,
                     e0: seq<PathEntry>)
    requires open != ""
    ensures DropTrailingComma(out0 + open + body.text) + CloseText(c, close) == out0 + Enclose(open, body, close, c, root).text
    ensures e0 + root + body.entries == e0 + Enclose(open, body, close, c, root).entries
  {
    DropAndClose(out0, open, body.text, CloseText(c, close));
    AppendAssoc(e0, root, body.entries);
  }

  /** Text printed after `out0`, its final comma dropped, and then `tail`. */
  lemma DropAndClose(out0: string, open: string, text: string, tail: string)
    requires open != ""
    ensures DropTrailingComma(out0 + open + text) + tail == out0 + (DropTrailingComma(open + text) + tail)
  {
    AppendAssoc(out0, open, text);
    DropTrailingCommaAppend(out0, open + text);
    AppendAssoc(out0, DropTrailingComma(open + text), tail);
  }

  /** The root row `startArray`/`startObject` push when the table is empty. */
  function RootEntry(empty: bool, segs: seq<string>, line: int): seq<PathEntry>
  {
    if empty then [PathEntry(GeneratePath(segs, None), line)] else []
  }

  function IndexSegment(i: nat): string
  {
    "[" + NatToString(i) + "]"
  }

  /** `formatVal(v)` started at indentation `d`, segment stack `segs`, line
      `line`, with `empty` telling whether the path table is empty. */
  function ValSpec(v: Value, d: int, segs: seq<string>, line: int, empty: bool): Printed
    decreases v, 0
  {
    match v
    case Null => Printed("null,", [], line)
    case Bool(b) => Printed((if b then "true" else "false") + ",", [], line)
    case Num(n) => Printed(n.text + ",", [], line)
    case Str(s) => Printed("\"" + UnescapeString(s) + "\",", [], line)
    case Arr(items) => ArraySpec(items, d, segs, line)
    case Obj(ms) => ObjectSpec(ms, d, segs, line, empty)
  }

  /** A nested array, printed by `formatVal` itself: its elements one level
      deeper, then the closing bracket back at indentation `d`. */
  function ArraySpec(items: seq<Value>, d: int, segs: seq<string>, line: int): Printed
    decreases items, 3
  {
    var body := ElemsSpec(items, 0, d + 1, segs, line);
    Printed(DropTrailingComma("[" + body.text) + NestedCloseText(d), body.entries, body.line + 1)
  }

  /** The closing bracket of a nested array: on a new line at indentation
      `d`, followed by a comma. */
  function NestedCloseText(d: int): string
  {
    "\n" + GetTabs(d) + "],"
  }

  /** One element of an array, number `i`: a new line at indentation `e`, the
      element's row in the table, then the element. */
  function ElemSpec(v: Value, i: nat, e: int, segs: seq<string>, line: int): Printed
    decreases v, 1
  {
    var entry := PathEntry(GeneratePath(segs, Some(IndexSegment(i))), line + 1);
    var child := ValSpec(v, e, segs + [Separator + IndexSegment(i)], line + 1, false);
    Printed("\n" + GetTabs(e) + child.text, [entry] + child.entries, child.line)
  }

  /** The array elements from index `i` on. */
  function ElemsSpec(items: seq<Value>, i: nat, e: int, segs: seq<string>, line: int): Printed
    requires i <= |items|
    decreases items, 2, |items| - i
  {
    if i == |items| then Printed("", [], line)
    else
      var first := ElemSpec(items[i], i, e, segs, line);
      Then(first, ElemsSpec(items, i + 1, e, segs, first.line))
  }

  /** `formatAndDecorate` on an object with members `ms`. */
  function ObjectSpec(ms: seq<Member>, d: int, segs: seq<string>, line: int, empty: bool): Printed
    decreases ms, 1
  {
    var e := OpenIndent(d);
    Enclose("{", MembersSpec(ms, SortStrings(Keys(ms)), 0, e, segs + [Separator], line), "}",
            CloseIndent(e), RootEntry(empty, segs, line))
  }

  /** One member: a new line at indentation `e`, the quoted key, the member's
      row in the table (its segment is the key with its first separator
      turned into `#`), then the value. */
  function MemberSpec(key: string, v: Value, e: int, segs: seq<string>, line: int): Printed
    decreases v, 1
  {
    var seg := ReplaceFirst(key, '/', "#");
    var entry := PathEntry(GeneratePath(segs + [seg], None), line + 1);
    var child := ValSpec(v, e, segs + [seg], line + 1, false);
    Printed("\n" + GetTabs(e) + "\"" + UnescapeString(key) + "\": " + child.text, [entry] + child.entries, child.line)
  }

  /** The members named `props[k..]`, in that order (a name that is not a
      key of `ms` prints nothing; the printer only asks for keys). */
  function MembersSpec(ms: seq<Member>, props: seq<string>, k: nat, e: int, segs: seq<string>, line: int): Printed
    requires k <= |props|
    decreases ms, 0, |props| - k
  {
    if k == |props| then Printed("", [], line)
    else
      var j := KeyIndex(ms, props[k]);
      var first := if j < |ms| then MemberSpec(props[k], ms[j].val, e, segs, line) else Printed("", [], line);
      Then(first, MembersSpec(ms, props, k + 1, e, segs, first.line))
  }

  /** `formatAndDecorateArray` on the elements `items`. */
  function RootArraySpec(items: seq<Value>, d: int, segs: seq<string>, line: int, empty: bool): Printed
  {
    var e := OpenIndent(d);
    Enclose("[", ElemsSpec(items, 0, e, segs, line), "]", CloseIndent(e), RootEntry(empty, segs, line))
  }

  /** `formatAndDecorate(data)`: arrays go to `formatAndDecorateArray`,
      everything else is printed as an object of its own properties. */
  function DecorateSpec(data: Value, d: int, segs: seq<string>, line: int, empty: bool): Printed
  {
    if data.Arr? then RootArraySpec(data.items, d, segs, line, empty)
    else ObjectSpec(OwnProperties(data), d, segs, line, empty)
  }

  lemma AppendAssoc<T>(a: seq<T>, b: seq<T>, c: seq<T>)
    ensures a + b + c == a + (b + c)
  {
  }

  // ---------------------------------------------------------------------
  // Termination measure for the mutually recursive printer methods.

  ghost function Weight(v: Value): nat
  {
    match v
    case Arr(items) => 1 + ItemsWeight(items)
    case Obj(ms) => 1 + MembersWeight(ms)
    case _ => 1
  }

  ghost function ItemsWeight(items: seq<Value>): nat
  {
    if items == [] then 0 else Weight(items[0]) + ItemsWeight(items[1..])
  }

  ghost function MembersWeight(ms: seq<Member>): nat
  {
    if ms == [] then 0 else Weight(ms[0].val) + MembersWeight(ms[1..])
  }

  lemma {:induction false} ItemWeightBound(items: seq<Value>, i: nat)
    requires i < |items|
    ensures Weight(items[i]) <= ItemsWeight(items)
  {
    if i > 0 { ItemWeightBound(items[1..], i - 1); }
  }

  lemma {:induction false} MemberWeightBound(ms: seq<Member>, i: nat)
    requires i < |ms|
    ensures Weight(ms[i].val) <= MembersWeight(ms)
  {
    if i > 0 { MemberWeightBound(ms[1..], i - 1); }
  }

  // ---------------------------------------------------------------------
  // The printer itself (src/calculateDiffs.ts:68-286).

  /** `newLine`: the only place the line counter moves. */
  method NewLine(config: Config) returns (nl: string)
    modifies config`line
    ensures config.line == old(config.line) + 1
    ensures nl == "\n"
  {
    config.line := config.line + 1;
    nl := "\n";
  }

  /** `removeTrailingComma`: drops one final comma if there is one, and
      otherwise leaves `out` as it is. */
  method RemoveTrailingComma(config: Config)
    modifies config`out
    ensures |old(config.out)| > 0 && old(config.out)[|old(config.out)| - 1] == ',' ==>
      config.out + "," == old(config.out)
    ensures !(|old(config.out)| > 0 && old(config.out)[|old(config.out)| - 1] == ',') ==>
      config.out == old(config.out)
    ensures config.out == DropTrailingComma(old(config.out))
  {
    if |config.out| > 0 && config.out[|config.out| - 1] == ',' {
      config.out := config.out[..|config.out| - 1];
    }
  }

  /** `startArray`: opens the bracket, goes one level deeper, and records the
      root path only while the table is still empty. */
  method StartArray(config: Config)
    modifies config`out, config`indent, config.paths
    ensures config.out == old(config.out) + "["
    ensures config.indent == OpenIndent(old(config.indent))
    ensures config.paths.entries ==
      old(config.paths.entries) + RootEntry(old(config.paths.entries) == [], config.currentPath.segs, config.line)
  {
    config.indent := config.indent + 1;
    config.out := config.out + "[";
    if |config.paths.entries| == 0 {
      config.paths.Push(PathEntry(GeneratePath(config.currentPath.segs, None), config.line));
    }
    if config.indent == 0 {
      config.indent := config.indent + 1;
    }
  }

  /** `finishArray`. */
  method FinishArray(config: Config)
    modifies config`out, config`indent, config`line
    ensures config.indent == CloseIndent(old(config.indent))
    ensures config.out == DropTrailingComma(old(config.out)) + CloseText(config.indent, "]")
    ensures config.line == old(config.line) + (if config.indent != 0 then 1 else 2)
  {
    if config.indent == 0 {
      config.indent := config.indent - 1;
    }
    RemoveTrailingComma(config);
    config.indent := config.indent - 1;
    var nl := NewLine(config);
    config.out := config.out + (nl + GetTabs(config.indent) + "]");
    if config.indent != 0 {
      config.out := config.out + ",";
    } else {
      var nl2 := NewLine(config);
      config.out := config.out + nl2;
    }
  }

  /** `startObject`: as `startArray`, with a brace. */
  method StartObject(config: Config)
    modifies config`out, config`indent, config.paths
    ensures config.out == old(config.out) + "{"
    ensures config.indent == OpenIndent(old(config.indent))
    ensures config.paths.entries ==
      old(config.paths.entries) + RootEntry(old(config.paths.entries) == [], config.currentPath.segs, config.line)
  {
    config.indent := config.indent + 1;
    config.out := config.out + "{";
    if |config.paths.entries| == 0 {
      config.paths.Push(PathEntry(GeneratePath(config.currentPath.segs, None), config.line));
    }
    if config.indent == 0 {
      config.indent := config.indent + 1;
    }
  }

  /** `finishObject`. */
  method FinishObject(config: Config)
    modifies config`out, config`indent, config`line
    ensures config.indent == CloseIndent(old(config.indent))
    ensures config.out == DropTrailingComma(old(config.out)) + CloseText(config.indent, "}")
    ensures config.line == old(config.line) + (if config.indent != 0 then 1 else 2)
  {
    if config.indent == 0 {
      config.indent := config.indent - 1;
    }
    RemoveTrailingComma(config);
    config.indent := config.indent - 1;
    var nl := NewLine(config);
    config.out := config.out + (nl + GetTabs(config.indent) + "}");
    if config.indent != 0 {
      config.out := config.out + ",";
    } else {
      var nl2 := NewLine(config);
      config.out := config.out + nl2;
    }
  }

  /** `formatVal`: prints one value at the current indentation, which inside
      a collection is never negative. */
  method FormatVal(config: Config, v: Value)
    requires config.indent >= 0
    modifies config`out, config`indent, config`line, config.currentPath, config.paths
    decreases 8 * Weight(v)
    ensures config.currentPath.segs == old(config.currentPath.segs)
    ensures config.indent == old(config.indent)
    ensures var p := ValSpec(v, old(config.indent), old(config.currentPath.segs), old(config.line),
                             old(config.paths.entries) == []);
      && config.out == old(config.out) + p.text
      && config.line == p.line
      && config.paths.entries == old(config.paths.entries) + p.entries
  {
    match v {
      case Arr(items) =>
        FormatArray(config, items);
      case Obj(_) =>
        FormatAndDecorate(config, v);
      case Str(s) =>
        config.out := config.out + ("\"" + UnescapeString(s) + "\",");
      case Num(n) =>
        config.out := config.out + (n.text + ",");
      case Bool(b) =>
        config.out := config.out + ((if b then "true" else "false") + ",");
      case Null =>
        config.out := config.out + "null,";
    }
  }

  /** The array branch of `formatVal`: a nested array, printed inline
      without touching the path table's root row. */
  method FormatArray(config: Config, items: seq<Value>)
    requires config.indent >= 0
    modifies config`out, config`indent, config`line, config.currentPath, config.paths
    decreases 8 * ItemsWeight(items) + 3
    ensures config.currentPath.segs == old(config.currentPath.segs)
    ensures config.indent == old(config.indent)
    ensures var p := ArraySpec(items, old(config.indent), old(config.currentPath.segs), old(config.line));
      && config.out == old(config.out) + p.text
      && config.line == p.line
      && config.paths.entries == old(config.paths.entries) + p.entries
  {
    OpenArray(config);
    FormatElements(config, items);
    CloseNested(config, old(config.out), items, old(config.indent), old(config.currentPath.segs), old(config.line));
  }

  /** The start of the array branch of `formatVal`: the opening bracket,
      one level in. */
  method OpenArray(config: Config)
    modifies config`out, config`indent
    ensures config.out == old(config.out) + "["
    ensures config.indent == old(config.indent) + 1
  {
    config.out := config.out + "[";
    config.indent := config.indent + 1;
  }

  /** The end of a nested array opened at `out0`, with its elements
      printed: what `CloseArray` prints completes `ArraySpec`. */
  method CloseNested(config: Config, ghost out0: string, ghost items: seq<Value>, ghost d: int,
                     ghost segs: seq<string>, ghost line: int)
    requires config.indent == d + 1
    requires config.out == out0 + "[" + ElemsSpec(items, 0, d + 1, segs, line).text
    requires config.line == ElemsSpec(items, 0, d + 1, segs, line).line
    modifies config`out, config`indent, config`line
    ensures config.indent == d
    ensures config.out == out0 + ArraySpec(items, d, segs, line).text
    ensures config.line == ArraySpec(items, d, segs, line).line
    ensures ArraySpec(items, d, segs, line).entries == ElemsSpec(items, 0, d + 1, segs, line).entries
  {
    ghost var mid := config.out;
    CloseArray(config);
    ArrayText(out0, mid, config.out, items, d, segs, line);
  }

  /** The end of the array branch of `formatVal`: the last comma dropped,
      one level out, and the closing bracket on a new line. */
  method CloseArray(config: Config)
    modifies config`out, config`indent, config`line
    ensures config.indent == old(config.indent) - 1
    ensures config.out == DropTrailingComma(old(config.out)) + NestedCloseText(config.indent)
    ensures config.line == old(config.line) + 1
  {
    RemoveTrailingComma(config);
    config.indent := config.indent - 1;
    var nl := NewLine(config);
    config.out := config.out + (nl + GetTabs(config.indent) + "],");
  }

  /** The text of a nested array is the text printed before it, the opening
      bracket and the elements with their last comma dropped, then the
      closing bracket. */
  lemma ArrayText(out0: string, mid: string, out1: string, items: seq<Value>, d: int, segs: seq<string>, line: int)
    requires mid == out0 + "[" + ElemsSpec(items, 0, d + 1, segs, line).text
    requires out1 == DropTrailingComma(mid) + NestedCloseText(d)
    ensures out1 == out0 + ArraySpec(items, d, segs, line).text
    ensures ArraySpec(items, d, segs, line).line == ElemsSpec(items, 0, d + 1, segs, line).line + 1
    ensures ArraySpec(items, d, segs, line).entries == ElemsSpec(items, 0, d + 1, segs, line).entries
  {
    DropAndClose(out0, "[", ElemsSpec(items, 0, d + 1, segs, line).text, NestedCloseText(d));
  }

  /** The `forEach` callback of `formatVal` and `formatAndDecorateArray`:
      prints element number `index`. */
  method FormatElement(config: Config, v: Value, index: nat)
    requires config.indent >= 0
    modifies config`out, config`indent, config`line, config.currentPath, config.paths
    decreases 8 * Weight(v) + 1
    ensures config.currentPath.segs == old(config.currentPath.segs)
    ensures config.indent == old(config.indent)
    ensures var p := ElemSpec(v, index, old(config.indent), old(config.currentPath.segs), old(config.line));
      && config.out == old(config.out) + p.text
      && config.line == p.line
      && config.paths.entries == old(config.paths.entries) + p.entries
  {
    ghost var out0, entries0 := config.out, config.paths.entries;
    var nl := NewLine(config);
    config.out := config.out + (nl + GetTabs(config.indent));
    var entry := PathEntry(GeneratePath(config.currentPath.segs, Some(IndexSegment(index))), config.line);
    config.paths.Push(entry);
    config.currentPath.Push(Separator + IndexSegment(index));
    ghost var child := ValSpec(v, config.indent, config.currentPath.segs, config.line, false);
    FormatVal(config, v);
    AppendAssoc(out0, nl + GetTabs(config.indent), child.text);
    AppendAssoc(entries0, [entry], child.entries);
    config.currentPath.Pop();
  }

  /** The elements of an array, in order, as the `forEach` of `formatVal`
      and `formatAndDecorateArray` prints them. */
  method FormatElements(config: Config, items: seq<Value>)
    requires config.indent >= 0
    modifies config`out, config`indent, config`line, config.currentPath, config.paths
    decreases 8 * ItemsWeight(items) + 2
    ensures config.currentPath.segs == old(config.currentPath.segs)
    ensures config.indent == old(config.indent)
    ensures var p := ElemsSpec(items, 0, old(config.indent), old(config.currentPath.segs), old(config.line));
      && config.out == old(config.out) + p.text
      && config.line == p.line
      && config.paths.entries == old(config.paths.entries) + p.entries
  {
    ghost var whole := ElemsSpec(items, 0, config.indent, config.currentPath.segs, config.line);
    var i := 0;
    while i < |items|
      invariant 0 <= i <= |items|
      invariant config.indent == old(config.indent)
      invariant config.currentPath.segs == old(config.currentPath.segs)
      invariant var rest := ElemsSpec(items, i, config.indent, config.currentPath.segs, config.line);
        && config.out + rest.text == old(config.out) + whole.text
        && config.paths.entries + rest.entries == old(config.paths.entries) + whole.entries
        && rest.line == whole.line
    {
      ghost var out1, entries1 := config.out, config.paths.entries;
      ghost var first := ElemSpec(items[i], i, config.indent, config.currentPath.segs, config.line);
      ItemWeightBound(items, i);
      FormatElement(config, items[i], i);
      ghost var rest := ElemsSpec(items, i + 1, config.indent, config.currentPath.segs, config.line);
      AppendAssoc(out1, first.text, rest.text);
      AppendAssoc(entries1, first.entries, rest.entries);
      i := i + 1;
    }
  }

  /** `formatAndDecorateArray`: the top-level array, ending with the extra
      `currentPath.pop()` of the source. */
  method FormatAndDecorateArray(config: Config, items: seq<Value>)
    requires config.indent >= -1
    modifies config`out, config`indent, config`line, config.currentPath, config.paths
    decreases 8 * ItemsWeight(items) + 3
    ensures config.currentPath.segs == Popped(old(config.currentPath.segs))
    ensures config.indent == CloseIndent(OpenIndent(old(config.indent)))
    ensures var p := RootArraySpec(items, old(config.indent), old(config.currentPath.segs), old(config.line),
                                   old(config.paths.entries) == []);
      && config.out == old(config.out) + p.text
      && config.line == p.line
      && config.paths.entries == old(config.paths.entries) + p.entries
  {
    ghost var out0 := config.out;
    StartArray(config);
    ghost var root := RootEntry(old(config.paths.entries) == [], old(config.currentPath.segs), old(config.line));
    FormatElements(config, items);
    ghost var body := ElemsSpec(items, 0, OpenIndent(old(config.indent)), old(config.currentPath.segs), old(config.line));
    AppendAssoc(old(config.paths.entries), root, body.entries);
    AppendAssoc(out0, "[", body.text);
    DropTrailingCommaAppend(out0, "[" + body.text);
    FinishArray(config);
    AppendAssoc(out0, DropTrailingComma("[" + body.text), CloseText(config.indent, "]"));
    config.currentPath.Pop();
  }

  /** The `forEach` callback of `formatAndDecorate`: prints the member `key`
      whose value is `v`. */
  method FormatMember(config: Config, key: string, v: Value)
    requires config.indent >= 0
    modifies config`out, config`indent, config`line, config.currentPath, config.paths
    decreases 8 * Weight(v) + 1
    ensures config.currentPath.segs == old(config.currentPath.segs)
    ensures config.indent == old(config.indent)
    ensures var p := MemberSpec(key, v, old(config.indent), old(config.currentPath.segs), old(config.line));
      && config.out == old(config.out) + p.text
      && config.line == p.line
      && config.paths.entries == old(config.paths.entries) + p.entries
  {
    ghost var out0, entries0 := config.out, config.paths.entries;
    var nl := NewLine(config);
    var head := nl + GetTabs(config.indent) + "\"" + UnescapeString(key) + "\": ";
    config.out := config.out + head;
    config.currentPath.Push(ReplaceFirst(key, '/', "#"));
    var entry := PathEntry(GeneratePath(config.currentPath.segs, None), config.line);
    config.paths.Push(entry);
    ghost var child := ValSpec(v, config.indent, config.currentPath.segs, config.line, false);
    FormatVal(config, v);
    AppendAssoc(out0, head, child.text);
    AppendAssoc(entries0, [entry], child.entries);
    config.currentPath.Pop();
  }

  /** `formatAndDecorate`: the top-level call, and every nested object. */
  method FormatAndDecorate(config: Config, data: Value)
    requires config.indent >= -1
    modifies config`out, config`indent, config`line, config.currentPath, config.paths
    decreases if data.Arr? then 8 * Weight(data) - 1 else 8 * MembersWeight(OwnProperties(data)) + 4
    ensures config.currentPath.segs == if data.Arr? then Popped(old(config.currentPath.segs)) else old(config.currentPath.segs)
    ensures config.indent == CloseIndent(OpenIndent(old(config.indent)))
    ensures var p := DecorateSpec(data, old(config.indent), old(config.currentPath.segs), old(config.line),
                                  old(config.paths.entries) == []);
      && config.out == old(config.out) + p.text
      && config.line == p.line
      && config.paths.entries == old(config.paths.entries) + p.entries
  {
    if data.Arr? {
      FormatAndDecorateArray(config, data.items);
    } else {
      FormatObject(config, data);
    }
  }

  /** The object path of `formatAndDecorate`: any value but an array,
      printed through its own properties in sorted order. */
  method FormatObject(config: Config, data: Value)
    requires !data.Arr?
    requires config.indent >= -1
    modifies config`out, config`indent, config`line, config.currentPath, config.paths
    decreases 8 * MembersWeight(OwnProperties(data)) + 3
    ensures config.currentPath.segs == old(config.currentPath.segs)
    ensures config.indent == CloseIndent(OpenIndent(old(config.indent)))
    ensures var ms := OwnProperties(data);
      var body := MembersSpec(ms, GetSortedProperties(data), 0, OpenIndent(old(config.indent)),
                              old(config.currentPath.segs) + [Separator], old(config.line));
      var p := Enclose("{", body, "}", CloseIndent(OpenIndent(old(config.indent))),
                       RootEntry(old(config.paths.entries) == [], old(config.currentPath.segs), old(config.line)));
      && config.out == old(config.out) + p.text
      && config.line == p.line
      && config.paths.entries == old(config.paths.entries) + p.entries
  {
    StartObject(config);
    config.currentPath.Push(Separator);
    var props := GetSortedProperties(data);
    var ms := OwnProperties(data);
    FormatMembers(config, ms, props);
    FinishObject(config);
    config.currentPath.Pop();
    EncloseParts(old(config.out), "{",
                 MembersSpec(ms, props, 0, OpenIndent(old(config.indent)), old(config.currentPath.segs) + [Separator], old(config.line)),
                 "}", config.indent, RootEntry(old(config.paths.entries) == [], old(config.currentPath.segs), old(config.line)),
                 old(config.paths.entries));
  }

  /** The members of an object in the order `props` names them, as the
      `forEach` of `formatAndDecorate` prints them. */
  method FormatMembers(config: Config, ms: seq<Member>, props: seq<string>)
    requires props == SortStrings(Keys(ms))
    requires config.indent >= 0
    modifies config`out, config`indent, config`line, config.currentPath, config.paths
    decreases 8 * MembersWeight(ms) + 2
    ensures config.currentPath.segs == old(config.currentPath.segs)
    ensures config.indent == old(config.indent)
    ensures var p := MembersSpec(ms, props, 0, old(config.indent), old(config.currentPath.segs), old(config.line));
      && config.out == old(config.out) + p.text
      && config.line == p.line
      && config.paths.entries == old(config.paths.entries) + p.entries
  {
    ghost var whole := MembersSpec(ms, props, 0, config.indent, config.currentPath.segs, config.line);
    SortedPropertiesPresent(ms);
    var k := 0;
    while k < |props|
      invariant 0 <= k <= |props|
      invariant config.indent == old(config.indent)
      invariant config.currentPath.segs == old(config.currentPath.segs)
      invariant var rest := MembersSpec(ms, props, k, config.indent, config.currentPath.segs, config.line);
        && config.out + rest.text == old(config.out) + whole.text
        && config.paths.entries + rest.entries == old(config.paths.entries) + whole.entries
        && rest.line == whole.line
    {
      ghost var out1, entries1 := config.out, config.paths.entries;
      var key := props[k];
      ghost var first := MemberSpec(key, ms[KeyIndex(ms, key)].val, config.indent, config.currentPath.segs, config.line);
      MemberWeightBound(ms, KeyIndex(ms, key));
      FormatMember(config, key, ms[KeyIndex(ms, key)].val);
      ghost var rest := MembersSpec(ms, props, k + 1, config.indent, config.currentPath.segs, config.line);
      AppendAssoc(out1, first.text, rest.text);
      AppendAssoc(entries1, first.entries, rest.entries);
      k := k + 1;
    }
  }
}
