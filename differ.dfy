/** The structural differ of src/calculateDiffs.ts: it walks the two value
    trees in lockstep, keeping each side's segment stack in step with the
    walk, and reports `missing`, `type` and `eq` differences, each located
    through the path tables the printer filled. */
module Differ {
  import opened StringOps
  import opened Json
  import opened Printer

  datatype DiffKind = Missing | Type | Eq

  /** `Diff`: the table rows found for the two sides, the kind and the
      message (src/calculateDiffs.ts:13-18). */
  datatype Diff = Diff(path1: PathEntry, path2: PathEntry, kind: DiffKind, msg: string)

  datatype Result<T> = Ok(value: T) | Err(msg: string)

  /** What a part of the walk leaves: the diffs it pushed, in order, and the
      message of the error it threw, if it threw one. A throw ends the walk:
      nothing after it runs. */
  datatype Walk = Walk(diffs: seq<Diff>, thrown: Option<string>)

  const NoDiffs: Walk := Walk([], None)

  /** One part of the walk followed by another, unless the first threw. */
  function AndThen(p: Walk, q: Walk): Walk
  {
    if p.thrown.Some? then p else Walk(p.diffs + q.diffs, q.thrown)
  }

  /** One loop step: once the first part of `AndThen(first, rest)` has been
      pushed without a throw, what is left to push is `rest`. */
  lemma AdvanceWalk(done: seq<Diff>, now: seq<Diff>, target: seq<Diff>, first: Walk, rest: Walk)
    requires done + AndThen(first, rest).diffs == target
    requires first.thrown.None? && now == done + first.diffs
    ensures now + rest.diffs == target
    ensures AndThen(first, rest).thrown == rest.thrown
  {
    AppendAssoc(done, first.diffs, rest.diffs);
  }

  /** Two parts of the walk pushed one after the other, the first without a
      throw, push `AndThen` of the two. */
  lemma ChainWalk(before: seq<Diff>, mid: seq<Diff>, now: seq<Diff>, p: Walk, q: Walk)
    requires p.thrown.None? && mid == before + p.diffs && now == mid + q.diffs
    ensures now == before + AndThen(p, q).diffs
    ensures AndThen(p, q).thrown == q.thrown
  {
    AppendAssoc(before, p.diffs, q.diffs);
  }

  /** `diffs.push(generateDiff(...))`: one diff, or the throw of the lookup. */
  function Single(r: Result<Diff>): Walk
  {
    match r
    case Ok(d) => Walk([d], None)
    case Err(m) => Walk([], Some(m))
  }

  // ---------------------------------------------------------------------
  // generateDiff (src/calculateDiffs.ts:288-324).

  /** The path `generateDiff` looks up: one trailing separator dropped from
      any path other than the root path itself. */
  function StripSeparator(p: string): string
  {
    if p != Separator && |p| > 0 && p[|p| - 1] == '/' then p[..|p| - 1] else p
  }

  /** `paths.find(...)`: the index of the first row for path `p`, or `|t|`
      when there is none. */
  function FindPath(t: seq<PathEntry>, p: string): (i: nat)
    ensures i <= |t|
    ensures i < |t| ==> t[i].path == p
  {
    if t == [] then 0
    else if t[0].path == p then 0
    else 1 + FindPath(t[1..], p)
  }

  /** No row before the one `find` returns has the path; so `|t|` means no
      row has it. */
  lemma {:induction false} FindPathFirst(t: seq<PathEntry>, p: string)
    ensures forall j :: 0 <= j < FindPath(t, p) ==> t[j].path != p
  {
    if t != [] && t[0].path != p {
      FindPathFirst(t[1..], p);
      forall j | 1 <= j < FindPath(t, p) ensures t[j].path != p {
        assert t[j] == t[1..][j - 1];
      }
    }
  }

  function LookupError(msg: string, path: string): string
  {
    "Unable to find line number for (" + msg + "): " + path
  }

  /** `generateDiff`: both sides' rows, looked up in the left table and then
      the right one; the first lookup that misses throws. */
  function GenerateDiff(t1: seq<PathEntry>, path1: string, t2: seq<PathEntry>, path2: string,
                        msg: string, kind: DiffKind): Result<Diff>
  {
    var p1 := StripSeparator(path1);
    var p2 := StripSeparator(path2);
    var i1 := FindPath(t1, p1);
    var i2 := FindPath(t2, p2);
    if i1 == |t1| then Err(LookupError(msg, p1))
    else if i2 == |t2| then Err(LookupError(msg, p2))
    else Ok(Diff(t1[i1], t2[i2], kind, msg))
  }

  /** A diff about the two nodes the stacks point at. */
  function Here(t1: seq<PathEntry>, s1: seq<string>, t2: seq<PathEntry>, s2: seq<string>,
                msg: string, kind: DiffKind): Walk
  {
    Single(GenerateDiff(t1, GeneratePath(s1, None), t2, GeneratePath(s2, None), msg, kind))
  }

  // ---------------------------------------------------------------------
  // Messages.

  function MissingElementMsg(i: nat, side: string): string
  {
    "Missing element <code>" + NatToString(i) + "</code> from the array on the " + side + " side"
  }

  function MissingPropertyMsg(key: string, side: string): string
  {
    "Missing property <code>" + key + "</code> from the object on the " + side + " side"
  }

  const ArrayExpected: string := "Expected val2 to be an Array"

  /** The message of a `type` diff: names the kind of the left value. */
  function TypeMsg(v1: Value): string
  {
    match v1
    case Null => "Both types should be nulls"
    case Bool(_) => "Both types should be booleans"
    case Num(_) => "Both types should be numbers"
    case Str(_) => "Both types should be strings"
    case Arr(_) => "Both types should be arrays"
    case Obj(_) => "Both types should be objects"
  }

  const LeftTrueMsg: string := "The left side is <code>true</code> and the right side is <code>false</code>"
  const LeftFalseMsg: string := "The left side is <code>false</code> and the right side is <code>true</code>"

  /** The message of an `eq` diff between two booleans, `b1` being the left
      one. */
  function BoolMsg(b1: bool): string
  {
    if b1 then LeftTrueMsg else LeftFalseMsg
  }

  // ---------------------------------------------------------------------
  // What the walk does, as functions of the two stacks it starts from and
  // the two tables (which the differ only reads).

  /** `diffVal` (src/calculateDiffs.ts:542-637). */
  function DiffValSpec(v1: Value, v2: Value, s1: seq<string>, s2: seq<string>,
                       t1: seq<PathEntry>, t2: seq<PathEntry>): Walk
    decreases v1, 4
  {
    match v1
    case Arr(a1) =>
      if v2.Arr? then DiffArraySpec(a1, v2.items, s1, s2, t1, t2) else Walk([], Some(ArrayExpected))
    case Obj(m1) =>
      if v2.Obj? then FindDiffsSpec(m1, v2.members, s1, s2, t1, t2) else Here(t1, s1, t2, s2, TypeMsg(v1), Type)
    case Str(x) =>
      if !v2.Str? then Here(t1, s1, t2, s2, TypeMsg(v1), Type)
      else if x != v2.s then Here(t1, s1, t2, s2, "Both sides should be equal strings", Eq)
      else NoDiffs
    case Num(n) =>
      if !v2.Num? then Here(t1, s1, t2, s2, TypeMsg(v1), Type)
      else if n != v2.n then Here(t1, s1, t2, s2, "Both sides should be equal numbers", Eq)
      else NoDiffs
    case Bool(b) => DiffBoolSpec(b, v2, s1, s2, t1, t2)
    case Null =>
      if v2 != Null then Here(t1, s1, t2, s2, TypeMsg(v1), Type) else NoDiffs
  }

  /** `diffBool` (src/calculateDiffs.ts:497-540). */
  function DiffBoolSpec(b1: bool, v2: Value, s1: seq<string>, s2: seq<string>,
                        t1: seq<PathEntry>, t2: seq<PathEntry>): Walk
  {
    if !v2.Bool? then Here(t1, s1, t2, s2, TypeMsg(Bool(b1)), Type)
    else if b1 != v2.b then Here(t1, s1, t2, s2, BoolMsg(b1), Eq)
    else NoDiffs
  }

  /** `diffArray` (src/calculateDiffs.ts:326-395): the elements only the
      right side has, then the left side's elements in order. */
  function DiffArraySpec(a1: seq<Value>, a2: seq<Value>, s1: seq<string>, s2: seq<string>,
                         t1: seq<PathEntry>, t2: seq<PathEntry>): Walk
    decreases a1, 3
  {
    if |a1| < |a2| then AndThen(LeftMissingSpec(|a1|, |a2|, s1, s2, t1, t2), ElemsDiffSpec(a1, a2, 0, s1, s2, t1, t2))
    else ElemsDiffSpec(a1, a2, 0, s1, s2, t1, t2)
  }

  /** The elements `i`, ..., `n2 - 1` of the right array, absent on the left. */
  function LeftMissingSpec(i: nat, n2: nat, s1: seq<string>, s2: seq<string>,
                           t1: seq<PathEntry>, t2: seq<PathEntry>): Walk
    requires i <= n2
    decreases n2 - i
  {
    if i == n2 then NoDiffs
    else AndThen(LeftMissingElemSpec(i, s1, s2, t1, t2), LeftMissingSpec(i + 1, n2, s1, s2, t1, t2))
  }

  /** Element `i` of the right array, absent on the left. */
  function LeftMissingElemSpec(i: nat, s1: seq<string>, s2: seq<string>, t1: seq<PathEntry>, t2: seq<PathEntry>): Walk
  {
    Single(GenerateDiff(t1, GeneratePath(s1, None), t2, GeneratePath(s2, Some(IndexSegment(i))),
                        MissingElementMsg(i, "left"), Missing))
  }

  /** The `forEach` over the left array, from index `i` on. */
  function ElemsDiffSpec(a1: seq<Value>, a2: seq<Value>, i: nat, s1: seq<string>, s2: seq<string>,
                         t1: seq<PathEntry>, t2: seq<PathEntry>): Walk
    requires i <= |a1|
    decreases a1, 2, |a1| - i
  {
    if i == |a1| then NoDiffs
    else AndThen(ElemDiffSpec(a1, a2, i, s1, s2, t1, t2), ElemsDiffSpec(a1, a2, i + 1, s1, s2, t1, t2))
  }

  /** The `forEach` callback for index `i`: a missing element, or the two
      elements compared one segment deeper on both sides. */
  function ElemDiffSpec(a1: seq<Value>, a2: seq<Value>, i: nat, s1: seq<string>, s2: seq<string>,
                        t1: seq<PathEntry>, t2: seq<PathEntry>): Walk
    requires i < |a1|
    decreases a1, 1
  {
    if |a2| <= i then
      Single(GenerateDiff(t1, GeneratePath(s1, Some(IndexSegment(i))), t2, GeneratePath(s2, None),
                          MissingElementMsg(i, "right"), Missing))
    else
      var seg := Separator + IndexSegment(i);
      DiffValSpec(a1[i], a2[i], s1 + [seg], s2 + [seg], t1, t2)
  }

  /** `findDiffs` (src/calculateDiffs.ts:397-495), without the pre-pass on
      numeric `length` members: the left object's keys one separator deeper,
      then the keys only the right object has. */
  function FindDiffsSpec(m1: seq<Member>, m2: seq<Member>, s1: seq<string>, s2: seq<string>,
                         t1: seq<PathEntry>, t2: seq<PathEntry>): Walk
    decreases m1, 3
  {
    AndThen(LeftMembersSpec(m1, m2, 0, s1 + [Separator], s2 + [Separator], t1, t2),
            RightMembersSpec(m1, m2, 0, s1, s2, t1, t2))
  }

  /** The `for...in` over the left object, from member `i` on. */
  function LeftMembersSpec(m1: seq<Member>, m2: seq<Member>, i: nat, s1: seq<string>, s2: seq<string>,
                           t1: seq<PathEntry>, t2: seq<PathEntry>): Walk
    requires i <= |m1|
    decreases m1, 2, |m1| - i
  {
    if i == |m1| then NoDiffs
    else AndThen(LeftMemberSpec(m1, m2, i, s1, s2, t1, t2), LeftMembersSpec(m1, m2, i + 1, s1, s2, t1, t2))
  }

  /** Member `i` of the left object: missing on the right, or both values
      compared under the member's segment. */
  function LeftMemberSpec(m1: seq<Member>, m2: seq<Member>, i: nat, s1: seq<string>, s2: seq<string>,
                          t1: seq<PathEntry>, t2: seq<PathEntry>): Walk
    requires i < |m1|
    decreases m1, 1
  {
    var key := m1[i].key;
    var seg := ReplaceFirst(key, '/', "#");
    var j := KeyIndex(m2, key);
    if j == |m2| then
      Here(t1, s1 + [seg], t2, s2, MissingPropertyMsg(key, "right"), Missing)
    else
      DiffValSpec(m1[i].val, m2[j].val, s1 + [seg], s2 + [seg], t1, t2)
  }

  /** The `for...in` over the right object, from member `k` on. */
  function RightMembersSpec(m1: seq<Member>, m2: seq<Member>, k: nat, s1: seq<string>, s2: seq<string>,
                            t1: seq<PathEntry>, t2: seq<PathEntry>): Walk
    requires k <= |m2|
    decreases |m2| - k
  {
    if k == |m2| then NoDiffs
    else AndThen(RightMemberSpec(m1, m2, k, s1, s2, t1, t2), RightMembersSpec(m1, m2, k + 1, s1, s2, t1, t2))
  }

  /** Member `k` of the right object: a diff when the left object lacks its
      key, nothing otherwise. */
  function RightMemberSpec(m1: seq<Member>, m2: seq<Member>, k: nat, s1: seq<string>, s2: seq<string>,
                           t1: seq<PathEntry>, t2: seq<PathEntry>): Walk
    requires k < |m2|
  {
    var key := m2[k].key;
    if KeyIndex(m1, key) < |m1| then NoDiffs
    else Single(GenerateDiff(t1, GeneratePath(s1, None), t2, GeneratePath(s2, Some(key)),
                             MissingPropertyMsg(key, "left"), Missing))
  }

  // ---------------------------------------------------------------------
  // The differ itself.

  /** The `diffs` array the walk pushes onto. */
  class DiffList {
    var items: seq<Diff>

    constructor ()
      ensures items == []
    {
      items := [];
    }

    method Push(d: Diff)
      modifies this
      ensures items == old(items) + [d]
    {
      items := items + [d];
    }
  }

  /** `diffs.push(generateDiff(config1, path1, config2, path2, msg, kind))`. */
  method Report(diffs: DiffList, c1: Config, path1: string, c2: Config, path2: string, msg: string, kind: DiffKind)
    returns (thrown: Option<string>)
    modifies diffs
    ensures var w := Single(GenerateDiff(c1.paths.entries, path1, c2.paths.entries, path2, msg, kind));
      diffs.items == old(diffs.items) + w.diffs && thrown == w.thrown
  {
    var r := GenerateDiff(c1.paths.entries, path1, c2.paths.entries, path2, msg, kind);
    match r {
      case Ok(d) =>
        diffs.Push(d);
        thrown := None;
      case Err(m) =>
        thrown := Some(m);
    }
  }

  /** `diffVal`. It leaves both stacks as it found them unless it throws. */
  method DiffVal(diffs: DiffList, v1: Value, c1: Config, v2: Value, c2: Config) returns (thrown: Option<string>)
    requires c1.currentPath != c2.currentPath
    modifies diffs, c1.currentPath, c2.currentPath
    decreases 8 * Weight(v1)
    ensures var w := DiffValSpec(v1, v2, old(c1.currentPath.segs), old(c2.currentPath.segs),
                                 c1.paths.entries, c2.paths.entries);
      diffs.items == old(diffs.items) + w.diffs && thrown == w.thrown
    ensures thrown.None? ==>
      c1.currentPath.segs == old(c1.currentPath.segs) && c2.currentPath.segs == old(c2.currentPath.segs)
  {
    match v1 {
      case Arr(a1) =>
        if !v2.Arr? {
          thrown := Some(ArrayExpected);
        } else {
          thrown := DiffArray(diffs, a1, c1, v2.items, c2);
        }
      case Obj(m1) =>
        if !v2.Obj? {
          thrown := Report(diffs, c1, GeneratePath(c1.currentPath.segs, None), c2,
                           GeneratePath(c2.currentPath.segs, None), TypeMsg(v1), Type);
        } else {
          thrown := FindDiffs(diffs, c1, m1, c2, v2.members);
        }
      case Str(x) =>
        if !v2.Str? {
          thrown := Report(diffs, c1, GeneratePath(c1.currentPath.segs, None), c2,
                           GeneratePath(c2.currentPath.segs, None), TypeMsg(v1), Type);
        } else if x != v2.s {
          thrown := Report(diffs, c1, GeneratePath(c1.currentPath.segs, None), c2,
                           GeneratePath(c2.currentPath.segs, None), "Both sides should be equal strings", Eq);
        } else {
          thrown := None;
        }
      case Num(n) =>
        if !v2.Num? {
          thrown := Report(diffs, c1, GeneratePath(c1.currentPath.segs, None), c2,
                           GeneratePath(c2.currentPath.segs, None), TypeMsg(v1), Type);
        } else if n != v2.n {
          thrown := Report(diffs, c1, GeneratePath(c1.currentPath.segs, None), c2,
                           GeneratePath(c2.currentPath.segs, None), "Both sides should be equal numbers", Eq);
        } else {
          thrown := None;
        }
      case Bool(b) =>
        thrown := DiffBool(diffs, b, c1, v2, c2);
      case Null =>
        if v2 != Null {
          thrown := Report(diffs, c1, GeneratePath(c1.currentPath.segs, None), c2,
                           GeneratePath(c2.currentPath.segs, None), TypeMsg(v1), Type);
        } else {
          thrown := None;
        }
    }
  }

  /** `diffBool`. */
  method DiffBool(diffs: DiffList, b1: bool, c1: Config, v2: Value, c2: Config) returns (thrown: Option<string>)
    modifies diffs
    ensures var w := DiffBoolSpec(b1, v2, c1.currentPath.segs, c2.currentPath.segs, c1.paths.entries, c2.paths.entries);
      diffs.items == old(diffs.items) + w.diffs && thrown == w.thrown
  {
    var p1 := GeneratePath(c1.currentPath.segs, None);
    var p2 := GeneratePath(c2.currentPath.segs, None);
    if !v2.Bool? {
      thrown := Report(diffs, c1, p1, c2, p2, TypeMsg(Bool(b1)), Type);
    } else if b1 != v2.b {
      if b1 {
        thrown := Report(diffs, c1, p1, c2, p2, LeftTrueMsg, Eq);
      } else {
        thrown := Report(diffs, c1, p1, c2, p2, LeftFalseMsg, Eq);
      }
    } else {
      thrown := None;
    }
  }

  /** `diffArray` on two arrays. */
  method DiffArray(diffs: DiffList, a1: seq<Value>, c1: Config, a2: seq<Value>, c2: Config)
    returns (thrown: Option<string>)
    requires c1.currentPath != c2.currentPath
    modifies diffs, c1.currentPath, c2.currentPath
    decreases 8 * ItemsWeight(a1) + 3
    ensures var w := DiffArraySpec(a1, a2, old(c1.currentPath.segs), old(c2.currentPath.segs),
                                   c1.paths.entries, c2.paths.entries);
      diffs.items == old(diffs.items) + w.diffs && thrown == w.thrown
    ensures thrown.None? ==>
      c1.currentPath.segs == old(c1.currentPath.segs) && c2.currentPath.segs == old(c2.currentPath.segs)
  {
    ghost var before := diffs.items;
    if |a1| < |a2| {
      thrown := MissingOnLeft(diffs, c1, |a1|, c2, |a2|);
      if thrown.Some? {
        return;
      }
    }
    ghost var mid := diffs.items;
    thrown := DiffElements(diffs, a1, c1, a2, c2);
    if |a1| < |a2| {
      ChainWalk(before, mid, diffs.items, LeftMissingSpec(|a1|, |a2|, old(c1.currentPath.segs), old(c2.currentPath.segs), c1.paths.entries, c2.paths.entries),
                ElemsDiffSpec(a1, a2, 0, old(c1.currentPath.segs), old(c2.currentPath.segs), c1.paths.entries, c2.paths.entries));
    }
  }

  /** The loop of `diffArray` over the indices only the right array has. */
  method MissingOnLeft(diffs: DiffList, c1: Config, n1: nat, c2: Config, n2: nat) returns (thrown: Option<string>)
    requires n1 <= n2
    modifies diffs
    ensures var w := LeftMissingSpec(n1, n2, c1.currentPath.segs, c2.currentPath.segs,
                                     c1.paths.entries, c2.paths.entries);
      diffs.items == old(diffs.items) + w.diffs && thrown == w.thrown
  {
    ghost var s1, s2, t1, t2 := c1.currentPath.segs, c2.currentPath.segs, c1.paths.entries, c2.paths.entries;
    ghost var whole := LeftMissingSpec(n1, n2, s1, s2, t1, t2);
    var i := n1;
    while i < n2
      invariant n1 <= i <= n2
      invariant c1.currentPath.segs == s1 && c2.currentPath.segs == s2
      invariant c1.paths.entries == t1 && c2.paths.entries == t2
      invariant diffs.items + LeftMissingSpec(i, n2, s1, s2, t1, t2).diffs == old(diffs.items) + whole.diffs
      invariant LeftMissingSpec(i, n2, s1, s2, t1, t2).thrown == whole.thrown
      decreases n2 - i
    {
      ghost var done := diffs.items;
      ghost var first := LeftMissingElemSpec(i, s1, s2, t1, t2);
      thrown := MissingElementOnLeft(diffs, c1, c2, i);
      if thrown.Some? {
        return;
      }
      ghost var rest := LeftMissingSpec(i + 1, n2, s1, s2, t1, t2);
      AdvanceWalk(done, diffs.items, old(diffs.items) + whole.diffs, first, rest);
      i := i + 1;
    }
    thrown := None;
  }

  /** The body of the loop of `diffArray`, for index `i`. */
  method MissingElementOnLeft(diffs: DiffList, c1: Config, c2: Config, i: nat) returns (thrown: Option<string>)
    modifies diffs
    ensures var w := LeftMissingElemSpec(i, c1.currentPath.segs, c2.currentPath.segs,
                                         c1.paths.entries, c2.paths.entries);
      diffs.items == old(diffs.items) + w.diffs && thrown == w.thrown
  {
    thrown := Report(diffs, c1, GeneratePath(c1.currentPath.segs, None), c2,
                     GeneratePath(c2.currentPath.segs, Some(IndexSegment(i))), MissingElementMsg(i, "left"), Missing);
  }

  /** The `forEach` of `diffArray` over the left array. */
  method DiffElements(diffs: DiffList, a1: seq<Value>, c1: Config, a2: seq<Value>, c2: Config)
    returns (thrown: Option<string>)
    requires c1.currentPath != c2.currentPath
    modifies diffs, c1.currentPath, c2.currentPath
    decreases 8 * ItemsWeight(a1) + 2
    ensures var w := ElemsDiffSpec(a1, a2, 0, old(c1.currentPath.segs), old(c2.currentPath.segs),
                                   c1.paths.entries, c2.paths.entries);
      diffs.items == old(diffs.items) + w.diffs && thrown == w.thrown
    ensures thrown.None? ==>
      c1.currentPath.segs == old(c1.currentPath.segs) && c2.currentPath.segs == old(c2.currentPath.segs)
  {
    ghost var s1, s2, t1, t2 := c1.currentPath.segs, c2.currentPath.segs, c1.paths.entries, c2.paths.entries;
    ghost var whole := ElemsDiffSpec(a1, a2, 0, s1, s2, t1, t2);
    var i := 0;
    while i < |a1|
      invariant 0 <= i <= |a1|
      invariant c1.currentPath.segs == s1 && c2.currentPath.segs == s2
      invariant diffs.items + ElemsDiffSpec(a1, a2, i, s1, s2, t1, t2).diffs == old(diffs.items) + whole.diffs
      invariant ElemsDiffSpec(a1, a2, i, s1, s2, t1, t2).thrown == whole.thrown
    {
      ghost var done := diffs.items;
      ItemWeightBound(a1, i);
      thrown := DiffElement(diffs, a1, c1, a2, c2, i);
      if thrown.Some? {
        return;
      }
      ghost var first := ElemDiffSpec(a1, a2, i, s1, s2, t1, t2);
      ghost var rest := ElemsDiffSpec(a1, a2, i + 1, s1, s2, t1, t2);
      AdvanceWalk(done, diffs.items, old(diffs.items) + whole.diffs, first, rest);
      i := i + 1;
    }
    thrown := None;
  }

  /** The `forEach` callback of `diffArray` for `index`. */
  method DiffElement(diffs: DiffList, a1: seq<Value>, c1: Config, a2: seq<Value>, c2: Config, index: nat)
    returns (thrown: Option<string>)
    requires index < |a1|
    requires c1.currentPath != c2.currentPath
    modifies diffs, c1.currentPath, c2.currentPath
    decreases 8 * Weight(a1[index]) + 1
    ensures var w := ElemDiffSpec(a1, a2, index, old(c1.currentPath.segs), old(c2.currentPath.segs),
                                  c1.paths.entries, c2.paths.entries);
      diffs.items == old(diffs.items) + w.diffs && thrown == w.thrown
    ensures thrown.None? ==>
      c1.currentPath.segs == old(c1.currentPath.segs) && c2.currentPath.segs == old(c2.currentPath.segs)
  {
    if |a2| <= index {
      thrown := Report(diffs, c1, GeneratePath(c1.currentPath.segs, Some(IndexSegment(index))), c2,
                       GeneratePath(c2.currentPath.segs, None),
                       MissingElementMsg(index, "right"), Missing);
    } else {
      c1.currentPath.Push(Separator + IndexSegment(index));
      c2.currentPath.Push(Separator + IndexSegment(index));
      thrown := DiffVal(diffs, a1[index], c1, a2[index], c2);
      if thrown.Some? {
        return;
      }
      c1.currentPath.Pop();
      c2.currentPath.Pop();
    }
  }

  /** `findDiffs` on two objects. */
  method FindDiffs(diffs: DiffList, c1: Config, m1: seq<Member>, c2: Config, m2: seq<Member>)
    returns (thrown: Option<string>)
    requires c1.currentPath != c2.currentPath
    modifies diffs, c1.currentPath, c2.currentPath
    decreases 8 * MembersWeight(m1) + 3
    ensures var w := FindDiffsSpec(m1, m2, old(c1.currentPath.segs), old(c2.currentPath.segs),
                                   c1.paths.entries, c2.paths.entries);
      diffs.items == old(diffs.items) + w.diffs && thrown == w.thrown
    ensures thrown.None? ==>
      c1.currentPath.segs == old(c1.currentPath.segs) && c2.currentPath.segs == old(c2.currentPath.segs)
  {
    ghost var before := diffs.items;
    c1.currentPath.Push(Separator);
    c2.currentPath.Push(Separator);
    thrown := DiffMembersLeft(diffs, c1, m1, c2, m2);
    if thrown.Some? {
      return;
    }
    ghost var mid := diffs.items;
    c1.currentPath.Pop();
    c2.currentPath.Pop();
    thrown := DiffMembersRight(diffs, c1, m1, c2, m2);
    ChainWalk(before, mid, diffs.items,
              LeftMembersSpec(m1, m2, 0, old(c1.currentPath.segs) + [Separator], old(c2.currentPath.segs) + [Separator], c1.paths.entries, c2.paths.entries),
              RightMembersSpec(m1, m2, 0, old(c1.currentPath.segs), old(c2.currentPath.segs), c1.paths.entries, c2.paths.entries));
  }

  /** The `for...in` of `findDiffs` over the left object. */
  method DiffMembersLeft(diffs: DiffList, c1: Config, m1: seq<Member>, c2: Config, m2: seq<Member>)
    returns (thrown: Option<string>)
    requires c1.currentPath != c2.currentPath
    modifies diffs, c1.currentPath, c2.currentPath
    decreases 8 * MembersWeight(m1) + 2
    ensures var w := LeftMembersSpec(m1, m2, 0, old(c1.currentPath.segs), old(c2.currentPath.segs),
                                     c1.paths.entries, c2.paths.entries);
      diffs.items == old(diffs.items) + w.diffs && thrown == w.thrown
    ensures thrown.None? ==>
      c1.currentPath.segs == old(c1.currentPath.segs) && c2.currentPath.segs == old(c2.currentPath.segs)
  {
    ghost var s1, s2, t1, t2 := c1.currentPath.segs, c2.currentPath.segs, c1.paths.entries, c2.paths.entries;
    ghost var whole := LeftMembersSpec(m1, m2, 0, s1, s2, t1, t2);
    var i := 0;
    while i < |m1|
      invariant 0 <= i <= |m1|
      invariant c1.currentPath.segs == s1 && c2.currentPath.segs == s2
      invariant diffs.items + LeftMembersSpec(m1, m2, i, s1, s2, t1, t2).diffs == old(diffs.items) + whole.diffs
      invariant LeftMembersSpec(m1, m2, i, s1, s2, t1, t2).thrown == whole.thrown
    {
      ghost var done := diffs.items;
      MemberWeightBound(m1, i);
      thrown := DiffMemberLeft(diffs, c1, m1, c2, m2, i);
      if thrown.Some? {
        return;
      }
      ghost var first := LeftMemberSpec(m1, m2, i, s1, s2, t1, t2);
      ghost var rest := LeftMembersSpec(m1, m2, i + 1, s1, s2, t1, t2);
      AdvanceWalk(done, diffs.items, old(diffs.items) + whole.diffs, first, rest);
      i := i + 1;
    }
    thrown := None;
  }

  /** The body of the first `for...in` of `findDiffs`, for member `i`. */
  method DiffMemberLeft(diffs: DiffList, c1: Config, m1: seq<Member>, c2: Config, m2: seq<Member>, i: nat)
    returns (thrown: Option<string>)
    requires i < |m1|
    requires c1.currentPath != c2.currentPath
    modifies diffs, c1.currentPath, c2.currentPath
    decreases 8 * Weight(m1[i].val) + 1
    ensures var w := LeftMemberSpec(m1, m2, i, old(c1.currentPath.segs), old(c2.currentPath.segs),
                                    c1.paths.entries, c2.paths.entries);
      diffs.items == old(diffs.items) + w.diffs && thrown == w.thrown
    ensures thrown.None? ==>
      c1.currentPath.segs == old(c1.currentPath.segs) && c2.currentPath.segs == old(c2.currentPath.segs)
  {
    var key := m1[i].key;
    c1.currentPath.Push(ReplaceFirst(key, '/', "#"));
    var j := KeyIndex(m2, key);
    if j == |m2| {
      thrown := Report(diffs, c1, GeneratePath(c1.currentPath.segs, None), c2,
                       GeneratePath(c2.currentPath.segs, None),
                       MissingPropertyMsg(key, "right"), Missing);
      if thrown.Some? {
        return;
      }
    } else {
      c2.currentPath.Push(ReplaceFirst(key, '/', "#"));
      thrown := DiffVal(diffs, m1[i].val, c1, m2[j].val, c2);
      if thrown.Some? {
        return;
      }
      c2.currentPath.Pop();
    }
    c1.currentPath.Pop();
  }

  /** The second `for...in` of `findDiffs`, over the right object. */
  method DiffMembersRight(diffs: DiffList, c1: Config, m1: seq<Member>, c2: Config, m2: seq<Member>)
    returns (thrown: Option<string>)
    modifies diffs
    ensures var w := RightMembersSpec(m1, m2, 0, c1.currentPath.segs, c2.currentPath.segs,
                                      c1.paths.entries, c2.paths.entries);
      diffs.items == old(diffs.items) + w.diffs && thrown == w.thrown
  {
    ghost var s1, s2, t1, t2 := c1.currentPath.segs, c2.currentPath.segs, c1.paths.entries, c2.paths.entries;
    ghost var whole := RightMembersSpec(m1, m2, 0, s1, s2, t1, t2);
    var k := 0;
    while k < |m2|
      invariant 0 <= k <= |m2|
      invariant diffs.items + RightMembersSpec(m1, m2, k, s1, s2, t1, t2).diffs == old(diffs.items) + whole.diffs
      invariant RightMembersSpec(m1, m2, k, s1, s2, t1, t2).thrown == whole.thrown
    {
      ghost var done := diffs.items;
      thrown := DiffMemberRight(diffs, c1, m1, c2, m2, k);
      if thrown.Some? {
        return;
      }
      ghost var first := RightMemberSpec(m1, m2, k, s1, s2, t1, t2);
      ghost var rest := RightMembersSpec(m1, m2, k + 1, s1, s2, t1, t2);
      AdvanceWalk(done, diffs.items, old(diffs.items) + whole.diffs, first, rest);
      k := k + 1;
    }
    thrown := None;
  }

  /** The body of the second `for...in` of `findDiffs`, for member `k`. */
  method DiffMemberRight(diffs: DiffList, c1: Config, m1: seq<Member>, c2: Config, m2: seq<Member>, k: nat)
    returns (thrown: Option<string>)
    requires k < |m2|
    modifies diffs
    ensures var w := RightMemberSpec(m1, m2, k, c1.currentPath.segs, c2.currentPath.segs,
                                     c1.paths.entries, c2.paths.entries);
      diffs.items == old(diffs.items) + w.diffs && thrown == w.thrown
  {
    var key := m2[k].key;
    if KeyIndex(m1, key) == |m1| {
      thrown := Report(diffs, c1, GeneratePath(c1.currentPath.segs, None), c2,
                       GeneratePath(c2.currentPath.segs, Some(key)), MissingPropertyMsg(key, "left"), Missing);
    } else {
      thrown := None;
    }
  }
}
