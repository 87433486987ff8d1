/** What the differ's walk promises: it finds nothing exactly when the two
    values are the same, a length gap between arrays and keys present on one
    side only give one `missing` diff each, kind mismatches give one `type`
    diff naming the left kind, and every reported row comes from the table
    it was looked up in, the first row with the looked-up path. */
module DifferProperties {
  import opened StringOps
  import opened Json
  import opened Printer
  import opened Differ

  // ---------------------------------------------------------------------
  // generateDiff.

  /** One trailing separator is dropped, and only from a path that is not
      the root path. */
  lemma StripSeparatorCases(p: string)
    ensures p == Separator || p == "" || p[|p| - 1] != '/' ==> StripSeparator(p) == p
    ensures p != Separator && p != "" && p[|p| - 1] == '/' ==> StripSeparator(p) + Separator == p
  {
  }

  /** `generateDiff` returns the first row of each table whose path is the
      looked-up path, and throws naming the first side whose lookup misses. */
  lemma GenerateDiffLookup(t1: seq<PathEntry>, path1: string, t2: seq<PathEntry>, path2: string,
                           msg: string, kind: DiffKind)
    ensures var r := GenerateDiff(t1, path1, t2, path2, msg, kind);
      var p1, p2 := StripSeparator(path1), StripSeparator(path2);
      && (r.Ok? <==> (exists i :: 0 <= i < |t1| && t1[i].path == p1) && (exists i :: 0 <= i < |t2| && t2[i].path == p2))
      && (r.Ok? ==>
            && r.value.kind == kind && r.value.msg == msg
            && (exists i :: 0 <= i < |t1| && t1[i] == r.value.path1 && t1[i].path == p1 &&
                  forall j :: 0 <= j < i ==> t1[j].path != p1)
            && (exists i :: 0 <= i < |t2| && t2[i] == r.value.path2 && t2[i].path == p2 &&
                  forall j :: 0 <= j < i ==> t2[j].path != p2))
      && (r.Err? && (exists i :: 0 <= i < |t1| && t1[i].path == p1) ==> r.msg == LookupError(msg, p2))
      && (r.Err? && !(exists i :: 0 <= i < |t1| && t1[i].path == p1) ==> r.msg == LookupError(msg, p1))
  {
    var p1, p2 := StripSeparator(path1), StripSeparator(path2);
    FindPathFirst(t1, p1);
    FindPathFirst(t2, p2);
    var i1, i2 := FindPath(t1, p1), FindPath(t2, p2);
    if i1 < |t1| {
      assert t1[i1].path == p1;
    }
    if i2 < |t2| {
      assert t2[i2].path == p2;
    }
  }

  /** When both sides look up one table that holds the left document's rows
      before the right document's (the shared `paths` array), any path the
      left document has resolves to the left document's row, also for the
      right side of a diff. */
  lemma {:induction false} SharedTableShadows(left: seq<PathEntry>, right: seq<PathEntry>, p: string)
    requires exists i :: 0 <= i < |left| && left[i].path == p
    ensures FindPath(left + right, p) == FindPath(left, p) < |left|
  {
    if left[0].path != p {
      assert (left + right)[1..] == left[1..] + right;
      var i :| 0 <= i < |left| && left[i].path == p;
      assert left[1..][i - 1].path == p;
      SharedTableShadows(left[1..], right, p);
    }
  }

  // ---------------------------------------------------------------------
  // Member paths and the separator `generateDiff` strips.

  /** `s` ends in a separator. */
  predicate EndsInSeparator(s: string)
  {
    s != "" && s[|s| - 1] == '/'
  }

  /** `key` ends in a separator and has another one before it. */
  predicate SeparatorAfterSeparator(key: string)
  {
    EndsInSeparator(key) && '/' in key[..|key| - 1]
  }

  /** A non-empty key's segment is neither empty nor the root path, and it
      ends in a separator exactly when the key ends in one and has another
      before it: the string-pattern replace turns only the first separator
      into `#`. */
  lemma SegmentEndsInSeparator(key: string)
    requires key != ""
    ensures var seg := ReplaceFirst(key, '/', "#");
      && seg != "" && seg != Separator
      && (EndsInSeparator(seg) <==> SeparatorAfterSeparator(key))
  {
    ReplaceFirstSpec(key, '/', "#");
    var i := IndexOf(key, '/');
    var last := key[..|key| - 1];
    if i < |key| {
      var seg := key[..i] + "#" + key[i + 1..];
      assert |seg| == |key| && seg[i] == '#';
      if i == |key| - 1 {
        assert seg[|seg| - 1] == '#';
        assert last == key[..i];
      } else {
        assert seg[|seg| - 1] == key[|key| - 1];
        assert last[i] == '/';
      }
    } else {
      assert key[|key| - 1] in key;
    }
  }

  /** So the path `generateDiff` looks up for a member, the member's row path
      with one trailing separator stripped, is the row path the printer
      recorded exactly when the key does not end in a separator with another
      one before it. The key `//` is such a key: its row is `/#/` and its
      lookup `/#`. */
  lemma MemberLookupAsWritten(segs: seq<string>, key: string)
    requires key != ""
    ensures var row := GeneratePath(segs + [ReplaceFirst(key, '/', "#")], None);
      StripSeparator(row) == row <==> !SeparatorAfterSeparator(key)
  {
    SegmentEndsInSeparator(key);
    RowKeepsSegmentEnd(segs, ReplaceFirst(key, '/', "#"));
  }

  /** A row path ends as its last segment does; only a segment ending in a
      separator has one stripped. */
  lemma RowKeepsSegmentEnd(segs: seq<string>, seg: string)
    requires seg != "" && seg != Separator
    ensures var row := GeneratePath(segs + [seg], None);
      StripSeparator(row) == row <==> !EndsInSeparator(seg)
  {
    ConcatSnoc(segs, seg);
    var row := GeneratePath(segs + [seg], None);
    assert row == Concat(segs) + seg;
    assert row[|row| - 1] == seg[|seg| - 1];
    if |row| == 1 {
      assert row == seg;
    }
  }

  /** The segment a key evidently should get: every separator turned into
      `#`, so that no segment ends in one. */
  function FixedSegment(key: string): (seg: string)
    ensures '/' !in seg
    ensures key != "" ==> seg != ""
  {
    ReplaceAll(key, '/', "#")
  }

  /** With it a member's lookup path is always its row path, so a table that
      holds the member's row never misses the lookup. */
  lemma FixedMemberLookup(segs: seq<string>, key: string, t: seq<PathEntry>, line: int)
    requires key != ""
    requires PathEntry(GeneratePath(segs + [FixedSegment(key)], None), line) in t
    ensures var row := GeneratePath(segs + [FixedSegment(key)], None);
      StripSeparator(row) == row && FindPath(t, StripSeparator(row)) < |t|
  {
    var seg := FixedSegment(key);
    var row := GeneratePath(segs + [seg], None);
    assert seg[|seg| - 1] in seg;
    RowKeepsSegmentEnd(segs, seg);
    FindPathFirst(t, row);
    var k :| 0 <= k < |t| && t[k] == PathEntry(row, line);
    assert t[k].path == row;
  }

  // ---------------------------------------------------------------------
  // Nothing is reported exactly when the values are the same.

  lemma {:induction false} ValSameIff(v1: Value, v2: Value, s1: seq<string>, s2: seq<string>,
                                      t1: seq<PathEntry>, t2: seq<PathEntry>)
    ensures DiffValSpec(v1, v2, s1, s2, t1, t2) == NoDiffs <==> Same(v1, v2)
    decreases v1, 4
  {
    match v1
    case Arr(a1) =>
      if v2.Arr? {
        ArraySameIff(a1, v2.items, s1, s2, t1, t2);
      }
      ArrayValSame(v1, v2, s1, s2, t1, t2);
    case Obj(m1) =>
      if v2.Obj? {
        ObjectSameIff(m1, v2.members, s1, s2, t1, t2);
      }
      ObjectValSame(v1, v2, s1, s2, t1, t2);
    case _ =>
      ScalarSameIff(v1, v2, s1, s2, t1, t2);
  }

  /** An array is the same as `v2` exactly when nothing is reported, given
      that this holds of its elements. */
  lemma ArrayValSame(v1: Value, v2: Value, s1: seq<string>, s2: seq<string>, t1: seq<PathEntry>, t2: seq<PathEntry>)
    requires v1.Arr?
    requires v2.Arr? ==> (DiffArraySpec(v1.items, v2.items, s1, s2, t1, t2) == NoDiffs <==>
      |v1.items| == |v2.items| && forall i :: 0 <= i < |v1.items| ==> Same(v1.items[i], v2.items[i]))
    ensures DiffValSpec(v1, v2, s1, s2, t1, t2) == NoDiffs <==> Same(v1, v2)
  {
  }

  /** An object is the same as `v2` exactly when nothing is reported, given
      that this holds of its members. */
  lemma ObjectValSame(v1: Value, v2: Value, s1: seq<string>, s2: seq<string>, t1: seq<PathEntry>, t2: seq<PathEntry>)
    requires v1.Obj?
    requires v2.Obj? ==> (FindDiffsSpec(v1.members, v2.members, s1, s2, t1, t2) == NoDiffs <==>
      && (forall j :: 0 <= j < |v2.members| ==> HasKey(v1.members, v2.members[j].key))
      && (forall i :: 0 <= i < |v1.members| ==>
            var j := KeyIndex(v2.members, v1.members[i].key);
            j < |v2.members| && Same(v1.members[i].val, v2.members[j].val)))
    ensures DiffValSpec(v1, v2, s1, s2, t1, t2) == NoDiffs <==> Same(v1, v2)
  {
    if !v2.Obj? {
      HereNotEmpty(t1, s1, t2, s2, TypeMsg(v1), Type);
    }
  }

  /** A report that does not throw pushes one diff, with the kind and message given. */
  lemma HereShape(t1: seq<PathEntry>, s1: seq<string>, t2: seq<PathEntry>, s2: seq<string>,
                  msg: string, kind: DiffKind)
    ensures var w := Here(t1, s1, t2, s2, msg, kind);
      w.thrown.None? ==> |w.diffs| == 1 && w.diffs[0].kind == kind && w.diffs[0].msg == msg
  {
  }

  /** A diff about the current nodes is never an empty walk. */
  lemma HereNotEmpty(t1: seq<PathEntry>, s1: seq<string>, t2: seq<PathEntry>, s2: seq<string>,
                     msg: string, kind: DiffKind)
    ensures Here(t1, s1, t2, s2, msg, kind) != NoDiffs
  {
  }

  lemma ScalarSameIff(v1: Value, v2: Value, s1: seq<string>, s2: seq<string>,
                      t1: seq<PathEntry>, t2: seq<PathEntry>)
    requires !v1.Arr? && !v1.Obj?
    ensures DiffValSpec(v1, v2, s1, s2, t1, t2) == NoDiffs <==> v1 == v2
  {
    match v1
    case Str(x) =>
      if !v2.Str? {
        HereNotEmpty(t1, s1, t2, s2, TypeMsg(v1), Type);
      } else if x != v2.s {
        HereNotEmpty(t1, s1, t2, s2, "Both sides should be equal strings", Eq);
      }
    case Num(n) =>
      if !v2.Num? {
        HereNotEmpty(t1, s1, t2, s2, TypeMsg(v1), Type);
      } else if n != v2.n {
        HereNotEmpty(t1, s1, t2, s2, "Both sides should be equal numbers", Eq);
      }
    case Bool(b) =>
      if !v2.Bool? {
        HereNotEmpty(t1, s1, t2, s2, TypeMsg(v1), Type);
      } else if b != v2.b {
        HereNotEmpty(t1, s1, t2, s2, BoolMsg(b), Eq);
      }
    case Null =>
      if v2 != Null {
        HereNotEmpty(t1, s1, t2, s2, TypeMsg(v1), Type);
      }
  }

  lemma {:induction false} ArraySameIff(a1: seq<Value>, a2: seq<Value>, s1: seq<string>, s2: seq<string>,
                                        t1: seq<PathEntry>, t2: seq<PathEntry>)
    ensures DiffArraySpec(a1, a2, s1, s2, t1, t2) == NoDiffs <==>
      |a1| == |a2| && forall i :: 0 <= i < |a1| ==> Same(a1[i], a2[i])
    decreases a1, 3
  {
    ElemsSameIff(a1, a2, 0, s1, s2, t1, t2);
    if |a1| < |a2| {
      LeftMissingNotEmpty(|a1|, |a2|, s1, s2, t1, t2);
    }
  }

  lemma LeftMissingNotEmpty(i: nat, n2: nat, s1: seq<string>, s2: seq<string>, t1: seq<PathEntry>, t2: seq<PathEntry>)
    requires i < n2
    ensures LeftMissingSpec(i, n2, s1, s2, t1, t2) != NoDiffs
  {
  }

  lemma AndThenNoDiffs(p: Walk, q: Walk)
    ensures AndThen(p, q) == NoDiffs <==> p == NoDiffs && q == NoDiffs
  {
  }

  lemma {:induction false} ElemsSameIff(a1: seq<Value>, a2: seq<Value>, i: nat, s1: seq<string>, s2: seq<string>,
                                        t1: seq<PathEntry>, t2: seq<PathEntry>)
    requires i <= |a1|
    ensures ElemsDiffSpec(a1, a2, i, s1, s2, t1, t2) == NoDiffs <==>
      (i < |a1| ==> |a1| <= |a2|) && forall k :: i <= k < |a1| ==> Same(a1[k], a2[k])
    decreases a1, 2, |a1| - i
  {
    if i < |a1| {
      ElemsSameIff(a1, a2, i + 1, s1, s2, t1, t2);
      ElemsSameIffStep(a1, a2, i, s1, s2, t1, t2);
    }
  }

  lemma ElemsSameIffStep(a1: seq<Value>, a2: seq<Value>, i: nat, s1: seq<string>, s2: seq<string>,
                         t1: seq<PathEntry>, t2: seq<PathEntry>)
    requires i < |a1|
    requires ElemsDiffSpec(a1, a2, i + 1, s1, s2, t1, t2) == NoDiffs <==>
      (i + 1 < |a1| ==> |a1| <= |a2|) && forall k :: i + 1 <= k < |a1| ==> Same(a1[k], a2[k])
    ensures ElemsDiffSpec(a1, a2, i, s1, s2, t1, t2) == NoDiffs <==>
      |a1| <= |a2| && forall k :: i <= k < |a1| ==> Same(a1[k], a2[k])
    decreases a1, 2, |a1| - i - 1
  {
    ElemSameIff(a1, a2, i, s1, s2, t1, t2);
    AndThenNoDiffs(ElemDiffSpec(a1, a2, i, s1, s2, t1, t2), ElemsDiffSpec(a1, a2, i + 1, s1, s2, t1, t2));
  }

  lemma {:induction false} ElemSameIff(a1: seq<Value>, a2: seq<Value>, i: nat, s1: seq<string>, s2: seq<string>,
                                       t1: seq<PathEntry>, t2: seq<PathEntry>)
    requires i < |a1|
    ensures ElemDiffSpec(a1, a2, i, s1, s2, t1, t2) == NoDiffs <==> i < |a2| && Same(a1[i], a2[i])
    decreases a1, 1
  {
    if i < |a2| {
      var seg := Separator + IndexSegment(i);
      ValSameIff(a1[i], a2[i], s1 + [seg], s2 + [seg], t1, t2);
    }
  }

  lemma {:induction false} ObjectSameIff(m1: seq<Member>, m2: seq<Member>, s1: seq<string>, s2: seq<string>,
                                         t1: seq<PathEntry>, t2: seq<PathEntry>)
    ensures FindDiffsSpec(m1, m2, s1, s2, t1, t2) == NoDiffs <==>
      && (forall j :: 0 <= j < |m2| ==> HasKey(m1, m2[j].key))
      && (forall i :: 0 <= i < |m1| ==>
            var j := KeyIndex(m2, m1[i].key);
            j < |m2| && Same(m1[i].val, m2[j].val))
    decreases m1, 3
  {
    LeftMembersSameIff(m1, m2, 0, s1 + [Separator], s2 + [Separator], t1, t2);
    RightMembersSameIff(m1, m2, 0, s1, s2, t1, t2);
  }

  lemma {:induction false} LeftMembersSameIff(m1: seq<Member>, m2: seq<Member>, i: nat, s1: seq<string>, s2: seq<string>,
                                              t1: seq<PathEntry>, t2: seq<PathEntry>)
    requires i <= |m1|
    ensures LeftMembersSpec(m1, m2, i, s1, s2, t1, t2) == NoDiffs <==>
      forall k :: i <= k < |m1| ==>
        var j := KeyIndex(m2, m1[k].key);
        j < |m2| && Same(m1[k].val, m2[j].val)
    decreases m1, 2, |m1| - i
  {
    if i < |m1| {
      LeftMembersSameIff(m1, m2, i + 1, s1, s2, t1, t2);
      LeftMembersSameIffStep(m1, m2, i, s1, s2, t1, t2);
    }
  }

  lemma LeftMembersSameIffStep(m1: seq<Member>, m2: seq<Member>, i: nat, s1: seq<string>, s2: seq<string>,
                               t1: seq<PathEntry>, t2: seq<PathEntry>)
    requires i < |m1|
    requires LeftMembersSpec(m1, m2, i + 1, s1, s2, t1, t2) == NoDiffs <==>
      forall k :: i + 1 <= k < |m1| ==>
        var j := KeyIndex(m2, m1[k].key);
        j < |m2| && Same(m1[k].val, m2[j].val)
    ensures LeftMembersSpec(m1, m2, i, s1, s2, t1, t2) == NoDiffs <==>
      forall k :: i <= k < |m1| ==>
        var j := KeyIndex(m2, m1[k].key);
        j < |m2| && Same(m1[k].val, m2[j].val)
    decreases m1, 2, |m1| - i - 1
  {
    LeftMemberSameIff(m1, m2, i, s1, s2, t1, t2);
    AndThenNoDiffs(LeftMemberSpec(m1, m2, i, s1, s2, t1, t2), LeftMembersSpec(m1, m2, i + 1, s1, s2, t1, t2));
  }

  lemma {:induction false} LeftMemberSameIff(m1: seq<Member>, m2: seq<Member>, i: nat, s1: seq<string>, s2: seq<string>,
                                             t1: seq<PathEntry>, t2: seq<PathEntry>)
    requires i < |m1|
    ensures LeftMemberSpec(m1, m2, i, s1, s2, t1, t2) == NoDiffs <==>
      var j := KeyIndex(m2, m1[i].key);
      j < |m2| && Same(m1[i].val, m2[j].val)
    decreases m1, 1
  {
    var j := KeyIndex(m2, m1[i].key);
    if j < |m2| {
      var seg := ReplaceFirst(m1[i].key, '/', "#");
      ValSameIff(m1[i].val, m2[j].val, s1 + [seg], s2 + [seg], t1, t2);
    }
  }

  lemma {:induction false} RightMembersSameIff(m1: seq<Member>, m2: seq<Member>, k: nat, s1: seq<string>, s2: seq<string>,
                                               t1: seq<PathEntry>, t2: seq<PathEntry>)
    requires k <= |m2|
    ensures RightMembersSpec(m1, m2, k, s1, s2, t1, t2) == NoDiffs <==>
      forall j :: k <= j < |m2| ==> HasKey(m1, m2[j].key)
    decreases |m2| - k
  {
    if k < |m2| {
      RightMembersSameIff(m1, m2, k + 1, s1, s2, t1, t2);
      AndThenNoDiffs(RightMemberSpec(m1, m2, k, s1, s2, t1, t2), RightMembersSpec(m1, m2, k + 1, s1, s2, t1, t2));
    }
  }

  // ---------------------------------------------------------------------
  // Missing elements and properties.

  /** The messages of a list of diffs, in order. */
  function Messages(ds: seq<Diff>): (ms: seq<string>)
    ensures |ms| == |ds|
  {
    seq(|ds|, k requires 0 <= k < |ds| => ds[k].msg)
  }

  predicate AllMissing(ds: seq<Diff>)
  {
    forall k :: 0 <= k < |ds| ==> ds[k].kind == Missing
  }

  /** The messages about the missing elements `lo`, ..., `hi - 1`. */
  function ElementMsgs(lo: nat, hi: nat, side: string): (ms: seq<string>)
    ensures |ms| == if lo < hi then hi - lo else 0
    decreases hi - lo
  {
    if hi <= lo then [] else [MissingElementMsg(lo, side)] + ElementMsgs(lo + 1, hi, side)
  }

  /** The keys of `ms` from member `i` on that `other` lacks, in order. */
  function OnlyIn(ms: seq<Member>, other: seq<Member>, i: nat): seq<string>
    requires i <= |ms|
    decreases |ms| - i
  {
    if i == |ms| then []
    else (if KeyIndex(other, ms[i].key) == |other| then [ms[i].key] else []) + OnlyIn(ms, other, i + 1)
  }

  function PropertyMsgs(keys: seq<string>, side: string): (ms: seq<string>)
    ensures |ms| == |keys|
  {
    if keys == [] then [] else [MissingPropertyMsg(keys[0], side)] + PropertyMsgs(keys[1..], side)
  }

  lemma {:induction false} PropertyMsgsAppend(a: seq<string>, b: seq<string>, side: string)
    ensures PropertyMsgs(a + b, side) == PropertyMsgs(a, side) + PropertyMsgs(b, side)
  {
    if a == [] {
      assert a + b == b;
    } else {
      assert (a + b)[1..] == a[1..] + b;
      PropertyMsgsAppend(a[1..], b, side);
    }
  }

  /** From position `k` on, `ds` is one `missing` diff per message of
      `msgs`, in the same order, and nothing more. */
  predicate MissingFrom(ds: seq<Diff>, msgs: seq<string>, k: nat)
    decreases |msgs| - k
  {
    if |msgs| <= k then |ds| == |msgs|
    else k < |ds| && ds[k].kind == Missing && ds[k].msg == msgs[k] && MissingFrom(ds, msgs, k + 1)
  }

  /** A walk that, unless it threw, reports exactly `msgs` as `missing`
      diffs, in order. */
  predicate ReportsMissing(w: Walk, msgs: seq<string>)
  {
    w.thrown.None? ==> MissingFrom(w.diffs, msgs, 0)
  }

  lemma {:induction false} MissingFromLength(ds: seq<Diff>, msgs: seq<string>, k: nat)
    requires MissingFrom(ds, msgs, k)
    ensures |ds| == |msgs|
    ensures forall j :: k <= j < |ds| ==> ds[j].kind == Missing && ds[j].msg == msgs[j]
    decreases |msgs| - k
  {
    if k < |msgs| {
      MissingFromLength(ds, msgs, k + 1);
    }
  }

  /** The diffs of `b` moved to after those of `a` keep reporting `mb`. */
  lemma {:induction false} MissingFromShift(a: seq<Diff>, b: seq<Diff>, ma: seq<string>, mb: seq<string>, j: nat)
    requires |a| == |ma| && MissingFrom(b, mb, j)
    ensures MissingFrom(a + b, ma + mb, |a| + j)
    decreases |mb| - j
  {
    if j < |mb| {
      MissingFromShift(a, b, ma, mb, j + 1);
      assert (a + b)[|a| + j] == b[j] && (ma + mb)[|a| + j] == mb[j];
    }
  }

  lemma {:induction false} MissingFromPrefix(a: seq<Diff>, b: seq<Diff>, ma: seq<string>, mb: seq<string>, k: nat)
    requires k <= |ma| == |a|
    requires MissingFrom(a, ma, k) && MissingFrom(b, mb, 0)
    ensures MissingFrom(a + b, ma + mb, k)
    decreases |ma| - k
  {
    if k == |ma| {
      MissingFromShift(a, b, ma, mb, 0);
    } else {
      MissingFromPrefix(a, b, ma, mb, k + 1);
      assert (a + b)[k] == a[k] && (ma + mb)[k] == ma[k];
    }
  }

  lemma MissingAllAppend(a: seq<Diff>, b: seq<Diff>, ma: seq<string>, mb: seq<string>)
    requires MissingFrom(a, ma, 0) && MissingFrom(b, mb, 0)
    ensures MissingFrom(a + b, ma + mb, 0)
  {
    MissingFromLength(a, ma, 0);
    MissingFromPrefix(a, b, ma, mb, 0);
  }

  /** What `MissingFrom` says about the messages and kinds of the diffs. */
  lemma MissingAllMeaning(ds: seq<Diff>, msgs: seq<string>)
    requires MissingFrom(ds, msgs, 0)
    ensures Messages(ds) == msgs && AllMissing(ds) && |ds| == |msgs|
  {
    MissingFromLength(ds, msgs, 0);
  }

  /** Two consecutive stretches of a walk that report `m1` and `m2` missing
      report `m1 + m2` missing. */
  lemma ReportsStep(p: Walk, q: Walk, m1: seq<string>, m2: seq<string>)
    requires ReportsMissing(p, m1) && ReportsMissing(q, m2)
    ensures ReportsMissing(AndThen(p, q), m1 + m2)
  {
    if AndThen(p, q).thrown.None? {
      MissingAllAppend(p.diffs, q.diffs, m1, m2);
    }
  }

  /** A single `missing` diff reported by `generateDiff`. */
  lemma SingleReports(t1: seq<PathEntry>, path1: string, t2: seq<PathEntry>, path2: string, msg: string)
    ensures ReportsMissing(Single(GenerateDiff(t1, path1, t2, path2, msg, Missing)), [msg])
  {
  }

  lemma {:induction false} LeftMissingShape(i: nat, n2: nat, s1: seq<string>, s2: seq<string>,
                                            t1: seq<PathEntry>, t2: seq<PathEntry>)
    requires i <= n2
    ensures ReportsMissing(LeftMissingSpec(i, n2, s1, s2, t1, t2), ElementMsgs(i, n2, "left"))
    decreases n2 - i
  {
    if i < n2 {
      var msg := MissingElementMsg(i, "left");
      SingleReports(t1, GeneratePath(s1, None), t2, GeneratePath(s2, Some(IndexSegment(i))), msg);
      LeftMissingShape(i + 1, n2, s1, s2, t1, t2);
      ReportsStep(LeftMissingElemSpec(i, s1, s2, t1, t2), LeftMissingSpec(i + 1, n2, s1, s2, t1, t2),
                  [msg], ElementMsgs(i + 1, n2, "left"));
    }
  }

  /** The larger of `i` and `n`. */
  function Later(i: nat, n: nat): (m: nat)
    ensures m >= i && m >= n && (m == i || m == n)
  {
    if i < n then n else i
  }

  /** The left array's `forEach` from index `i` on, when every pair of
      elements both arrays have is the same: a `missing` diff for each index
      the right array lacks. */
  lemma {:induction false} ElemsGap(a1: seq<Value>, a2: seq<Value>, i: nat, s1: seq<string>, s2: seq<string>,
                                    t1: seq<PathEntry>, t2: seq<PathEntry>)
    requires i <= |a1|
    requires forall k :: 0 <= k < |a1| && k < |a2| ==> Same(a1[k], a2[k])
    ensures ReportsMissing(ElemsDiffSpec(a1, a2, i, s1, s2, t1, t2), ElementMsgs(Later(i, |a2|), |a1|, "right"))
    decreases |a1| - i
  {
    if i < |a1| {
      var first := ElemDiffSpec(a1, a2, i, s1, s2, t1, t2);
      var rest := ElemsDiffSpec(a1, a2, i + 1, s1, s2, t1, t2);
      ElemsGap(a1, a2, i + 1, s1, s2, t1, t2);
      if i < |a2| {
        ElemSameIff(a1, a2, i, s1, s2, t1, t2);
        ReportsStep(first, rest, [], ElementMsgs(Later(i + 1, |a2|), |a1|, "right"));
        assert [] + ElementMsgs(Later(i + 1, |a2|), |a1|, "right") == ElementMsgs(Later(i, |a2|), |a1|, "right");
      } else {
        var msg := MissingElementMsg(i, "right");
        SingleReports(t1, GeneratePath(s1, Some(IndexSegment(i))), t2, GeneratePath(s2, None), msg);
        ReportsStep(first, rest, [msg], ElementMsgs(i + 1, |a1|, "right"));
      }
    }
  }

  /** Two arrays whose common elements are the same: the walk reports one
      `missing` diff per element only one side has, first those of the right
      array, then those of the left one, so |len1 - len2| diffs in all. */
  lemma ArrayLengthGap(a1: seq<Value>, a2: seq<Value>, s1: seq<string>, s2: seq<string>,
                       t1: seq<PathEntry>, t2: seq<PathEntry>)
    requires forall k :: 0 <= k < |a1| && k < |a2| ==> Same(a1[k], a2[k])
    ensures var w := DiffArraySpec(a1, a2, s1, s2, t1, t2);
      w.thrown.None? ==>
        && Messages(w.diffs) == ElementMsgs(|a1|, |a2|, "left") + ElementMsgs(|a2|, |a1|, "right")
        && AllMissing(w.diffs)
        && |w.diffs| == if |a1| <= |a2| then |a2| - |a1| else |a1| - |a2|
  {
    var w := DiffArraySpec(a1, a2, s1, s2, t1, t2);
    var msgs := ElementMsgs(|a1|, |a2|, "left") + ElementMsgs(|a2|, |a1|, "right");
    ElemsGap(a1, a2, 0, s1, s2, t1, t2);
    if |a1| < |a2| {
      LeftMissingShape(|a1|, |a2|, s1, s2, t1, t2);
      ReportsStep(LeftMissingSpec(|a1|, |a2|, s1, s2, t1, t2), ElemsDiffSpec(a1, a2, 0, s1, s2, t1, t2),
                  ElementMsgs(|a1|, |a2|, "left"), ElementMsgs(|a2|, |a1|, "right"));
    } else {
      assert ElementMsgs(|a1|, |a2|, "left") == [];
      assert msgs == ElementMsgs(Later(0, |a2|), |a1|, "right");
    }
    assert ReportsMissing(w, msgs);
    if w.thrown.None? {
      MissingAllMeaning(w.diffs, msgs);
    }
  }

  /** When every shared key holds the same value, the `for...in` over the
      left object reports only the keys the right object lacks, in order. */
  lemma {:induction false} LeftMembersOnly(m1: seq<Member>, m2: seq<Member>, i: nat, s1: seq<string>, s2: seq<string>,
                                           t1: seq<PathEntry>, t2: seq<PathEntry>)
    requires i <= |m1|
    requires SharedSame(m1, m2)
    ensures ReportsMissing(LeftMembersSpec(m1, m2, i, s1, s2, t1, t2), OnlyMsgs(m1, m2, i, "right"))
    decreases |m1| - i
  {
    if i < |m1| {
      LeftMembersOnly(m1, m2, i + 1, s1, s2, t1, t2);
      LeftOnlyStep(m1, m2, i, s1, s2, t1, t2);
    }
  }

  lemma LeftOnlyStep(m1: seq<Member>, m2: seq<Member>, i: nat, s1: seq<string>, s2: seq<string>,
                     t1: seq<PathEntry>, t2: seq<PathEntry>)
    requires i < |m1|
    requires SharedSame(m1, m2)
    requires ReportsMissing(LeftMembersSpec(m1, m2, i + 1, s1, s2, t1, t2), OnlyMsgs(m1, m2, i + 1, "right"))
    ensures ReportsMissing(LeftMembersSpec(m1, m2, i, s1, s2, t1, t2), OnlyMsgs(m1, m2, i, "right"))
  {
    LeftMemberShape(m1, m2, i, s1, s2, t1, t2);
    ReportsStep(LeftMemberSpec(m1, m2, i, s1, s2, t1, t2), LeftMembersSpec(m1, m2, i + 1, s1, s2, t1, t2),
                OnlyKeyMsgs(m1, m2, i, "right"), OnlyMsgs(m1, m2, i + 1, "right"));
  }

  /** The message for member `i` of `ms` when `other` lacks its key, else none. */
  function OnlyKeyMsgs(ms: seq<Member>, other: seq<Member>, i: nat, side: string): seq<string>
    requires i < |ms|
  {
    if KeyIndex(other, ms[i].key) == |other| then [MissingPropertyMsg(ms[i].key, side)] else []
  }

  /** The messages for the members of `ms` from `i` on whose keys `other` lacks. */
  function OnlyMsgs(ms: seq<Member>, other: seq<Member>, i: nat, side: string): seq<string>
    requires i <= |ms|
    decreases |ms| - i
  {
    if i == |ms| then [] else OnlyKeyMsgs(ms, other, i, side) + OnlyMsgs(ms, other, i + 1, side)
  }

  lemma {:induction false} OnlyMsgsKeys(ms: seq<Member>, other: seq<Member>, i: nat, side: string)
    requires i <= |ms|
    ensures OnlyMsgs(ms, other, i, side) == PropertyMsgs(OnlyIn(ms, other, i), side)
    decreases |ms| - i
  {
    if i < |ms| {
      OnlyMsgsKeys(ms, other, i + 1, side);
      var key := if KeyIndex(other, ms[i].key) == |other| then [ms[i].key] else [];
      assert OnlyIn(ms, other, i) == key + OnlyIn(ms, other, i + 1);
      PropertyMsgsAppend(key, OnlyIn(ms, other, i + 1), side);
      if key != [] {
        assert key[1..] == [];
      }
      assert PropertyMsgs(key, side) == OnlyKeyMsgs(ms, other, i, side);
    }
  }

  /** A member of the left object whose key the right object shares holds
      the same value there, so it reports nothing. */
  lemma LeftMemberShape(m1: seq<Member>, m2: seq<Member>, i: nat, s1: seq<string>, s2: seq<string>,
                        t1: seq<PathEntry>, t2: seq<PathEntry>)
    requires i < |m1|
    requires SharedSame(m1, m2)
    ensures ReportsMissing(LeftMemberSpec(m1, m2, i, s1, s2, t1, t2), OnlyKeyMsgs(m1, m2, i, "right"))
  {
    var key := m1[i].key;
    var seg := ReplaceFirst(key, '/', "#");
    if KeyIndex(m2, key) == |m2| {
      SingleReports(t1, GeneratePath(s1 + [seg], None), t2, GeneratePath(s2, None), MissingPropertyMsg(key, "right"));
    } else {
      LeftMemberSameIff(m1, m2, i, s1, s2, t1, t2);
    }
  }

  lemma {:induction false} RightMembersOnly(m1: seq<Member>, m2: seq<Member>, k: nat, s1: seq<string>, s2: seq<string>,
                                            t1: seq<PathEntry>, t2: seq<PathEntry>)
    requires k <= |m2|
    ensures ReportsMissing(RightMembersSpec(m1, m2, k, s1, s2, t1, t2), OnlyMsgs(m2, m1, k, "left"))
    decreases |m2| - k
  {
    if k < |m2| {
      RightMembersOnly(m1, m2, k + 1, s1, s2, t1, t2);
      RightOnlyStep(m1, m2, k, s1, s2, t1, t2);
    }
  }

  lemma RightOnlyStep(m1: seq<Member>, m2: seq<Member>, k: nat, s1: seq<string>, s2: seq<string>,
                      t1: seq<PathEntry>, t2: seq<PathEntry>)
    requires k < |m2|
    requires ReportsMissing(RightMembersSpec(m1, m2, k + 1, s1, s2, t1, t2), OnlyMsgs(m2, m1, k + 1, "left"))
    ensures ReportsMissing(RightMembersSpec(m1, m2, k, s1, s2, t1, t2), OnlyMsgs(m2, m1, k, "left"))
  {
    RightMemberShape(m1, m2, k, s1, s2, t1, t2);
    ReportsStep(RightMemberSpec(m1, m2, k, s1, s2, t1, t2), RightMembersSpec(m1, m2, k + 1, s1, s2, t1, t2),
                OnlyKeyMsgs(m2, m1, k, "left"), OnlyMsgs(m2, m1, k + 1, "left"));
  }

  lemma RightMemberShape(m1: seq<Member>, m2: seq<Member>, k: nat, s1: seq<string>, s2: seq<string>,
                         t1: seq<PathEntry>, t2: seq<PathEntry>)
    requires k < |m2|
    ensures ReportsMissing(RightMemberSpec(m1, m2, k, s1, s2, t1, t2), OnlyKeyMsgs(m2, m1, k, "left"))
  {
    var key := m2[k].key;
    if KeyIndex(m1, key) == |m1| {
      SingleReports(t1, GeneratePath(s1, None), t2, GeneratePath(s2, Some(key)), MissingPropertyMsg(key, "left"));
    }
  }

  /** Every key of `m1` that `m2` also has holds the same value on both
      sides. */
  predicate SharedSame(m1: seq<Member>, m2: seq<Member>)
  {
    forall k :: 0 <= k < |m1| && KeyIndex(m2, m1[k].key) < |m2| ==>
      Same(m1[k].val, m2[KeyIndex(m2, m1[k].key)].val)
  }

  /** Two objects whose shared keys hold the same values: one `missing`
      diff per key only one side has, first the left object's keys in its
      order, then the right object's. */
  lemma ObjectKeyDifference(m1: seq<Member>, m2: seq<Member>, s1: seq<string>, s2: seq<string>,
                            t1: seq<PathEntry>, t2: seq<PathEntry>)
    requires SharedSame(m1, m2)
    ensures var w := FindDiffsSpec(m1, m2, s1, s2, t1, t2);
      w.thrown.None? ==>
        && Messages(w.diffs) == PropertyMsgs(OnlyIn(m1, m2, 0), "right") + PropertyMsgs(OnlyIn(m2, m1, 0), "left")
        && AllMissing(w.diffs)
        && |w.diffs| == |OnlyIn(m1, m2, 0)| + |OnlyIn(m2, m1, 0)|
  {
    var w := FindDiffsSpec(m1, m2, s1, s2, t1, t2);
    var left := LeftMembersSpec(m1, m2, 0, s1 + [Separator], s2 + [Separator], t1, t2);
    var right := RightMembersSpec(m1, m2, 0, s1, s2, t1, t2);
    var msgs := PropertyMsgs(OnlyIn(m1, m2, 0), "right") + PropertyMsgs(OnlyIn(m2, m1, 0), "left");
    LeftMembersOnly(m1, m2, 0, s1 + [Separator], s2 + [Separator], t1, t2);
    RightMembersOnly(m1, m2, 0, s1, s2, t1, t2);
    ReportsStep(left, right, OnlyMsgs(m1, m2, 0, "right"), OnlyMsgs(m2, m1, 0, "left"));
    if w.thrown.None? {
      OnlyMsgsKeys(m1, m2, 0, "right");
      OnlyMsgsKeys(m2, m1, 0, "left");
      MissingAllMeaning(w.diffs, msgs);
    }
  }

  // ---------------------------------------------------------------------
  // Kinds.

  predicate SameKind(v1: Value, v2: Value)
  {
    match v1
    case Null => v2.Null?
    case Bool(_) => v2.Bool?
    case Num(_) => v2.Num?
    case Str(_) => v2.Str?
    case Arr(_) => v2.Arr?
    case Obj(_) => v2.Obj?
  }

  /** Values of different kinds: a left array throws; anything else gives
      exactly one `type` diff naming the left value's kind. */
  lemma KindMismatch(v1: Value, v2: Value, s1: seq<string>, s2: seq<string>, t1: seq<PathEntry>, t2: seq<PathEntry>)
    requires !SameKind(v1, v2)
    ensures var w := DiffValSpec(v1, v2, s1, s2, t1, t2);
      && (v1.Arr? ==> w == Walk([], Some(ArrayExpected)))
      && (!v1.Arr? && w.thrown.None? ==>
            |w.diffs| == 1 && w.diffs[0].kind == Type && w.diffs[0].msg == TypeMsg(v1))
  {
  }

  /** Two different scalars of the same kind: exactly one `eq` diff, whose
      message for booleans says which side is `true`. */
  lemma ScalarMismatch(v1: Value, v2: Value, s1: seq<string>, s2: seq<string>, t1: seq<PathEntry>, t2: seq<PathEntry>)
    requires SameKind(v1, v2) && !v1.Arr? && !v1.Obj? && v1 != v2
    ensures var w := DiffValSpec(v1, v2, s1, s2, t1, t2);
      && (w.thrown.None? ==> |w.diffs| == 1 && w.diffs[0].kind == Eq)
      && (v1.Bool? && w.thrown.None? ==> w.diffs[0].msg == BoolMsg(v1.b))
      && (v1.Str? && w.thrown.None? ==> w.diffs[0].msg == "Both sides should be equal strings")
      && (v1.Num? && w.thrown.None? ==> w.diffs[0].msg == "Both sides should be equal numbers")
  {
    if v1.Bool? {
      HereShape(t1, s1, t2, s2, BoolMsg(v1.b), Eq);
    } else if v1.Str? {
      HereShape(t1, s1, t2, s2, "Both sides should be equal strings", Eq);
    } else if v1.Num? {
      HereShape(t1, s1, t2, s2, "Both sides should be equal numbers", Eq);
    }
  }

  // ---------------------------------------------------------------------
  // Every row a diff carries is a row of the table it was looked up in.

  /** Each diff of `w` names a row of `t1` for the left side and a row of
      `t2` for the right side. */
  predicate RowsFrom(w: Walk, t1: seq<PathEntry>, t2: seq<PathEntry>)
  {
    RowsAt(w.diffs, t1, t2, 0)
  }

  /** Each diff of `ds` from position `k` on names a row of `t1` and a row of `t2`. */
  predicate RowsAt(ds: seq<Diff>, t1: seq<PathEntry>, t2: seq<PathEntry>, k: nat)
    decreases |ds| - k
  {
    k >= |ds| || (ds[k].path1 in t1 && ds[k].path2 in t2 && RowsAt(ds, t1, t2, k + 1))
  }

  lemma {:induction false} RowsAtMeaning(ds: seq<Diff>, t1: seq<PathEntry>, t2: seq<PathEntry>, k: nat)
    requires RowsAt(ds, t1, t2, k)
    ensures forall j :: k <= j < |ds| ==> ds[j].path1 in t1 && ds[j].path2 in t2
    decreases |ds| - k
  {
    if k < |ds| {
      RowsAtMeaning(ds, t1, t2, k + 1);
    }
  }

  lemma {:induction false} RowsAtOfAll(ds: seq<Diff>, t1: seq<PathEntry>, t2: seq<PathEntry>, k: nat)
    requires forall j :: k <= j < |ds| ==> ds[j].path1 in t1 && ds[j].path2 in t2
    ensures RowsAt(ds, t1, t2, k)
    decreases |ds| - k
  {
    if k < |ds| {
      RowsAtOfAll(ds, t1, t2, k + 1);
    }
  }

  lemma SingleRows(t1: seq<PathEntry>, path1: string, t2: seq<PathEntry>, path2: string, msg: string, kind: DiffKind)
    ensures RowsFrom(Single(GenerateDiff(t1, path1, t2, path2, msg, kind)), t1, t2)
  {
    var w := Single(GenerateDiff(t1, path1, t2, path2, msg, kind));
    if w.diffs != [] {
      assert RowsAt(w.diffs, t1, t2, 1);
    }
  }

  lemma AndThenRows(p: Walk, q: Walk, t1: seq<PathEntry>, t2: seq<PathEntry>)
    requires RowsFrom(p, t1, t2) && RowsFrom(q, t1, t2)
    ensures RowsFrom(AndThen(p, q), t1, t2)
  {
    if p.thrown.None? {
      var ds := p.diffs + q.diffs;
      RowsAtMeaning(p.diffs, t1, t2, 0);
      RowsAtMeaning(q.diffs, t1, t2, 0);
      forall k | 0 <= k < |ds| ensures ds[k].path1 in t1 && ds[k].path2 in t2 {
        if k >= |p.diffs| { assert ds[k] == q.diffs[k - |p.diffs|]; }
      }
      RowsAtOfAll(ds, t1, t2, 0);
    }
  }

  /** `diffVal` only ever reports rows of the two tables it is given. */
  lemma {:induction false} ValRows(v1: Value, v2: Value, s1: seq<string>, s2: seq<string>,
                                   t1: seq<PathEntry>, t2: seq<PathEntry>)
    ensures RowsFrom(DiffValSpec(v1, v2, s1, s2, t1, t2), t1, t2)
    decreases v1, 4
  {
    match v1
    case Arr(a1) =>
      if v2.Arr? {
        ArrayRows(a1, v2.items, s1, s2, t1, t2);
      }
      ArrayValRows(v1, v2, s1, s2, t1, t2);
    case Obj(m1) =>
      if v2.Obj? {
        ObjectRows(m1, v2.members, s1, s2, t1, t2);
      }
      ObjectValRows(v1, v2, s1, s2, t1, t2);
    case _ =>
      ScalarRows(v1, v2, s1, s2, t1, t2);
  }

  lemma ArrayValRows(v1: Value, v2: Value, s1: seq<string>, s2: seq<string>, t1: seq<PathEntry>, t2: seq<PathEntry>)
    requires v1.Arr?
    requires v2.Arr? ==> RowsFrom(DiffArraySpec(v1.items, v2.items, s1, s2, t1, t2), t1, t2)
    ensures RowsFrom(DiffValSpec(v1, v2, s1, s2, t1, t2), t1, t2)
  {
  }

  lemma ObjectValRows(v1: Value, v2: Value, s1: seq<string>, s2: seq<string>, t1: seq<PathEntry>, t2: seq<PathEntry>)
    requires v1.Obj?
    requires v2.Obj? ==> RowsFrom(FindDiffsSpec(v1.members, v2.members, s1, s2, t1, t2), t1, t2)
    ensures RowsFrom(DiffValSpec(v1, v2, s1, s2, t1, t2), t1, t2)
  {
    if !v2.Obj? {
      SingleRows(t1, GeneratePath(s1, None), t2, GeneratePath(s2, None), TypeMsg(v1), Type);
    }
  }

  lemma ScalarRows(v1: Value, v2: Value, s1: seq<string>, s2: seq<string>, t1: seq<PathEntry>, t2: seq<PathEntry>)
    requires !v1.Arr? && !v1.Obj?
    ensures RowsFrom(DiffValSpec(v1, v2, s1, s2, t1, t2), t1, t2)
  {
    HereRows(t1, s1, t2, s2, TypeMsg(v1), Type);
    match v1
    case Str(_) => HereRows(t1, s1, t2, s2, "Both sides should be equal strings", Eq);
    case Num(_) => HereRows(t1, s1, t2, s2, "Both sides should be equal numbers", Eq);
    case Bool(b) => HereRows(t1, s1, t2, s2, BoolMsg(b), Eq);
    case Null =>
  }

  lemma HereRows(t1: seq<PathEntry>, s1: seq<string>, t2: seq<PathEntry>, s2: seq<string>, msg: string, kind: DiffKind)
    ensures RowsFrom(Here(t1, s1, t2, s2, msg, kind), t1, t2)
  {
    SingleRows(t1, GeneratePath(s1, None), t2, GeneratePath(s2, None), msg, kind);
  }

  lemma {:induction false} ArrayRows(a1: seq<Value>, a2: seq<Value>, s1: seq<string>, s2: seq<string>,
                                     t1: seq<PathEntry>, t2: seq<PathEntry>)
    ensures RowsFrom(DiffArraySpec(a1, a2, s1, s2, t1, t2), t1, t2)
    decreases a1, 3
  {
    ElemsRows(a1, a2, 0, s1, s2, t1, t2);
    if |a1| < |a2| {
      LeftMissingRows(|a1|, |a2|, s1, s2, t1, t2);
      AndThenRows(LeftMissingSpec(|a1|, |a2|, s1, s2, t1, t2), ElemsDiffSpec(a1, a2, 0, s1, s2, t1, t2), t1, t2);
    }
  }

  lemma {:induction false} LeftMissingRows(i: nat, n2: nat, s1: seq<string>, s2: seq<string>,
                                           t1: seq<PathEntry>, t2: seq<PathEntry>)
    requires i <= n2
    ensures RowsFrom(LeftMissingSpec(i, n2, s1, s2, t1, t2), t1, t2)
    decreases n2 - i
  {
    if i < n2 {
      LeftMissingRows(i + 1, n2, s1, s2, t1, t2);
      AndThenRows(LeftMissingElemSpec(i, s1, s2, t1, t2), LeftMissingSpec(i + 1, n2, s1, s2, t1, t2), t1, t2);
    }
  }

  lemma {:induction false} ElemsRows(a1: seq<Value>, a2: seq<Value>, i: nat, s1: seq<string>, s2: seq<string>,
                                     t1: seq<PathEntry>, t2: seq<PathEntry>)
    requires i <= |a1|
    ensures RowsFrom(ElemsDiffSpec(a1, a2, i, s1, s2, t1, t2), t1, t2)
    decreases a1, 2, |a1| - i
  {
    if i < |a1| {
      ElemsRows(a1, a2, i + 1, s1, s2, t1, t2);
      ElemsRowsStep(a1, a2, i, s1, s2, t1, t2);
    }
  }

  lemma ElemsRowsStep(a1: seq<Value>, a2: seq<Value>, i: nat, s1: seq<string>, s2: seq<string>,
                      t1: seq<PathEntry>, t2: seq<PathEntry>)
    requires i < |a1|
    requires RowsFrom(ElemsDiffSpec(a1, a2, i + 1, s1, s2, t1, t2), t1, t2)
    ensures RowsFrom(ElemsDiffSpec(a1, a2, i, s1, s2, t1, t2), t1, t2)
    decreases a1, 2, |a1| - i - 1
  {
    ElemRows(a1, a2, i, s1, s2, t1, t2);
    AndThenRows(ElemDiffSpec(a1, a2, i, s1, s2, t1, t2), ElemsDiffSpec(a1, a2, i + 1, s1, s2, t1, t2), t1, t2);
  }

  lemma {:induction false} ElemRows(a1: seq<Value>, a2: seq<Value>, i: nat, s1: seq<string>, s2: seq<string>,
                                    t1: seq<PathEntry>, t2: seq<PathEntry>)
    requires i < |a1|
    ensures RowsFrom(ElemDiffSpec(a1, a2, i, s1, s2, t1, t2), t1, t2)
    decreases a1, 1
  {
    if i < |a2| {
      var seg := Separator + IndexSegment(i);
      ValRows(a1[i], a2[i], s1 + [seg], s2 + [seg], t1, t2);
    }
  }

  lemma {:induction false} ObjectRows(m1: seq<Member>, m2: seq<Member>, s1: seq<string>, s2: seq<string>,
                                      t1: seq<PathEntry>, t2: seq<PathEntry>)
    ensures RowsFrom(FindDiffsSpec(m1, m2, s1, s2, t1, t2), t1, t2)
    decreases m1, 3
  {
    LeftMembersRows(m1, m2, 0, s1 + [Separator], s2 + [Separator], t1, t2);
    RightMembersRows(m1, m2, 0, s1, s2, t1, t2);
    AndThenRows(LeftMembersSpec(m1, m2, 0, s1 + [Separator], s2 + [Separator], t1, t2),
                RightMembersSpec(m1, m2, 0, s1, s2, t1, t2), t1, t2);
  }

  lemma {:induction false} LeftMembersRows(m1: seq<Member>, m2: seq<Member>, i: nat, s1: seq<string>, s2: seq<string>,
                                           t1: seq<PathEntry>, t2: seq<PathEntry>)
    requires i <= |m1|
    ensures RowsFrom(LeftMembersSpec(m1, m2, i, s1, s2, t1, t2), t1, t2)
    decreases m1, 2, |m1| - i
  {
    if i < |m1| {
      LeftMembersRows(m1, m2, i + 1, s1, s2, t1, t2);
      LeftMembersRowsStep(m1, m2, i, s1, s2, t1, t2);
    }
  }

  lemma LeftMembersRowsStep(m1: seq<Member>, m2: seq<Member>, i: nat, s1: seq<string>, s2: seq<string>,
                                               t1: seq<PathEntry>, t2: seq<PathEntry>)
    requires i < |m1|
    requires RowsFrom(LeftMembersSpec(m1, m2, i + 1, s1, s2, t1, t2), t1, t2)
    ensures RowsFrom(LeftMembersSpec(m1, m2, i, s1, s2, t1, t2), t1, t2)
    decreases m1, 2, |m1| - i - 1
  {
    LeftMemberRows(m1, m2, i, s1, s2, t1, t2);
    AndThenRows(LeftMemberSpec(m1, m2, i, s1, s2, t1, t2), LeftMembersSpec(m1, m2, i + 1, s1, s2, t1, t2), t1, t2);
  }

  lemma {:induction false} LeftMemberRows(m1: seq<Member>, m2: seq<Member>, i: nat, s1: seq<string>, s2: seq<string>,
                                          t1: seq<PathEntry>, t2: seq<PathEntry>)
    requires i < |m1|
    ensures RowsFrom(LeftMemberSpec(m1, m2, i, s1, s2, t1, t2), t1, t2)
    decreases m1, 1
  {
    var key := m1[i].key;
    var seg := ReplaceFirst(key, '/', "#");
    var j := KeyIndex(m2, key);
    if j < |m2| {
      ValRows(m1[i].val, m2[j].val, s1 + [seg], s2 + [seg], t1, t2);
    } else {
      SingleRows(t1, GeneratePath(s1 + [seg], None), t2, GeneratePath(s2, None), MissingPropertyMsg(key, "right"), Missing);
    }
  }

  lemma {:induction false} RightMembersRows(m1: seq<Member>, m2: seq<Member>, k: nat, s1: seq<string>, s2: seq<string>,
                                            t1: seq<PathEntry>, t2: seq<PathEntry>)
    requires k <= |m2|
    ensures RowsFrom(RightMembersSpec(m1, m2, k, s1, s2, t1, t2), t1, t2)
    decreases |m2| - k
  {
    if k < |m2| {
      RightMembersRows(m1, m2, k + 1, s1, s2, t1, t2);
      AndThenRows(RightMemberSpec(m1, m2, k, s1, s2, t1, t2), RightMembersSpec(m1, m2, k + 1, s1, s2, t1, t2), t1, t2);
    }
  }
}
