/** What the printer guarantees about the line numbers it records: the line
    counter always equals the number of line breaks written so far, and the
    rows of the path table name strictly increasing lines, each within the
    part of the output that produced it. The differ relies on this when it
    turns a path into a line. */
module PrinterProperties {
  import opened StringOps
  import opened Json
  import opened Printer

  /** `p`, printed from line `line`, ends on the line its text says, and its
      rows name strictly increasing lines after `line` within it. */
  predicate Tracks(p: Printed, line: int)
  {
    && p.line == line + NewlineCount(p.text)
    && (forall i :: 0 <= i < |p.entries| ==> line < p.entries[i].line <= p.line)
    && (forall i, j :: 0 <= i < j < |p.entries| ==> p.entries[i].line < p.entries[j].line)
  }

  lemma NoNewlines(s: string)
    requires Newline !in s
    ensures NewlineCount(s) == 0
  {
  }

  lemma {:induction false} TabsHaveNoNewline(indent: int)
    ensures Newline !in GetTabs(indent)
  {
    GetTabsSpaces(indent);
  }

  lemma ReplaceFirstKeepsOut(s: string, c: char, rep: string, d: char)
    requires d !in s && d !in rep
    ensures d !in ReplaceFirst(s, c, rep)
  {
    ReplaceFirstSpec(s, c, rep);
  }

  lemma {:induction false} ReplaceAllKeepsOut(s: string, c: char, rep: string, d: char)
    requires d !in s && d !in rep
    ensures d !in ReplaceAll(s, c, rep)
  {
    if s != [] {
      ReplaceAllKeepsOut(s[1..], c, rep, d);
    }
  }

  /** `unescapeString` never leaves a raw line feed: the third pass turns
      every one of them into `\n`, and the later passes add none. */
  lemma UnescapedHasNoNewline(val: string)
    ensures Newline !in UnescapeString(val)
  {
    if val != "" {
      var s1 := ReplaceFirst(val, '\\', "\\\\");
      var s2 := ReplaceAll(s1, '"', "\\\"");
      var s3 := ReplaceAll(s2, Newline, "\\n");
      var s4 := ReplaceFirst(s3, Backspace, "\\b");
      ReplaceFirstKeepsOut(s3, Backspace, "\\b", Newline);
      var s5 := ReplaceAll(s4, FormFeed, "\\f");
      ReplaceAllKeepsOut(s4, FormFeed, "\\f", Newline);
      var s6 := ReplaceAll(s5, CarriageReturn, "\\r");
      ReplaceAllKeepsOut(s5, CarriageReturn, "\\r", Newline);
      ReplaceAllKeepsOut(s6, Tab, "\\t", Newline);
    }
  }

  /** Nor a raw form feed, carriage return or tab: each has its own global
      pass, and no later pass writes one back. */
  lemma UnescapedHasNoRawControls(val: string)
    ensures var r := UnescapeString(val);
      FormFeed !in r && CarriageReturn !in r && Tab !in r
  {
    if val != "" {
      var s1 := ReplaceFirst(val, '\\', "\\\\");
      var s2 := ReplaceAll(s1, '"', "\\\"");
      var s3 := ReplaceAll(s2, Newline, "\\n");
      var s4 := ReplaceFirst(s3, Backspace, "\\b");
      var s5 := ReplaceAll(s4, FormFeed, "\\f");
      var s6 := ReplaceAll(s5, CarriageReturn, "\\r");
      ReplaceAllKeepsOut(s5, CarriageReturn, "\\r", FormFeed);
      ReplaceAllKeepsOut(s6, Tab, "\\t", FormFeed);
      ReplaceAllKeepsOut(s6, Tab, "\\t", CarriageReturn);
    }
  }

  /** The backslash pass uses a string pattern and so touches only the first
      backslash: in a string with no other special character, the first
      backslash is doubled and every later one stays single. */
  lemma UnescapeBackslashOnce(p: string, q: string)
    requires '\\' !in p
    requires var v := p + "\\" + q;
      '"' !in v && Newline !in v && Backspace !in v && FormFeed !in v && CarriageReturn !in v && Tab !in v
    ensures UnescapeString(p + "\\" + q) == p + "\\\\" + q
  {
    ReplaceFirstAt(p, q, '\\', "\\\\");
    var s1 := p + "\\\\" + q;
    assert ReplaceAll(s1, '"', "\\\"") == s1;
    assert ReplaceAll(s1, Newline, "\\n") == s1;
    LaterPassesIdle(s1);
  }

  /** So does the backspace pass: the first backspace becomes `\b` and every
      later one stays raw. */
  lemma UnescapeBackspaceOnce(p: string, q: string)
    requires Backspace !in p
    requires var v := p + [Backspace] + q;
      '\\' !in v && '"' !in v && Newline !in v && FormFeed !in v && CarriageReturn !in v && Tab !in v
    ensures UnescapeString(p + [Backspace] + q) == p + "\\b" + q
  {
    BackspaceOnlyPass(p + [Backspace] + q);
    ReplaceFirstAt(p, q, Backspace, "\\b");
  }

  /** On a string whose only special characters are backspaces, the
      backspace pass is the only one that changes anything. */
  lemma BackspaceOnlyPass(val: string)
    requires val != []
    requires '\\' !in val && '"' !in val && Newline !in val
    requires FormFeed !in val && CarriageReturn !in val && Tab !in val
    ensures UnescapeString(val) == ReplaceFirst(val, Backspace, "\\b")
  {
    ReplaceFirstSpec(val, '\\', "\\\\");
    assert ReplaceFirst(val, '\\', "\\\\") == val;
    assert ReplaceAll(val, '"', "\\\"") == val;
    assert ReplaceAll(val, Newline, "\\n") == val;
    var s4 := ReplaceFirst(val, Backspace, "\\b");
    ReplaceFirstKeepsOut(val, Backspace, "\\b", FormFeed);
    ReplaceFirstKeepsOut(val, Backspace, "\\b", CarriageReturn);
    ReplaceFirstKeepsOut(val, Backspace, "\\b", Tab);
    assert ReplaceAll(s4, FormFeed, "\\f") == s4;
    assert ReplaceAll(s4, CarriageReturn, "\\r") == s4;
    assert ReplaceAll(s4, Tab, "\\t") == s4;
  }

  /** Every quote of `s` comes right after a backslash; a quote at the very
      start counts as escaped exactly when `before` says the character
      before `s` is a backslash. */
  predicate EscapedFrom(s: string, before: bool)
  {
    && (|s| > 0 && s[0] == '"' ==> before)
    && (forall i :: 0 < i < |s| && s[i] == '"' ==> s[i - 1] == '\\')
  }

  /** The quote pass is a global regular expression: in the result of
      `unescapeString` every quote is preceded by a backslash, for every
      input, because no later pass removes a backslash or adds a quote. */
  lemma UnescapeQuotesAll(val: string)
    ensures var r := UnescapeString(val);
      forall i :: 0 <= i < |r| && r[i] == '"' ==> 0 < i && r[i - 1] == '\\'
  {
    if val != "" {
      var s1 := ReplaceFirst(val, '\\', "\\\\");
      var s2 := ReplaceAll(s1, '"', "\\\"");
      QuotePassEscapes(s1);
      var s3 := ReplaceAll(s2, Newline, "\\n");
      ReplaceAllKeepsEscaped(s2, Newline, "\\n", false);
      var s4 := ReplaceFirst(s3, Backspace, "\\b");
      ReplaceFirstKeepsEscaped(s3, Backspace, "\\b", false);
      var s5 := ReplaceAll(s4, FormFeed, "\\f");
      ReplaceAllKeepsEscaped(s4, FormFeed, "\\f", false);
      var s6 := ReplaceAll(s5, CarriageReturn, "\\r");
      ReplaceAllKeepsEscaped(s5, CarriageReturn, "\\r", false);
      ReplaceAllKeepsEscaped(s6, Tab, "\\t", false);
    }
  }

  /** After the quote pass every quote is escaped. */
  lemma {:induction false} QuotePassEscapes(s: string)
    ensures EscapedFrom(ReplaceAll(s, '"', "\\\""), false)
  {
    if s != [] {
      QuotePassEscapes(s[1..]);
      var h := if s[0] == '"' then "\\\"" else [s[0]];
      EscapedJoin(h, ReplaceAll(s[1..], '"', "\\\""), false, false);
    }
  }

  /** A pass that replaces neither quotes nor backslashes, and writes no
      quote, keeps every quote escaped. */
  lemma {:induction false} ReplaceAllKeepsEscaped(s: string, c: char, rep: string, before: bool)
    requires c != '"' && c != '\\' && '"' !in rep && rep != []
    requires EscapedFrom(s, before)
    ensures EscapedFrom(ReplaceAll(s, c, rep), before)
  {
    if s != [] {
      EscapedTail(s, before);
      ReplaceAllKeepsEscaped(s[1..], c, rep, s[0] == '\\');
      var h := if s[0] == c then rep else [s[0]];
      NoQuoteEscaped(h, before);
      EscapedJoin(h, ReplaceAll(s[1..], c, rep), before, s[0] == '\\');
    }
  }

  /** The same for a pass that replaces only the first occurrence. */
  lemma {:induction false} ReplaceFirstKeepsEscaped(s: string, c: char, rep: string, before: bool)
    requires c != '"' && c != '\\' && '"' !in rep && rep != []
    requires EscapedFrom(s, before)
    ensures EscapedFrom(ReplaceFirst(s, c, rep), before)
  {
    if s != [] {
      EscapedTail(s, before);
      if s[0] == c {
        NoQuoteEscaped(rep, before);
        EscapedJoin(rep, s[1..], before, false);
      } else {
        ReplaceFirstKeepsEscaped(s[1..], c, rep, s[0] == '\\');
        EscapedJoin([s[0]], ReplaceFirst(s[1..], c, rep), before, s[0] == '\\');
      }
    }
  }

  lemma NoQuoteEscaped(h: string, before: bool)
    requires '"' !in h || (h == [h[0]] && (h[0] == '"' ==> before))
    ensures EscapedFrom(h, before)
  {
  }

  lemma EscapedTail(s: string, before: bool)
    requires s != [] && EscapedFrom(s, before)
    ensures EscapedFrom(s[1..], s[0] == '\\')
  {
    forall i | 0 < i < |s[1..]| && s[1..][i] == '"'
      ensures s[1..][i - 1] == '\\'
    {
      assert s[i + 1] == '"';
    }
    if |s| > 1 && s[1] == '"' {
      assert s[1..][0] == s[1];
    }
  }

  lemma EscapedJoin(h: string, t: string, before: bool, mid: bool)
    requires h != [] && EscapedFrom(h, before) && EscapedFrom(t, mid)
    requires mid ==> h[|h| - 1] == '\\'
    ensures EscapedFrom(h + t, before)
  {
    assert (h + t)[0] == h[0];
    forall i | 0 < i < |h + t| && (h + t)[i] == '"'
      ensures (h + t)[i - 1] == '\\'
    {
      if i < |h| {
        assert h[i] == '"' && (h + t)[i - 1] == h[i - 1];
      } else if i == |h| {
        assert t[0] == '"' && (h + t)[i - 1] == h[|h| - 1];
      } else {
        assert t[i - |h|] == '"' && (h + t)[i - 1] == t[i - |h| - 1];
      }
    }
  }

  /** The passes after the line-feed pass change nothing in a string
      without backspace, form feed, carriage return or tab. */
  lemma LaterPassesIdle(s: string)
    requires Backspace !in s && FormFeed !in s && CarriageReturn !in s && Tab !in s
    ensures ReplaceFirst(s, Backspace, "\\b") == s
    ensures ReplaceAll(s, FormFeed, "\\f") == s
    ensures ReplaceAll(s, CarriageReturn, "\\r") == s
    ensures ReplaceAll(s, Tab, "\\t") == s
  {
    ReplaceFirstSpec(s, Backspace, "\\b");
  }

  lemma DropTrailingCommaNewlines(s: string)
    ensures NewlineCount(DropTrailingComma(s)) == NewlineCount(s)
  {
    if |s| > 0 && s[|s| - 1] == ',' {
      assert s == DropTrailingComma(s) + ",";
      CountCharAppend(DropTrailingComma(s), ",", Newline);
    }
  }

  lemma TrackThen(p: Printed, q: Printed, line: int)
    requires Tracks(p, line) && Tracks(q, p.line)
    ensures Tracks(Then(p, q), line)
  {
    CountCharAppend(p.text, q.text, Newline);
    var r := Then(p, q);
    forall i | 0 <= i < |r.entries| ensures line < r.entries[i].line <= r.line {
      if i >= |p.entries| { assert r.entries[i] == q.entries[i - |p.entries|]; }
    }
    forall i, j | 0 <= i < j < |r.entries| ensures r.entries[i].line < r.entries[j].line {
      if j < |p.entries| {
      } else if i >= |p.entries| {
        assert r.entries[i] == q.entries[i - |p.entries|];
        assert r.entries[j] == q.entries[j - |p.entries|];
      } else {
        assert r.entries[j] == q.entries[j - |p.entries|];
      }
    }
  }

  /** A lead holding one line break, then a row for the new line and a
      child printed from it. */
  lemma TrackLine(lead: string, entry: PathEntry, child: Printed, line: int)
    requires NewlineCount(lead) == 1
    requires entry.line == line + 1
    requires Tracks(child, line + 1)
    ensures Tracks(Printed(lead + child.text, [entry] + child.entries, child.line), line)
  {
    CountCharAppend(lead, child.text, Newline);
    var r := Printed(lead + child.text, [entry] + child.entries, child.line);
    forall i | 0 <= i < |r.entries| ensures line < r.entries[i].line <= r.line {
      if i > 0 { assert r.entries[i] == child.entries[i - 1]; }
    }
    forall i, j | 0 <= i < j < |r.entries| ensures r.entries[i].line < r.entries[j].line {
      assert r.entries[j] == child.entries[j - 1];
      if i > 0 { assert r.entries[i] == child.entries[i - 1]; }
    }
  }

  lemma ElementLeadNewlines(e: int)
    ensures NewlineCount("\n" + GetTabs(e)) == 1
  {
    TabsHaveNoNewline(e);
    CountCharAppend("\n", GetTabs(e), Newline);
  }

  lemma MemberLeadNewlines(e: int, key: string)
    ensures NewlineCount("\n" + GetTabs(e) + "\"" + UnescapeString(key) + "\": ") == 1
  {
    ElementLeadNewlines(e);
    UnescapedHasNoNewline(key);
    var a := "\n" + GetTabs(e);
    CountCharAppend(a, "\"", Newline);
    CountCharAppend(a + "\"", UnescapeString(key), Newline);
    CountCharAppend(a + "\"" + UnescapeString(key), "\": ", Newline);
  }

  /** The closing part of a collection keeps the tracking of its body. */
  lemma TrackEnclose(open: string, body: Printed, close: string, c: int, root: seq<PathEntry>, line: int)
    requires Newline !in open && Newline !in close
    requires Tracks(body, line)
    ensures var r := Enclose(open, body, close, c, root);
      && r.entries[..|root|] == root
      && Tracks(Printed(r.text, r.entries[|root|..], r.line), line)
  {
    var r := Enclose(open, body, close, c, root);
    assert r.entries[|root|..] == body.entries;
    NoNewlines(open);
    CountCharAppend(open, body.text, Newline);
    DropTrailingCommaNewlines(open + body.text);
    TabsHaveNoNewline(c);
    NoNewlines(GetTabs(c));
    NoNewlines(close);
    var tail := if c != 0 then "," else "\n";
    assert CloseText(c, close) == "\n" + GetTabs(c) + close + tail;
    CountCharAppend("\n", GetTabs(c), Newline);
    CountCharAppend("\n" + GetTabs(c), close, Newline);
    CountCharAppend("\n" + GetTabs(c) + close, tail, Newline);
    CountCharAppend(DropTrailingComma(open + body.text), CloseText(c, close), Newline);
  }

  lemma {:induction false} ValTracks(v: Value, d: int, segs: seq<string>, line: int)
    requires WellFormed(v)
    ensures Tracks(ValSpec(v, d, segs, line, false), line)
    decreases v, 0
  {
    match v {
      case Null =>
        NoNewlines("null,");
      case Bool(b) =>
        NoNewlines((if b then "true" else "false") + ",");
      case Num(n) =>
        assert Newline !in n.text + ",";
        NoNewlines(n.text + ",");
      case Str(s) =>
        UnescapedHasNoNewline(s);
        assert Newline !in "\"" + UnescapeString(s) + "\",";
        NoNewlines("\"" + UnescapeString(s) + "\",");
      case Arr(items) =>
        ArrayTracks(items, d, segs, line);
      case Obj(ms) =>
        ObjectTracks(ms, d, segs, line);
    }
  }

  lemma {:induction false} ArrayTracks(items: seq<Value>, d: int, segs: seq<string>, line: int)
    requires forall i :: 0 <= i < |items| ==> WellFormed(items[i])
    ensures Tracks(ArraySpec(items, d, segs, line), line)
    decreases items, 3
  {
    var body := ElemsSpec(items, 0, d + 1, segs, line);
    ElemsTracks(items, 0, d + 1, segs, line);
    NoNewlines("[");
    CountCharAppend("[", body.text, Newline);
    DropTrailingCommaNewlines("[" + body.text);
    TabsHaveNoNewline(d);
    NoNewlines(GetTabs(d));
    CountCharAppend("\n", GetTabs(d), Newline);
    CountCharAppend("\n" + GetTabs(d), "],", Newline);
    CountCharAppend(DropTrailingComma("[" + body.text), NestedCloseText(d), Newline);
  }

  lemma {:induction false} ElemsTracks(items: seq<Value>, i: nat, e: int, segs: seq<string>, line: int)
    requires i <= |items|
    requires forall j :: 0 <= j < |items| ==> WellFormed(items[j])
    ensures Tracks(ElemsSpec(items, i, e, segs, line), line)
    decreases items, 2, |items| - i
  {
    if i < |items| {
      var first := ElemSpec(items[i], i, e, segs, line);
      ElemTracks(items[i], i, e, segs, line);
      ElemsTracks(items, i + 1, e, segs, first.line);
      TrackThen(first, ElemsSpec(items, i + 1, e, segs, first.line), line);
    }
  }

  lemma {:induction false} ElemTracks(v: Value, i: nat, e: int, segs: seq<string>, line: int)
    requires WellFormed(v)
    ensures Tracks(ElemSpec(v, i, e, segs, line), line)
    decreases v, 1
  {
    ValTracks(v, e, segs + [Separator + IndexSegment(i)], line + 1);
    ElementLeadNewlines(e);
    TrackLine("\n" + GetTabs(e), PathEntry(GeneratePath(segs, Some(IndexSegment(i))), line + 1),
              ValSpec(v, e, segs + [Separator + IndexSegment(i)], line + 1, false), line);
  }

  lemma {:induction false} ObjectTracks(ms: seq<Member>, d: int, segs: seq<string>, line: int)
    requires forall i :: 0 <= i < |ms| ==> WellFormed(ms[i].val)
    ensures Tracks(ObjectSpec(ms, d, segs, line, false), line)
    decreases ms, 1
  {
    var body := MembersSpec(ms, SortStrings(Keys(ms)), 0, OpenIndent(d), segs + [Separator], line);
    MembersTracks(ms, SortStrings(Keys(ms)), 0, OpenIndent(d), segs + [Separator], line);
    TrackEnclose("{", body, "}", CloseIndent(OpenIndent(d)), [], line);
  }

  lemma {:induction false} MembersTracks(ms: seq<Member>, props: seq<string>, k: nat, e: int, segs: seq<string>, line: int)
    requires k <= |props|
    requires forall i :: 0 <= i < |ms| ==> WellFormed(ms[i].val)
    ensures Tracks(MembersSpec(ms, props, k, e, segs, line), line)
    decreases ms, 0, |props| - k
  {
    if k < |props| {
      var j := KeyIndex(ms, props[k]);
      var first := if j < |ms| then MemberSpec(props[k], ms[j].val, e, segs, line) else Printed("", [], line);
      if j < |ms| {
        MemberTracks(props[k], ms[j].val, e, segs, line);
      }
      MembersTracks(ms, props, k + 1, e, segs, first.line);
      TrackThen(first, MembersSpec(ms, props, k + 1, e, segs, first.line), line);
    }
  }

  lemma {:induction false} MemberTracks(key: string, v: Value, e: int, segs: seq<string>, line: int)
    requires WellFormed(v)
    ensures Tracks(MemberSpec(key, v, e, segs, line), line)
    decreases v, 1
  {
    var seg := ReplaceFirst(key, '/', "#");
    ValTracks(v, e, segs + [seg], line + 1);
    MemberLeadNewlines(e, key);
    TrackLine("\n" + GetTabs(e) + "\"" + UnescapeString(key) + "\": ", PathEntry(GeneratePath(segs + [seg], None), line + 1),
              ValSpec(v, e, segs + [seg], line + 1, false), line);
  }

  /** A whole document, printed from a fresh configuration (indentation -1,
      line 1, empty stacks): the first row is the root `/` on line 1, the
      other rows name strictly increasing later lines, and the final line
      counter is one more than the number of line breaks printed. */
  lemma DocumentTracks(data: Value)
    requires WellFormed(data)
    ensures var p := DecorateSpec(data, -1, [], 1, true);
      && p.entries != []
      && p.entries[0] == PathEntry(Separator, 1)
      && Tracks(Printed(p.text, p.entries[1..], p.line), 1)
  {
    if data.Arr? {
      RootArrayTracks(data.items);
    } else {
      OwnPropertiesWellFormed(data);
      RootObjectTracks(OwnProperties(data));
    }
  }

  lemma RootArrayTracks(items: seq<Value>)
    requires forall i :: 0 <= i < |items| ==> WellFormed(items[i])
    ensures var p := RootArraySpec(items, -1, [], 1, true);
      && p.entries[..1] == [PathEntry(Separator, 1)]
      && Tracks(Printed(p.text, p.entries[1..], p.line), 1)
  {
    var root := [PathEntry(Separator, 1)];
    assert RootEntry(true, [], 1) == root;
    var body := ElemsSpec(items, 0, 1, [], 1);
    assert RootArraySpec(items, -1, [], 1, true) == Enclose("[", body, "]", 0, root);
    ElemsTracks(items, 0, 1, [], 1);
    TrackEnclose("[", body, "]", 0, root, 1);
  }

  lemma RootObjectTracks(ms: seq<Member>)
    requires forall i :: 0 <= i < |ms| ==> WellFormed(ms[i].val)
    ensures var p := ObjectSpec(ms, -1, [], 1, true);
      && p.entries[..1] == [PathEntry(Separator, 1)]
      && Tracks(Printed(p.text, p.entries[1..], p.line), 1)
  {
    EnclosedMembersTrack(ms, 1, 0, [] + [Separator], 1, RootEntry(true, [], 1));
  }

  /** The members of an object between braces, after the given root rows. */
  lemma EnclosedMembersTrack(ms: seq<Member>, e: int, c: int, segs: seq<string>, line: int, root: seq<PathEntry>)
    requires forall i :: 0 <= i < |ms| ==> WellFormed(ms[i].val)
    ensures var r := Enclose("{", MembersSpec(ms, SortStrings(Keys(ms)), 0, e, segs, line), "}", c, root);
      && r.entries[..|root|] == root
      && Tracks(Printed(r.text, r.entries[|root|..], r.line), line)
  {
    MembersTracks(ms, SortStrings(Keys(ms)), 0, e, segs, line);
    TrackEnclose("{", MembersSpec(ms, SortStrings(Keys(ms)), 0, e, segs, line), "}", c, root, line);
  }

  // ---------------------------------------------------------------------
  // One row per node: the table has a row for the root, for every member
  // and for every element, at every depth, and no other.

  /** The rows a member named `p` adds: its own and those below its value,
      or none when `p` is not a key of `ms`. */
  function KeyRows(ms: seq<Member>, p: string): nat
  {
    var j := KeyIndex(ms, p);
    if j < |ms| then 1 + Descendants(ms[j].val) else 0
  }

  /** The rows the members named `ps` add, in that order. */
  function NamedRows(ms: seq<Member>, ps: seq<string>): nat
  {
    if ps == [] then 0 else KeyRows(ms, ps[0]) + NamedRows(ms, ps[1..])
  }

  /** A value printed nested adds one row per node strictly below it. */
  lemma {:induction false} ValRowCount(v: Value, d: int, segs: seq<string>, line: int)
    requires WellFormed(v)
    ensures |ValSpec(v, d, segs, line, false).entries| == Descendants(v)
    decreases v, 0
  {
    match v {
      case Arr(items) =>
        ElemsRowCount(items, 0, d + 1, segs, line);
        assert items[0..] == items;
      case Obj(ms) =>
        ObjectRowCount(ms, d, segs, line, false);
      case _ =>
    }
  }

  lemma {:induction false} ElemsRowCount(items: seq<Value>, i: nat, e: int, segs: seq<string>, line: int)
    requires i <= |items|
    requires forall j :: 0 <= j < |items| ==> WellFormed(items[j])
    ensures |ElemsSpec(items, i, e, segs, line).entries| == ItemsDescendants(items[i..])
    decreases items, 2, |items| - i
  {
    if i < |items| {
      var first := ElemSpec(items[i], i, e, segs, line);
      ElemRowCount(items[i], i, e, segs, line);
      ElemsRowCount(items, i + 1, e, segs, first.line);
      assert items[i..][0] == items[i] && items[i..][1..] == items[i + 1..];
    }
  }

  /** An element adds its own row and those below it. */
  lemma {:induction false} ElemRowCount(v: Value, i: nat, e: int, segs: seq<string>, line: int)
    requires WellFormed(v)
    ensures |ElemSpec(v, i, e, segs, line).entries| == 1 + Descendants(v)
    decreases v, 1
  {
    ValRowCount(v, e, segs + [Separator + IndexSegment(i)], line + 1);
  }

  /** An object adds one row per member and those below each member's
      value, after its own row when the table was empty. */
  lemma {:induction false} ObjectRowCount(ms: seq<Member>, d: int, segs: seq<string>, line: int, empty: bool)
    requires DistinctKeys(ms)
    requires forall i :: 0 <= i < |ms| ==> WellFormed(ms[i].val)
    ensures |ObjectSpec(ms, d, segs, line, empty).entries| == (if empty then 1 else 0) + MembersDescendants(ms)
    decreases ms, 1
  {
    var props := SortStrings(Keys(ms));
    MembersRowCount(ms, props, 0, OpenIndent(d), segs + [Separator], line);
    assert props[0..] == props;
    SortStringsSortsAndPermutes(Keys(ms));
    NamedRowsPermutation(ms, props, Keys(ms));
    KeysRows(ms);
  }

  lemma {:induction false} MembersRowCount(ms: seq<Member>, props: seq<string>, k: nat, e: int, segs: seq<string>, line: int)
    requires k <= |props|
    requires forall i :: 0 <= i < |ms| ==> WellFormed(ms[i].val)
    ensures |MembersSpec(ms, props, k, e, segs, line).entries| == NamedRows(ms, props[k..])
    decreases ms, 0, |props| - k
  {
    if k < |props| {
      var j := KeyIndex(ms, props[k]);
      var first := if j < |ms| then MemberSpec(props[k], ms[j].val, e, segs, line) else Printed("", [], line);
      if j < |ms| {
        MemberRowCount(props[k], ms[j].val, e, segs, line);
      }
      MembersRowCount(ms, props, k + 1, e, segs, first.line);
      assert props[k..][0] == props[k] && props[k..][1..] == props[k + 1..];
    }
  }

  /** A member adds its own row and those below its value. */
  lemma {:induction false} MemberRowCount(key: string, v: Value, e: int, segs: seq<string>, line: int)
    requires WellFormed(v)
    ensures |MemberSpec(key, v, e, segs, line).entries| == 1 + Descendants(v)
    decreases v, 1
  {
    ValRowCount(v, e, segs + [ReplaceFirst(key, '/', "#")], line + 1);
  }

  /** Taking one name out of the list takes out exactly its rows. */
  lemma {:induction false} NamedRowsRemove(ms: seq<Member>, q: seq<string>, i: nat)
    requires i < |q|
    ensures NamedRows(ms, q) == KeyRows(ms, q[i]) + NamedRows(ms, q[..i] + q[i + 1..])
  {
    if i > 0 {
      var r := q[..i] + q[i + 1..];
      NamedRowsRemove(ms, q[1..], i - 1);
      assert q[1..][i - 1] == q[i];
      assert r[0] == q[0];
      assert r[1..] == q[1..][..i - 1] + q[1..][i..];
    } else {
      assert q[..0] + q[1..] == q[1..];
    }
  }

  /** The rows do not depend on the order of the names. */
  lemma {:induction false} NamedRowsPermutation(ms: seq<Member>, p: seq<string>, q: seq<string>)
    requires multiset(p) == multiset(q)
    ensures NamedRows(ms, p) == NamedRows(ms, q)
    decreases |p|
  {
    if p == [] {
      assert |q| == |multiset(q)| == 0;
    } else {
      var i := MatchFirst(p, q);
      NamedRowsRemove(ms, q, i);
      NamedRowsPermutation(ms, p[1..], q[..i] + q[i + 1..]);
    }
  }

  /** Where the first name of `p` sits in a permutation `q` of it, and what
      is left of both once it is taken out. */
  lemma MatchFirst(p: seq<string>, q: seq<string>) returns (i: nat)
    requires p != [] && multiset(p) == multiset(q)
    ensures i < |q| && q[i] == p[0]
    ensures multiset(p[1..]) == multiset(q[..i] + q[i + 1..])
  {
    assert p == [p[0]] + p[1..];
    assert p[0] in multiset(q);
    i :| 0 <= i < |q| && q[i] == p[0];
    assert q == q[..i] + [q[i]] + q[i + 1..];
    assert multiset(q) == multiset(q[..i] + q[i + 1..]) + multiset{p[0]};
    assert multiset(p) == multiset(p[1..]) + multiset{p[0]};
    assert multiset(p[1..]) == multiset(p) - multiset{p[0]};
  }

  /** Names other than the first member's key add the same rows with or
      without that member. */
  lemma {:induction false} NamedRowsTail(ms: seq<Member>, ps: seq<string>)
    requires ms != [] && ms[0].key !in ps
    ensures NamedRows(ms, ps) == NamedRows(ms[1..], ps)
  {
    if ps != [] {
      assert ps[0] != ms[0].key;
      assert KeyIndex(ms, ps[0]) == 1 + KeyIndex(ms[1..], ps[0]);
      NamedRowsTail(ms, ps[1..]);
    }
  }

  /** Over an object's own keys, the names add one row per member and those
      below it. */
  lemma {:induction false} KeysRows(ms: seq<Member>)
    requires DistinctKeys(ms)
    ensures NamedRows(ms, Keys(ms)) == MembersDescendants(ms)
  {
    if ms != [] {
      var rest := Keys(ms[1..]);
      assert Keys(ms) == [ms[0].key] + rest;
      assert Keys(ms)[1..] == rest;
      assert ms[0].key !in rest by {
        forall j | 0 <= j < |rest| ensures rest[j] != ms[0].key {
          assert rest[j] == ms[j + 1].key;
        }
      }
      NamedRowsTail(ms, rest);
      assert DistinctKeys(ms[1..]) by {
        forall i, j | 0 <= i < j < |ms| - 1 ensures ms[1..][i].key != ms[1..][j].key {
          assert ms[1..][i] == ms[i + 1] && ms[1..][j] == ms[j + 1];
        }
      }
      KeysRows(ms[1..]);
    }
  }

  /** Path completeness: a document printed from a fresh configuration gets
      one row for the root and one for every member and element below it; a
      string root, printed as an object of its characters, one per
      character. */
  lemma DocumentRows(data: Value)
    requires WellFormed(data)
    ensures |DecorateSpec(data, -1, [], 1, true).entries| == 1 + (if data.Str? then |data.s| else Descendants(data))
  {
    match data {
      case Arr(items) =>
        ElemsRowCount(items, 0, OpenIndent(-1), [], 1);
        assert items[0..] == items;
      case Str(s) =>
        CharPropertiesRows(s, 0);
        ObjectRowCount(CharProperties(s, 0), -1, [], 1, true);
      case _ =>
        OwnPropertiesWellFormed(data);
        ObjectRowCount(OwnProperties(data), -1, [], 1, true);
    }
  }

  /** The character properties of a string from index `i` have distinct
      names and add one row each. */
  lemma {:induction false} CharPropertiesRows(s: string, i: nat)
    requires i <= |s|
    ensures var ms := CharProperties(s, i);
      && DistinctKeys(ms) && MembersDescendants(ms) == |s| - i
      && forall j :: 0 <= j < |ms| ==> WellFormed(ms[j].val)
    decreases |s| - i
  {
    var ms := CharProperties(s, i);
    forall a, b | 0 <= a < b < |ms| ensures ms[a].key != ms[b].key {
      NatToStringInjective(i + a, i + b);
    }
    if i < |s| {
      CharPropertiesRows(s, i + 1);
      assert ms[1..] == CharProperties(s, i + 1);
    }
  }

  /** Every property value `formatAndDecorate` prints is well formed. */
  lemma OwnPropertiesWellFormed(data: Value)
    requires WellFormed(data)
    ensures forall i :: 0 <= i < |OwnProperties(data)| ==> WellFormed(OwnProperties(data)[i].val)
  {
  }
}
