/** What the lexer's rules accept, stated against the grammars of RFC 8259,
    and what `next` does to the lexer's state. */
module LexerProperties {
  import opened StringOps
  import opened JsonLexer

  // ---------------------------------------------------------------------
  // Numbers: section 6 of RFC 8259.

  predicate AllDigits(t: string)
  {
    forall x :: 0 <= x < |t| ==> IsDigit(t[x])
  }

  /** `int = zero / ( digit1-9 *DIGIT )` */
  predicate IsInt(t: string)
  {
    t == "0" || (|t| >= 1 && '1' <= t[0] <= '9' && AllDigits(t[1..]))
  }

  /** `frac = decimal-point 1*DIGIT` */
  predicate IsFrac(t: string)
  {
    |t| >= 2 && t[0] == '.' && AllDigits(t[1..])
  }

  /** `exp = e [ minus / plus ] 1*DIGIT` */
  predicate IsExp(t: string)
  {
    && |t| >= 2 && (t[0] == 'e' || t[0] == 'E')
    && (AllDigits(t[1..]) || (|t| >= 3 && (t[1] == '+' || t[1] == '-') && AllDigits(t[2..])))
  }

  /** `number = [ minus ] int [ frac ] [ exp ]`, split at `i`, `j` and `k`. */
  predicate NumberSplit(t: string, i: nat, j: nat, k: nat)
  {
    && i <= j <= k <= |t|
    && (i == 0 || (i == 1 && t[0] == '-'))
    && IsInt(t[i..j])
    && (j == k || IsFrac(t[j..k]))
    && (k == |t| || IsExp(t[k..]))
  }

  ghost predicate IsNumberText(t: string)
  {
    exists i: nat, j: nat, k: nat :: NumberSplit(t, i, j, k)
  }

  /** The first `m` characters of `s` are a number and a word boundary
      follows them. */
  ghost predicate NumberToken(s: string, m: nat)
  {
    m <= |s| && IsNumberText(s[..m]) && WordBoundary(s, m)
  }

  lemma {:induction false} DigitRunDigits(s: string, i: nat, x: nat)
    requires i <= |s| && i <= x < i + DigitRun(s, i)
    ensures IsDigit(s[x])
    decreases x - i
  {
    if x > i {
      DigitRunDigits(s, i + 1, x);
    }
  }

  /** A run of digits that ends where the digits end is the digit run. */
  lemma {:induction false} DigitRunExact(s: string, i: nat, e: nat)
    requires i <= e <= |s|
    requires AllDigits(s[i..e])
    requires e == |s| || !IsDigit(s[e])
    ensures DigitRun(s, i) == e - i
    decreases e - i
  {
    if i < e {
      assert IsDigit(s[i..e][0]);
      assert s[i + 1..e] == s[i..e][1..];
      DigitRunExact(s, i + 1, e);
    }
  }

  lemma {:induction false} DigitsOf(s: string, i: nat)
    requires i <= |s|
    ensures AllDigits(s[i..i + DigitRun(s, i)])
    decreases |s| - i
  {
    if DigitRun(s, i) > 0 {
      DigitsOf(s, i + 1);
      assert s[i..i + DigitRun(s, i)] == [s[i]] + s[i + 1..i + 1 + DigitRun(s, i + 1)];
    }
  }

  /** Where the optional minus sign of rule 1 ends. */
  function IntStart(s: string): nat
  {
    if |s| > 0 && s[0] == '-' then 1 else 0
  }

  lemma IntSound(s: string)
    requires DigitRun(s, IntStart(s)) > 0
    requires DigitRun(s, IntStart(s)) > 1 ==> s[IntStart(s)] != '0'
    ensures IntStart(s) + DigitRun(s, IntStart(s)) <= |s|
    ensures IsInt(s[IntStart(s)..IntStart(s) + DigitRun(s, IntStart(s))])
  {
    var a := IntStart(s);
    DigitsOf(s, a);
    DigitsInt(s[a..a + DigitRun(s, a)]);
  }

  /** Digits without a leading zero, or a lone zero, form an `int`. */
  lemma DigitsInt(t: string)
    requires |t| >= 1 && AllDigits(t) && (|t| > 1 ==> t[0] != '0')
    ensures IsInt(t)
  {
    assert IsDigit(t[0]);
    assert AllDigits(t[1..]) by {
      assert forall x :: 0 <= x < |t[1..]| ==> t[1..][x] == t[x + 1];
    }
    if t[0] == '0' {
      assert t == "0";
    }
  }

  lemma FracSound(s: string, p: nat)
    requires p < |s| && s[p] == '.' && DigitRun(s, p + 1) > 0
    ensures IsFrac(s[p..p + 1 + DigitRun(s, p + 1)])
  {
    var e := p + 1 + DigitRun(s, p + 1);
    DigitsOf(s, p + 1);
    DotDigitsFrac(s, p, e);
  }

  /** A point followed by a non-empty run of digits is a `frac`. */
  lemma DotDigitsFrac(s: string, p: nat, e: nat)
    requires p + 1 < e <= |s| && s[p] == '.' && AllDigits(s[p + 1..e])
    ensures IsFrac(s[p..e])
  {
    assert s[p..e][1..] == s[p + 1..e];
  }

  lemma ExponentSound(s: string, i: nat)
    requires i <= |s| && ExponentEnd(s, i).Some?
    ensures IsExp(s[i..ExponentEnd(s, i).value])
  {
    var j := if i + 1 < |s| && (s[i + 1] == '+' || s[i + 1] == '-') then i + 2 else i + 1;
    var e := ExponentEnd(s, i).value;
    DigitsOf(s, j);
    var t := s[i..e];
    if j == i + 2 {
      assert t[2..] == s[j..e];
    } else {
      assert t[1..] == s[j..e];
    }
  }

  lemma PrefixSlice(s: string, n: nat, a: nat, b: nat)
    requires a <= b <= n <= |s|
    ensures s[..n][a..b] == s[a..b]
  {
  }

  /** The parts of a number, found in `s`, make a split of its first `n`
      characters. */
  lemma SplitFromParts(s: string, n: nat, a: nat, p: nat, f: nat)
    requires a <= p <= f <= n <= |s|
    requires a == 0 || (a == 1 && s[0] == '-')
    requires IsInt(s[a..p])
    requires p == f || IsFrac(s[p..f])
    requires f == n || IsExp(s[f..n])
    ensures IsNumberText(s[..n])
  {
    var t := s[..n];
    PrefixSlice(s, n, a, p);
    PrefixSlice(s, n, p, f);
    PrefixSlice(s, n, f, n);
    assert NumberSplit(t, a, p, f);
  }

  lemma ExponentThenBoundarySound(s: string, i: nat)
    requires i <= |s| && ExponentThenBoundary(s, i).Some?
    ensures var n := ExponentThenBoundary(s, i).value;
      WordBoundary(s, n) && (n == i || IsExp(s[i..n]))
  {
    if ExponentEnd(s, i).Some? && WordBoundary(s, ExponentEnd(s, i).value) {
      ExponentSound(s, i);
    }
  }

  /** Where rule 1's fraction ends, when one follows the integer part that
      ends at `p`. */
  function FractionEnd(s: string, p: nat): Option<nat>
    requires p <= |s|
  {
    if p < |s| && s[p] == '.' && DigitRun(s, p + 1) > 0 then Some(p + 1 + DigitRun(s, p + 1)) else None
  }

  lemma NumberMatchShape(s: string)
    requires NumberMatch(s).Some?
    ensures var a := IntStart(s);
      && DigitRun(s, a) > 0 && (DigitRun(s, a) > 1 ==> s[a] != '0')
      && var p := a + DigitRun(s, a);
         var f := FractionEnd(s, p);
         NumberMatch(s) == if f.Some? && ExponentThenBoundary(s, f.value).Some?
                           then ExponentThenBoundary(s, f.value) else ExponentThenBoundary(s, p)
  {
  }

  /** Whatever rule 1 matches is a number followed by a word boundary. */
  lemma NumberMatchSound(s: string)
    requires NumberMatch(s).Some?
    ensures NumberToken(s, NumberMatch(s).value)
  {
    NumberMatchShape(s);
    var a := IntStart(s);
    var p := a + DigitRun(s, a);
    IntSound(s);
    var f := FractionEnd(s, p);
    if f.Some? && ExponentThenBoundary(s, f.value).Some? {
      FracSound(s, p);
      ExponentThenBoundarySound(s, f.value);
      SplitFromParts(s, ExponentThenBoundary(s, f.value).value, a, p, f.value);
    } else {
      ExponentThenBoundarySound(s, p);
      SplitFromParts(s, ExponentThenBoundary(s, p).value, a, p, p);
    }
  }

  lemma IntShape(x: string)
    requires IsInt(x)
    ensures |x| >= 1 && AllDigits(x) && (|x| > 1 ==> x[0] != '0')
  {
    if x != "0" {
      forall y | 1 <= y < |x| ensures IsDigit(x[y]) {
        assert x[y] == x[1..][y - 1];
      }
    }
  }

  lemma FracLast(x: string)
    requires IsFrac(x)
    ensures IsDigit(x[|x| - 1])
  {
    assert x[|x| - 1] == x[1..][|x| - 2];
  }

  lemma ExpLast(x: string)
    requires IsExp(x)
    ensures IsDigit(x[|x| - 1])
  {
    if AllDigits(x[1..]) {
      assert x[|x| - 1] == x[1..][|x| - 2];
    } else {
      assert x[|x| - 1] == x[2..][|x| - 3];
    }
  }

  /** A split of `s[..m]`, read back in `s`; a number ends in a digit. */
  lemma SplitInText(s: string, m: nat, i: nat, j: nat, k: nat)
    requires m <= |s| && NumberSplit(s[..m], i, j, k)
    ensures i <= j <= k <= m
    ensures i == 0 || (i == 1 && s[0] == '-')
    ensures IsInt(s[i..j])
    ensures j == k || IsFrac(s[j..k])
    ensures k == m || IsExp(s[k..m])
    ensures m > 0 && IsDigit(s[m - 1])
  {
    PrefixSlice(s, m, i, j);
    PrefixSlice(s, m, j, k);
    PrefixSlice(s, m, k, m);
    IntShape(s[i..j]);
    if k < m {
      ExpLast(s[k..m]);
      assert s[m - 1] == s[k..m][m - k - 1];
    } else if j < k {
      FracLast(s[j..k]);
      assert s[m - 1] == s[j..k][k - j - 1];
    } else {
      assert s[m - 1] == s[i..j][j - i - 1];
    }
  }

  /** The integer part of a number in `s` is the whole digit run after the
      sign. */
  lemma IntExact(s: string, i: nat, j: nat)
    requires i <= j <= |s| && (i == 0 || (i == 1 && s[0] == '-'))
    requires IsInt(s[i..j])
    requires j == |s| || !IsDigit(s[j])
    ensures i == IntStart(s) && DigitRun(s, i) == j - i
    ensures j - i >= 1 && (j - i > 1 ==> s[i] != '0')
  {
    IntShape(s[i..j]);
    assert IsDigit(s[i..j][0]);
    DigitRunExact(s, i, j);
  }

  lemma FracExact(s: string, j: nat, k: nat)
    requires j < k <= |s| && IsFrac(s[j..k])
    requires k == |s| || !IsDigit(s[k])
    ensures s[j] == '.' && DigitRun(s, j + 1) == k - j - 1 > 0
  {
    assert s[j] == s[j..k][0];
    assert s[j + 1..k] == s[j..k][1..];
    DigitRunExact(s, j + 1, k);
  }

  lemma ExponentExact(s: string, k: nat, m: nat)
    requires k <= m <= |s| && IsExp(s[k..m])
    requires m == |s| || !IsDigit(s[m])
    ensures ExponentEnd(s, k) == Some(m)
  {
    var t := s[k..m];
    assert s[k] == t[0];
    if AllDigits(t[1..]) {
      assert t[1..] == s[k + 1..m];
      assert IsDigit(t[1]);
      DigitRunExact(s, k + 1, m);
    } else {
      assert s[k + 1] == t[1];
      assert t[2..] == s[k + 2..m];
      DigitRunExact(s, k + 2, m);
    }
  }

  lemma ExponentThenBoundaryLongest(s: string, i: nat, m: nat)
    requires i <= m <= |s| && (i == m || IsExp(s[i..m]))
    requires WordBoundary(s, m) && (m == |s| || !IsDigit(s[m]))
    ensures ExponentThenBoundary(s, i).Some? && m <= ExponentThenBoundary(s, i).value
  {
    if i < m {
      ExponentExact(s, i, m);
    }
  }

  /** Rule 1 reaches at least `m` when the integer part ends at `j` and
      what follows it reaches `m`. */
  lemma NumberMatchReaches(s: string, j: nat, k: nat, m: nat)
    requires IntStart(s) <= |s| && j == IntStart(s) + DigitRun(s, IntStart(s))
    requires DigitRun(s, IntStart(s)) >= 1
    requires DigitRun(s, IntStart(s)) > 1 ==> s[IntStart(s)] != '0'
    requires j <= k <= m <= |s|
    requires j < k ==> && s[j] == '.' && DigitRun(s, j + 1) == k - j - 1 > 0
                       && ExponentThenBoundary(s, k).Some? && m <= ExponentThenBoundary(s, k).value
    requires j == k ==> && (j < m ==> s[j] != '.')
                        && ExponentThenBoundary(s, j).Some? && m <= ExponentThenBoundary(s, j).value
    ensures NumberMatch(s).Some? && m <= NumberMatch(s).value
  {
  }

  /** Every number followed by a word boundary is matched, and rule 1 takes
      the longest one. */
  lemma NumberMatchLongest(s: string, m: nat)
    requires NumberToken(s, m)
    ensures NumberMatch(s).Some? && m <= NumberMatch(s).value
  {
    var i: nat, j: nat, k: nat :| NumberSplit(s[..m], i, j, k);
    SplitInText(s, m, i, j, k);
    // A digit ends the number, so a word boundary means no digit follows.
    assert m == |s| || !IsDigit(s[m]);
    assert j == |s| || !IsDigit(s[j]) by {
      if j < k {
        assert s[j] == s[j..k][0];
      } else if j < m {
        assert s[j] == s[k..m][0];
      }
    }
    IntExact(s, i, j);
    if j < k {
      assert k == |s| || !IsDigit(s[k]) by {
        if k < m { assert s[k] == s[k..m][0]; }
      }
      FracExact(s, j, k);
      ExponentThenBoundaryLongest(s, k, m);
    } else {
      if k < m {
        assert s[k] == s[k..m][0];
      }
      ExponentThenBoundaryLongest(s, j, m);
    }
    NumberMatchReaches(s, j, k, m);
  }

  // ---------------------------------------------------------------------
  // Strings: section 7 of RFC 8259.

  /** One `char` of a string: an unescaped character, a one-character
      escape, or `\u` with four hexadecimal digits. */
  predicate IsStringChar(t: string)
  {
    || (|t| == 1 && IsPlain(t[0]))
    || (|t| == 2 && t[0] == '\\' && IsSimpleEscape(t[1]))
    || (|t| == 6 && t[0] == '\\' && t[1] == 'u'
        && IsHexDigit(t[2]) && IsHexDigit(t[3]) && IsHexDigit(t[4]) && IsHexDigit(t[5]))
  }

  /** The characters, front to back. */
  function Join(parts: seq<string>): string
  {
    if parts == [] then "" else parts[0] + Join(parts[1..])
  }

  /** `string = quotation-mark *char quotation-mark`, the body given as its
      sequence of chars. */
  ghost predicate StringToken(s: string, m: nat)
  {
    && 2 <= m <= |s| && s[0] == '"' && s[m - 1] == '"'
    && exists parts: seq<string> ::
         Join(parts) == s[1..m - 1] && forall x :: 0 <= x < |parts| ==> IsStringChar(parts[x])
  }

  /** The scan from `i` to `ScanItems(s, i)` is a sequence of chars. */
  lemma {:induction false} ScanItemsChars(s: string, i: nat) returns (parts: seq<string>)
    requires i <= |s|
    ensures Join(parts) == s[i..ScanItems(s, i)]
    ensures forall x :: 0 <= x < |parts| ==> IsStringChar(parts[x])
    decreases |s| - i
  {
    var e := ScanItems(s, i);
    if e == i {
      parts := [];
    } else {
      var w := if s[i] != '\\' then 1
               else if i + 1 < |s| && IsSimpleEscape(s[i + 1]) then 2
               else 6;
      var rest := ScanItemsChars(s, i + w);
      parts := [s[i..i + w]] + rest;
      assert parts[1..] == rest;
      assert s[i..e] == s[i..i + w] + s[i + w..e];
    }
  }

  /** A sequence of chars followed by a quotation mark is scanned to the
      quotation mark. */
  lemma {:induction false} ScanItemsExact(s: string, i: nat, e: nat, parts: seq<string>)
    requires i <= e < |s| && s[e] == '"'
    requires Join(parts) == s[i..e]
    requires forall x :: 0 <= x < |parts| ==> IsStringChar(parts[x])
    ensures ScanItems(s, i) == e
    decreases |parts|
  {
    if parts != [] {
      var c := parts[0];
      var w := |c|;
      assert s[i..e] == c + Join(parts[1..]);
      assert s[i..i + w] == s[i..e][..w];
      assert s[i..i + w] == c;
      assert s[i + w..e] == Join(parts[1..]);
      if w == 6 {
        assert !IsSimpleEscape(s[i + 1]);
      }
      ScanItemsExact(s, i + w, e, parts[1..]);
    } else {
      assert i == e;
    }
  }

  /** Rule 2 matches exactly the string literals of RFC 8259 (a string
      literal at the head of the input can end in one place only). */
  lemma StringMatchExact(s: string, m: nat)
    ensures StringMatch(s) == Some(m) <==> StringToken(s, m)
  {
    if StringMatch(s) == Some(m) {
      var parts := ScanItemsChars(s, 1);
      assert ScanItems(s, 1) == m - 1 && s[m - 1] == '"';
      assert Join(parts) == s[1..m - 1];
    }
    if StringToken(s, m) {
      var parts :| Join(parts) == s[1..m - 1] && forall x :: 0 <= x < |parts| ==> IsStringChar(parts[x]);
      ScanItemsExact(s, 1, m - 1, parts);
    }
  }

  // ---------------------------------------------------------------------
  // White space, keywords and the catch-all rule.

  /** The four white space characters of section 2 of RFC 8259 are skipped,
      and so are others, such as U+00A0 and U+FEFF. */
  lemma WhitespaceWider()
    ensures IsJsSpace(' ') && IsJsSpace(Tab) && IsJsSpace(Newline) && IsJsSpace(CarriageReturn)
    ensures IsJsSpace('\U{A0}') && IsJsSpace('\U{FEFF}') && IsJsSpace(VerticalTab)
  {
  }

  /** A keyword is taken only as a whole word. */
  lemma KeywordWholeWord(s: string)
    ensures RuleMatch(s, 9).Some? <==> |s| >= 4 && s[..4] == "true" && (|s| == 4 || !IsWordChar(s[4]))
  {
  }

  lemma {:induction false} FirstRuleFinds(s: string, r: nat, q: nat)
    requires r <= q < RuleCount && RuleMatch(s, q).Some?
    ensures FirstRule(s, r).Some? && FirstRule(s, r).value.0 <= q
    decreases q - r
  {
    if RuleMatch(s, r).None? {
      FirstRuleFinds(s, r + 1, q);
    }
  }

  /** Some rule matches every input, so `next` never reaches its lexical
      error: a line terminator is white space, and `.` takes any other
      character. */
  lemma NoLexicalError(st: LexState)
    requires ValidState(st)
    ensures !NextSpec(st).1.LexError?
  {
    var s := st.input;
    if !st.done && s != "" {
      if IsLineTerminator(s[0]) {
        assert SpaceRun(s, 0) > 0;
        FirstRuleFinds(s, 0, 0);
      } else {
        FirstRuleFinds(s, 0, 13);
      }
    }
  }

  /** Nor does `lex`, which only repeats `next` past white space. */
  lemma {:induction false} LexNoError(st: LexState)
    requires ValidState(st)
    ensures !LexSpec(st).1.LexError?
    decreases |st.input|
  {
    NoLexicalError(st);
    NextProgress(st);
    if NextSpec(st).1.Skip? {
      LexNoError(NextSpec(st).0);
    }
  }

  /** At the end of the input `next` gives the grammar's EOF token once,
      and `lexer.EOF` from then on. */
  lemma EndOfInput(st: LexState)
    requires ValidState(st) && st.input == "" && !st.done
    ensures var (st', x) := NextSpec(st);
      && x == Token(Tok(EOF_TOKEN)) && st'.done
      && NextSpec(st') == (st', Token(Tok(END)))
  {
    FirstRuleFinds("", 0, 12);
  }

  /** `lex` never returns the white-space result, keeps the state valid,
      and, unless it throws or the end was already reported, leaves less to
      read; once the end was reported it gives `lexer.EOF` and changes
      nothing. */
  lemma {:induction false} LexProgress(st: LexState)
    requires ValidState(st)
    ensures var (st', x) := LexSpec(st);
      && ValidState(st') && !x.Skip?
      && (!st.done && !x.LexError? ==> Remaining(st') < Remaining(st))
      && (st.done ==> x == Token(Tok(END)) && st' == st)
    decreases |st.input|
  {
    NextProgress(st);
    if NextSpec(st).1.Skip? {
      LexProgress(NextSpec(st).0);
    }
  }

  // ---------------------------------------------------------------------
  // Text is consumed, never lost, and lines are counted.

  /** `matched` and the rest of the input together are the text given to
      `setInput`, and `yylineno` is the number of line feeds in `matched`. */
  predicate Tracks(st: LexState, text: string)
  {
    st.matched + st.input == text && st.line == NewlineCount(st.matched)
  }

  lemma InitialTracks(text: string)
    ensures Tracks(Initial(text), text)
  {
  }

  lemma NextTracks(st: LexState, text: string)
    requires ValidState(st) && Tracks(st, text)
    ensures Tracks(NextSpec(st).0, text)
  {
    if !st.done {
      match FirstRule(st.input, 0)
      case Some((rule, n)) =>
        var t := st.input[..n];
        assert st.input == t + st.input[n..];
        assert (st.matched + t) + st.input[n..] == st.matched + st.input;
        CountCharAppend(st.matched, t, Newline);
      case None =>
    }
  }

  lemma {:induction false} LexTracks(st: LexState, text: string)
    requires ValidState(st) && Tracks(st, text)
    ensures Tracks(LexSpec(st).0, text)
    decreases |st.input|
  {
    NextTracks(st, text);
    NextProgress(st);
    if NextSpec(st).1.Skip? {
      LexTracks(NextSpec(st).0, text);
    }
  }

  // ---------------------------------------------------------------------
  // The position display.

  lemma DropNewlinesShape(s: string)
    ensures Newline !in DropNewlines(s) && |DropNewlines(s)| <= |s|
  {
    ReplaceAllLength(s, Newline, "");
  }

  /** `pastInput` has no line feed and at most 23 characters; when more than
      20 characters were consumed before the current match it is `...` and
      the last 20 of them, and otherwise it is all of them. */
  lemma PastInputShape(matched: string, matchText: string)
    ensures var r := PastInput(matched, matchText);
      var past := if |matched| >= |matchText| then matched[..|matched| - |matchText|] else "";
      && Newline !in r && |r| <= 23
      && (|past| > 20 ==> r[..3] == "..." && r == "..." + DropNewlines(past[|past| - 20..]))
      && (|past| <= 20 ==> r == DropNewlines(past))
  {
    var past := if |matched| >= |matchText| then matched[..|matched| - |matchText|] else "";
    var tail := past[|past| - Min(20, |past|)..];
    DropNewlinesShape(tail);
    if |past| <= 20 {
      assert tail == past;
    }
  }

  /** `upcomingInput` has no line feed and at most 23 characters. The rest
      of the input only tops the match up to 20 characters, so `...` follows
      only a match longer than 20 characters, never a long rest of input. */
  lemma UpcomingInputShape(matchText: string, input: string)
    ensures var r := UpcomingInput(matchText, input);
      && Newline !in r && |r| <= 23
      && (|matchText| <= 20 ==>
            r == DropNewlines((matchText + input)[..Min(20, |matchText| + |input|)]))
      && (|matchText| > 20 ==> r == DropNewlines(matchText[..20] + "..."))
  {
    var next := if |matchText| < 20 then matchText + input[..Min(|input|, 20 - |matchText|)] else matchText;
    var shown := next[..Min(20, |next|)] + (if |next| > 20 then "..." else "");
    assert UpcomingInput(matchText, input) == DropNewlines(shown);
    DropNewlinesShape(shown);
    if |matchText| <= 20 {
      var cut := Min(20, |matchText| + |input|);
      assert |next| == cut;
      assert next == (matchText + input)[..cut];
      assert shown == next;
    } else {
      assert shown == matchText[..20] + "...";
    }
  }

  /** `showPosition` is two lines: the context, then a caret under the first
      character of the current match. */
  lemma ShowPositionShape(matched: string, matchText: string, input: string)
    ensures var r := ShowPosition(matched, matchText, input);
      var pre := PastInput(matched, matchText);
      var k := IndexOf(r, Newline);
      && NewlineCount(r) == 1
      && r[..|pre|] == pre
      && k < |r| && r[k + 1..] == Repeat('-', |pre|) + "^"
  {
    var pre := PastInput(matched, matchText);
    var up := UpcomingInput(matchText, input);
    assert Newline !in pre by { PastInputShape(matched, matchText); }
    assert Newline !in up by { UpcomingInputShape(matchText, input); }
    var dashes := Repeat('-', |pre|) + "^";
    assert Newline !in dashes by { RepeatChars('-', |pre|); }
    assert Newline !in pre + up;
    TwoLines(pre + up, dashes);
    assert ShowPosition(matched, matchText, input) == pre + up + "\n" + dashes;
  }

  /** Two lines without line feeds, joined by one. */
  lemma TwoLines(a: string, b: string)
    requires Newline !in a && Newline !in b
    ensures var r := a + "\n" + b;
      NewlineCount(r) == 1 && IndexOf(r, Newline) == |a| && r[|a| + 1..] == b
  {
    CountCharAppend(a, "\n", Newline);
    CountCharAppend(a + "\n", b, Newline);
    IndexOfAfter(a, "\n" + b);
    assert a + "\n" + b == a + ("\n" + b);
  }

  lemma {:induction false} RepeatChars(c: char, n: nat)
    ensures forall x :: 0 <= x < n ==> Repeat(c, n)[x] == c
  {
    if n > 0 {
      RepeatChars(c, n - 1);
    }
  }

  lemma {:induction false} IndexOfAfter(a: string, b: string)
    requires Newline !in a && b != [] && b[0] == Newline
    ensures IndexOf(a + b, Newline) == |a|
  {
    if a != [] {
      assert (a + b)[1..] == a[1..] + b;
      IndexOfAfter(a[1..], b);
    }
  }
}
