/** The lexer of src/jsonLintParser.ts: fourteen regular-expression rules
    tried in order, the first that matches at the head of the remaining input
    wins, and the rule's action turns the matched text into a token id. Each
    rule is written out here as a recogniser that returns the length of the
    text the regular expression matches. */
module JsonLexer {
  import opened StringOps

  // Token ids of the grammar (`symbols_`).
  const STRING: int := 4
  const NUMBER: int := 6
  const NULL: int := 8
  const TRUE: int := 10
  const FALSE: int := 11
  const EOF_TOKEN: int := 14
  const LBRACE: int := 17
  const RBRACE: int := 18
  const COLON: int := 21
  const COMMA: int := 22
  const LBRACKET: int := 23
  const RBRACKET: int := 24
  /** `lexer.EOF`, returned once the end of the input has been reported. */
  const END: int := 1
  const RuleCount: nat := 14

  /** A token: a grammar id, or the string `"INVALID"` of the catch-all rule,
      which has no id. */
  datatype Token = Tok(id: int) | Invalid

  // ---------------------------------------------------------------------
  // Character classes of JavaScript regular expressions.

  predicate IsDigit(c: char)
  {
    '0' <= c <= '9'
  }

  /** `\w`. */
  predicate IsWordChar(c: char)
  {
    'a' <= c <= 'z' || 'A' <= c <= 'Z' || IsDigit(c) || c == '_'
  }

  /** `\s`: the white space and line terminator characters of ECMAScript. */
  predicate IsJsSpace(c: char)
  {
    || c == Tab || c == Newline || c == VerticalTab || c == FormFeed || c == CarriageReturn
    || c == ' ' || c == '\U{A0}' || c == '\U{1680}' || '\U{2000}' <= c <= '\U{200A}'
    || c == '\U{2028}' || c == '\U{2029}' || c == '\U{202F}' || c == '\U{205F}'
    || c == '\U{3000}' || c == '\U{FEFF}'
  }

  /** The characters `.` does not match. */
  predicate IsLineTerminator(c: char)
  {
    c == Newline || c == CarriageReturn || c == '\U{2028}' || c == '\U{2029}'
  }

  predicate IsHexDigit(c: char)
  {
    IsDigit(c) || 'a' <= c <= 'f' || 'A' <= c <= 'F'
  }

  /** A character the STRING rule takes as it is: not a backslash, not a
      quotation mark, not a control character below U+0020. */
  predicate IsPlain(c: char)
  {
    c >= ' ' && c != '\\' && c != '"'
  }

  /** The one-character escapes the STRING rule allows after a backslash. */
  predicate IsSimpleEscape(c: char)
  {
    c == '\\' || c == '"' || c == 'b' || c == 'f' || c == 'n' || c == 'r' || c == 't' || c == '/'
  }

  /** `\b` at position `n` of `s`: a word character on exactly one side. */
  predicate WordBoundary(s: string, n: nat)
    requires n <= |s|
  {
    (n > 0 && IsWordChar(s[n - 1])) != (n < |s| && IsWordChar(s[n]))
  }

  // ---------------------------------------------------------------------
  // Scanners.

  /** Number of consecutive decimal digits in `s` from position `i` on. */
  function DigitRun(s: string, i: nat): (n: nat)
    requires i <= |s|
    ensures i + n <= |s|
    decreases |s| - i
  {
    if i < |s| && IsDigit(s[i]) then 1 + DigitRun(s, i + 1) else 0
  }

  /** Number of consecutive `\s` characters in `s` from position `i` on. */
  function SpaceRun(s: string, i: nat): (n: nat)
    requires i <= |s|
    ensures i + n <= |s|
    decreases |s| - i
  {
    if i < |s| && IsJsSpace(s[i]) then 1 + SpaceRun(s, i + 1) else 0
  }

  /** Where the items of a string literal that start at `i` end: the greedy
      `(?:\\[\\"bfnrt/]|\\u[a-fA-F0-9]{4}|[^\\\0-\x09\x0a-\x1f"])*`. */
  function ScanItems(s: string, i: nat): (e: nat)
    requires i <= |s|
    ensures i <= e <= |s|
    decreases |s| - i
  {
    if i == |s| then i
    else if s[i] == '\\' then
      if i + 1 < |s| && IsSimpleEscape(s[i + 1]) then ScanItems(s, i + 2)
      else if i + 5 < |s| && s[i + 1] == 'u' && IsHexDigit(s[i + 2]) && IsHexDigit(s[i + 3])
              && IsHexDigit(s[i + 4]) && IsHexDigit(s[i + 5]) then ScanItems(s, i + 6)
      else i
    else if IsPlain(s[i]) then ScanItems(s, i + 1)
    else i
  }

  /** The exponent `[eE][-+]?[0-9]+` starting at `i`, if there is one. */
  function ExponentEnd(s: string, i: nat): (r: Option<nat>)
    requires i <= |s|
    ensures r.Some? ==> i + 2 <= r.value <= |s|
  {
    if i < |s| && (s[i] == 'e' || s[i] == 'E') then
      var j := if i + 1 < |s| && (s[i + 1] == '+' || s[i + 1] == '-') then i + 2 else i + 1;
      var k := DigitRun(s, j);
      if k > 0 then Some(j + k) else None
    else None
  }

  // ---------------------------------------------------------------------
  // The rules.

  /** Rule 0, `^(?:\s+)`. */
  function WhitespaceMatch(s: string): Option<nat>
  {
    var n := SpaceRun(s, 0);
    if n > 0 then Some(n) else None
  }

  /** Rule 1, `^(?:(-?([0-9]|[1-9][0-9]+))(\.[0-9]+)?([eE][-+]?[0-9]+)?\b)`.
      The integer part is the whole run of digits after the sign (one digit
      followed by a digit meets neither a fraction, an exponent nor a word
      boundary, and a shorter run of the second alternative ends before a
      digit too), so a run that starts with `0` and has more digits fails.
      The engine then tries the fraction before no fraction and the exponent
      before no exponent, and keeps the first candidate followed by a word
      boundary. */
  function NumberMatch(s: string): Option<nat>
  {
    var a := if |s| > 0 && s[0] == '-' then 1 else 0;
    var d := DigitRun(s, a);
    if d == 0 || (d > 1 && s[a] == '0') then None
    else
      var p := a + d;
      var withFraction :=
        if p < |s| && s[p] == '.' && DigitRun(s, p + 1) > 0 then
          ExponentThenBoundary(s, p + 1 + DigitRun(s, p + 1))
        else None;
      if withFraction.Some? then withFraction else ExponentThenBoundary(s, p)
  }

  /** The end of `([eE][-+]?[0-9]+)?\b` from `i` on: the exponent if one
      follows and a word boundary follows it, else `i` itself if a word
      boundary is there. */
  function ExponentThenBoundary(s: string, i: nat): (r: Option<nat>)
    requires i <= |s|
    ensures r.Some? ==> i <= r.value <= |s|
  {
    var e := ExponentEnd(s, i);
    if e.Some? && WordBoundary(s, e.value) then e
    else if WordBoundary(s, i) then Some(i)
    else None
  }

  /** Rule 2: a quotation mark, the items, and the closing quotation mark. */
  function StringMatch(s: string): Option<nat>
  {
    if |s| > 0 && s[0] == '"' then
      var e := ScanItems(s, 1);
      if e < |s| && s[e] == '"' then Some(e + 1) else None
    else None
  }

  /** A rule that is a fixed text. */
  function LiteralMatch(s: string, lit: string): Option<nat>
  {
    if |lit| <= |s| && s[..|lit|] == lit then Some(|lit|) else None
  }

  /** `true\b`, `false\b`, `null\b`. */
  function KeywordMatch(s: string, kw: string): Option<nat>
  {
    if |kw| <= |s| && s[..|kw|] == kw && WordBoundary(s, |kw|) then Some(|kw|) else None
  }

  /** Rule 12, `^(?:$)`: only the empty input. */
  function EndMatch(s: string): Option<nat>
  {
    if s == "" then Some(0) else None
  }

  /** Rule 13, `^(?:.)`: any one character but a line terminator. */
  function AnyMatch(s: string): Option<nat>
  {
    if |s| > 0 && !IsLineTerminator(s[0]) then Some(1) else None
  }

  /** Length of the text rule `r` matches at the head of `s`. */
  function RuleMatch(s: string, r: nat): (m: Option<nat>)
    requires r < RuleCount
    ensures m.Some? ==> m.value <= |s|
    ensures m.Some? && r != 12 ==> m.value >= 1
    ensures m.Some? && r == 2 ==> m.value >= 2
  {
    match r
    case 0 => WhitespaceMatch(s)
    case 1 => NumberMatchBounds(s); NumberMatch(s)
    case 2 => StringMatch(s)
    case 3 => LiteralMatch(s, "{")
    case 4 => LiteralMatch(s, "}")
    case 5 => LiteralMatch(s, "[")
    case 6 => LiteralMatch(s, "]")
    case 7 => LiteralMatch(s, ",")
    case 8 => LiteralMatch(s, ":")
    case 9 => KeywordMatch(s, "true")
    case 10 => KeywordMatch(s, "false")
    case 11 => KeywordMatch(s, "null")
    case 12 => EndMatch(s)
    case 13 => AnyMatch(s)
  }

  lemma NumberMatchBounds(s: string)
    ensures NumberMatch(s).Some? ==> 1 <= NumberMatch(s).value <= |s|
  {
  }

  /** The first rule from `r` on that matches, with the length it matches
      (`options.flex` is unset, so the first match wins). */
  function FirstRule(s: string, r: nat): (m: Option<(nat, nat)>)
    requires r <= RuleCount
    ensures m.Some? ==> r <= m.value.0 < RuleCount && RuleMatch(s, m.value.0) == Some(m.value.1)
    decreases RuleCount - r
  {
    if r == RuleCount then None
    else if RuleMatch(s, r).Some? then Some((r, RuleMatch(s, r).value))
    else FirstRule(s, r + 1)
  }

  /** The token a rule's action returns; `None` for the white space rule,
      whose action returns nothing. */
  function RuleToken(r: nat): Option<Token>
    requires r < RuleCount
  {
    match r
    case 0 => None
    case 1 => Some(Tok(NUMBER))
    case 2 => Some(Tok(STRING))
    case 3 => Some(Tok(LBRACE))
    case 4 => Some(Tok(RBRACE))
    case 5 => Some(Tok(LBRACKET))
    case 6 => Some(Tok(RBRACKET))
    case 7 => Some(Tok(COMMA))
    case 8 => Some(Tok(COLON))
    case 9 => Some(Tok(TRUE))
    case 10 => Some(Tok(FALSE))
    case 11 => Some(Tok(NULL))
    case 12 => Some(Tok(EOF_TOKEN))
    case 13 => Some(Invalid)
  }

  // ---------------------------------------------------------------------
  // The position display of error messages.

  /** `n` copies of `c` (`new Array(n + 1).join(c)`). */
  function Repeat(c: char, n: nat): (r: string)
    ensures |r| == n
  {
    if n == 0 then "" else Repeat(c, n - 1) + [c]
  }

  /** `s.replace(/\n/g, "")`. */
  function DropNewlines(s: string): string
  {
    ReplaceAll(s, Newline, "")
  }

  /** `pastInput`: the consumed text before the current match, at most its
      last 20 characters, with `...` in front when there is more. */
  function PastInput(matched: string, matchText: string): string
  {
    var past := if |matched| >= |matchText| then matched[..|matched| - |matchText|] else "";
    (if |past| > 20 then "..." else "") + DropNewlines(past[|past| - Min(20, |past|)..])
  }

  /** `upcomingInput`: the current match topped up with the rest of the input
      to 20 characters, cut to 20 with `...` after it when the match alone is
      longer. */
  function UpcomingInput(matchText: string, input: string): string
  {
    var next := if |matchText| < 20 then matchText + input[..Min(|input|, 20 - |matchText|)] else matchText;
    DropNewlines(next[..Min(20, |next|)] + (if |next| > 20 then "..." else ""))
  }

  /** `showPosition`: the two lines above, and a caret under the first
      character of the current match. */
  function ShowPosition(matched: string, matchText: string, input: string): string
  {
    var pre := PastInput(matched, matchText);
    pre + UpcomingInput(matchText, input) + "\n" + Repeat('-', |pre|) + "^"
  }

  function Min(a: nat, b: nat): nat
  {
    if a < b then a else b
  }

  // ---------------------------------------------------------------------
  // The lexer's state and one call of `next`.

  /** The fields `next` reads and writes: `_input`, `yytext`, `match` (here `matchText`),
      `matched`, `yylineno` and `done`. */
  datatype LexState = LexState(input: string, yytext: string, matchText: string, matched: string,
                               line: nat, done: bool)

  /** What one call of `next` gives: a token, nothing (white space), or the
      lexical error it throws. */
  datatype Lexed = Token(token: Token) | Skip | LexError(msg: string)

  /** The state `setInput` leaves. */
  function Initial(input: string): LexState
  {
    LexState(input, "", "", "", 0, false)
  }

  /** `done` is set only once the input is used up. */
  predicate ValidState(st: LexState)
  {
    st.done ==> st.input == ""
  }

  /** What is left to read: the input, and the end-of-input token while it has
      not been returned. */
  function Remaining(st: LexState): nat
  {
    |st.input| + if st.done then 0 else 1
  }

  function LexicalErrorMsg(st: LexState): string
  {
    "Lexical error on line " + NatToString(st.line + 1) + ". Unrecognized text.\n"
      + ShowPosition(st.matched, st.matchText, st.input)
  }

  /** One call of `next`. */
  function NextSpec(st: LexState): (r: (LexState, Lexed))
    requires ValidState(st)
  {
    if st.done then (st, Token(Tok(END)))
    else
      var st0 := st.(yytext := "", matchText := "", done := st.input == "");
      match FirstRule(st.input, 0)
      case Some((rule, n)) => Consume(st0, rule, n)
      case None => (st0, if st.input == "" then Token(Tok(END)) else LexError(LexicalErrorMsg(st0)))
  }

  /** The part of `next` after rule `rule` matched `n` characters: the text
      moves from the input to `match` and `matched`, the line counter
      advances over its line feeds, and the rule's action runs (the STRING
      action drops the quotation marks from `yytext`). */
  function Consume(st: LexState, rule: nat, n: nat): (LexState, Lexed)
    requires rule < RuleCount && n <= |st.input| && (rule == 2 ==> n >= 2)
  {
    (Consumed(st, rule, n), RuleResult(rule))
  }

  function Consumed(st: LexState, rule: nat, n: nat): LexState
    requires n <= |st.input| && (rule == 2 ==> n >= 2)
  {
    var text := st.input[..n];
    var rest := st.input[n..];
    var yytext := if rule == 2 then text[1..n - 1] else text;
    LexState(rest, yytext, text, st.matched + text, st.line + NewlineCount(text),
             if st.done && rest != "" then false else st.done)
  }

  /** What `next` returns for rule `rule`: its token, or nothing. */
  function RuleResult(rule: nat): Lexed
    requires rule < RuleCount
  {
    if RuleToken(rule).Some? then Token(RuleToken(rule).value) else Skip
  }

  /** `lex`: `next` until it gives something other than white space. */
  function LexSpec(st: LexState): (r: (LexState, Lexed))
    requires ValidState(st)
    decreases |st.input|
  {
    var (st', x) := NextSpec(st);
    NextProgress(st);
    if x.Skip? then LexSpec(st') else (st', x)
  }

  /** `next` keeps the state valid, and unless the end has already been
      reported or it throws, it consumes something. */
  lemma NextProgress(st: LexState)
    requires ValidState(st)
    ensures var (st', x) := NextSpec(st);
      && ValidState(st')
      && (x.Skip? ==> |st'.input| < |st.input| && !st'.done)
      && (!st.done && !x.LexError? ==> Remaining(st') < Remaining(st))
      && (st.done ==> x == Token(Tok(END)) && st' == st)
  {
  }

  /** The lexer object, a singleton every parse reuses. */
  class Lexer {
    var input: string
    var yytext: string
    var matchText: string
    var matched: string
    var line: nat
    var done: bool

    function State(): LexState
      reads this
    {
      LexState(input, yytext, matchText, matched, line, done)
    }

    constructor ()
      ensures State() == Initial("")
    {
      input, yytext, matchText, matched, line, done := "", "", "", "", 0, false;
    }

    /** `setInput`. */
    method SetInput(s: string)
      modifies this
      ensures State() == Initial(s)
    {
      input := s;
      done := false;
      line := 0;
      yytext, matched, matchText := "", "", "";
    }

    /** `next`: the rules are tried in order and the first that matches is
        taken. */
    method Next() returns (r: Lexed)
      requires ValidState(State())
      modifies this
      ensures (State(), r) == NextSpec(old(State()))
    {
      if done {
        return Token(Tok(END));
      }
      if input == "" {
        done := true;
      }
      yytext := "";
      matchText := "";
      var found := FirstMatchingRule();
      if found.Some? {
        r := Take(found.value.0, found.value.1);
        return;
      }
      if input == "" {
        return Token(Tok(END));
      }
      return LexError(LexicalErrorMsg(State()));
    }

    /** The loop over the rules: the first that matches wins. */
    method FirstMatchingRule() returns (found: Option<(nat, nat)>)
      ensures found == FirstRule(input, 0)
    {
      found := None;
      var i := 0;
      while i < RuleCount
        invariant 0 <= i <= RuleCount
        invariant found.None? ==> FirstRule(input, 0) == FirstRule(input, i)
        invariant found.Some? ==> found == FirstRule(input, 0)
        decreases RuleCount - i
      {
        var m := RuleMatch(input, i);
        if m.Some? {
          found := Some((i, m.value));
          break;
        }
        i := i + 1;
      }
    }

    /** The matched branch of `next`. */
    method Take(rule: nat, n: nat) returns (r: Lexed)
      requires rule < RuleCount && n <= |input| && (rule == 2 ==> n >= 2)
      requires ValidState(State()) && yytext == "" && matchText == ""
      modifies this
      ensures State() == Consumed(old(State()), rule, n) && r == RuleResult(rule)
    {
      ghost var after := Consumed(State(), rule, n);
      var text := input[..n];
      var newText := yytext + text;
      var newMatch := matchText + text;
      assert newText == text && newMatch == text && |text| == n;
      if rule == 2 {
        newText := newText[1..|newText| - 1];
      }
      if done && input[n..] != "" {
        // The source clears `done` here; `done` was only just set because
        // the input was empty, so nothing can be left of it.
        assert false;
      }
      assert input[n..] == after.input && newText == after.yytext && newMatch == after.matchText;
      input, yytext, matchText, matched, line := input[n..], newText, newMatch, matched + text, line + NewlineCount(text);
      var t := RuleToken(rule);
      if t.Some? {
        r := Token(t.value);
      } else {
        r := Skip;
      }
    }

    /** `lex`. */
    method Lex() returns (r: Lexed)
      requires ValidState(State())
      modifies this
      ensures ValidState(State())
      ensures (State(), r) == LexSpec(old(State()))
    {
      ghost var start := State();
      r := Next();
      NextProgress(old(State()));
      while r.Skip?
        invariant ValidState(State())
        invariant LexSpec(start) == if r.Skip? then LexSpec(State()) else (State(), r)
        decreases |input|, if r.Skip? then 1 else 0
      {
        ghost var before := State();
        r := Next();
        NextProgress(before);
      }
    }
  }
}
