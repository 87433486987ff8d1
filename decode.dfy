/** The decoding of a STRING token's text by the parser's first semantic
    action (src/jsonLintParser.ts:305-314): as written, a chain of global
    replacements, and as evidently intended, one pass over the escapes. */
module StringDecode {
  import opened StringOps

  /** `.replace(/\\(\\|")/g, "$1")`: each `\\` and `\"`, left to right and
      without overlap, becomes the character after the backslash. */
  function UnescapeQuoteAndBackslash(s: string): (r: string)
    ensures |r| <= |s|
  {
    if |s| >= 2 && s[0] == '\\' && (s[1] == '\\' || s[1] == '"') then [s[1]] + UnescapeQuoteAndBackslash(s[2..])
    else if s == [] then []
    else [s[0]] + UnescapeQuoteAndBackslash(s[1..])
  }

  /** `.replace(/\\c/g, rep)`: each backslash followed by `c`, left to right
      and without overlap, becomes `rep`. */
  function ReplaceEscape(s: string, c: char, rep: char): (r: string)
    ensures |r| <= |s|
  {
    if |s| >= 2 && s[0] == '\\' && s[1] == c then [rep] + ReplaceEscape(s[2..], c, rep)
    else if s == [] then []
    else [s[0]] + ReplaceEscape(s[1..], c, rep)
  }

  /** The decoding as written: the chain of replacements, each over the
      previous one's result. */
  function DecodeAsWritten(s: string): string
  {
    var s1 := UnescapeQuoteAndBackslash(s);
    var s2 := ReplaceEscape(s1, 'n', Newline);
    var s3 := ReplaceEscape(s2, 'r', CarriageReturn);
    var s4 := ReplaceEscape(s3, 't', Tab);
    var s5 := ReplaceEscape(s4, 'v', VerticalTab);
    var s6 := ReplaceEscape(s5, 'f', FormFeed);
    ReplaceEscape(s6, 'b', Backspace)
  }

  /** The character an escape `\c` stands for, for the escapes the action
      handles; `\/` and `\u` are not among them. */
  function EscapedChar(c: char): Option<char>
  {
    if c == '\\' || c == '"' then Some(c)
    else if c == 'n' then Some(Newline)
    else if c == 'r' then Some(CarriageReturn)
    else if c == 't' then Some(Tab)
    else if c == 'v' then Some(VerticalTab)
    else if c == 'f' then Some(FormFeed)
    else if c == 'b' then Some(Backspace)
    else None
  }

  /** The decoding as intended: every escape the action handles is replaced
      once, in a single left-to-right pass; anything else is kept. */
  function Decode(s: string): (r: string)
    ensures |r| <= |s|
  {
    if |s| >= 2 && s[0] == '\\' && EscapedChar(s[1]).Some? then [EscapedChar(s[1]).value] + Decode(s[2..])
    else if s == [] then []
    else [s[0]] + Decode(s[1..])
  }

  /** The escape JSON writes for a character, for the characters `Decode`
      knows; every other character stands for itself. */
  function EscapeChar(c: char): string
  {
    if c == '\\' then "\\\\"
    else if c == '"' then "\\\""
    else if c == Newline then "\\n"
    else if c == CarriageReturn then "\\r"
    else if c == Tab then "\\t"
    else if c == FormFeed then "\\f"
    else if c == Backspace then "\\b"
    else [c]
  }

  /** A string written as the body of a JSON string literal. */
  function Escape(s: string): string
  {
    if s == [] then [] else EscapeChar(s[0]) + Escape(s[1..])
  }

  /** Decoding one escaped character and then the rest. */
  lemma DecodeStep(c: char, rest: string)
    ensures Decode(EscapeChar(c) + rest) == [c] + Decode(rest)
  {
    var e := EscapeChar(c);
    if |e| == 2 {
      assert (e + rest)[2..] == rest;
    } else {
      assert (e + rest)[1..] == rest;
    }
  }

  /** The intended decoding undoes escaping: a string written into a JSON
      literal reads back as itself. */
  lemma {:induction false} DecodeEscape(s: string)
    ensures Decode(Escape(s)) == s
  {
    if s != [] {
      DecodeStep(s[0], Escape(s[1..]));
      DecodeEscape(s[1..]);
    }
  }

  /** As written, an escaped backslash followed by `n` (the two characters
      backslash and `n`) decodes to a line feed: the first replacement turns
      `\\` into `\`, and the second then takes that `\` with the `n`. */
  lemma AsWrittenDecodesTwice()
    ensures var s := ['\\', 'n'];
      && Escape(s) == ['\\', '\\', 'n']
      && DecodeAsWritten(Escape(s)) == [Newline]
      && Decode(Escape(s)) == s
  {
    var s := ['\\', 'n'];
    assert Escape(s) == ['\\', '\\', 'n'];
    var e := ['\\', '\\', 'n'];
    assert UnescapeQuoteAndBackslash(e) == ['\\', 'n'] by {
      assert e[2..] == ['n'];
    }
    assert ReplaceEscape(['\\', 'n'], 'n', Newline) == [Newline];
    DecodeEscape(s);
  }
}
