# json-diff core in Dafny

json-diff compares two JSON documents. First it checks that both texts
parse, using a parser generated by jison. Then it prints each document in a
canonical layout: four-space indentation and object keys sorted. While
printing, it records in a path table the line on which every node starts.
Finally it walks the two value trees side by side and reports each
difference as a `missing`, `type` or `eq` diff. A diff gives the line of the
node on each side, and the list is ordered by the left-hand line.

This project models the two files that hold that logic:

- `src/calculateDiffs.ts`:
  - the printer (`formatAndDecorate`, `formatVal` and their helpers);
  - the path table;
  - the differ (`generateDiff`, `diffVal`, `diffArray`, `findDiffs`,
    `diffBool`);
  - the entry point `calculateDiffs`.
- `src/jsonLintParser.ts`:
  - the lexer (`setInput`, `next`, `lex`, its rules and actions, and the
    position display);
  - the table-driven shift/reduce parser (`parse`, `performAction`, the
    tables).

Modules, one per file:

- `StringOps` (strings.dfy): the JavaScript string built-ins the source
  relies on. `replace` with a string pattern touches the first match only;
  with a `g` regular expression it touches every match.
- `Json` (json.dfy): the value tree that `JSON.parse` produces.
- `Printer` (printer.dfy): the `Config` record as a class, with the path
  table and the segment stack as heap objects.
  - Both configs of one comparison share these two objects, because
    `{ ...DEFAULT_CONFIG }` copies only the references.
  - Every printer function is a method that appends to `out`, moves `line`
    and `indent`, and pushes rows.
  - Each method is proved against a function (`ValSpec`, `DecorateSpec`, …)
    that gives the text, the rows and the final line.
- `PrinterProperties` (printer_properties.dfy):
  - the line counter always equals the number of line breaks written;
  - the rows name strictly increasing lines, within the text that produced
    them;
  - the exact behaviour of `unescapeString`.
- `Differ` (differ.dfy): the differ as methods over a shared diff list.
  - A lookup miss in `generateDiff` is an exception; the model carries it as
    a `thrown` result that stops the walk.
  - Each method is proved against a function (`DiffValSpec`, …).
- `DifferProperties` (differ_properties.dfy):
  - no diff exactly when the trees are equal;
  - the counts and messages of `missing` diffs;
  - the single diff of a kind or value mismatch;
  - first-match lookup;
  - where each diff's rows come from.
- `JsonLexer` (lexer.dfy): each regular expression written as a recogniser,
  and the lexer object as a class whose methods follow `next` and `lex`.
- `LexerProperties` (lexer_properties.dfy):
  - NUMBER and STRING accept exactly the grammars of sections 6 and 7 of
    RFC 8259, with the longest match;
  - rule order, the end of input and line counting;
  - the shape of the position display.
- `ParserTables` (parser_tables.dfy): the symbols, productions, action and
  goto table, default actions, and checked facts about every row.
- `StringDecode` (decode.dfy): the decoding of STRING token text by the
  first semantic action.
- `JsonParser` (parser.dfy): the parse loop as a step function.
  - It is proved to preserve the stack invariant and to terminate.
  - Its error messages are derived from the tables.
  - `Parse` is the imperative loop, proved to equal the step function's run.
  - `getInputError` is built on top of it.
- `Calculator` (calculator.dfy): `calculateDiffs`.
  - Validation, printing of both sides with the shared table, and the walk.
  - The stable sort by left line.
  - The consequences of the shared path table (see Findings).

The results of the two `JSON.parse` calls are parameters of
`Calculator.CalculateDiffs`: a value tree, or none where `JSON.parse`
throws. The parser's own semantic
values are not used downstream, just as in the source.

## Model

| member | source | states |
|---|---|---|
| StringOps.ReplaceFirstSpec | src/calculateDiffs.ts:130 | a string-pattern `replace` changes only the first occurrence of the character, and returns the text unchanged when there is none |
| StringOps.ReplaceAllLength | src/calculateDiffs.ts:131-136 | a global `replace` turns every occurrence into the replacement, so the length grows by (occurrences × (replacement length − 1)) |
| StringOps.ReplaceAll | src/calculateDiffs.ts:131-136 | a global `replace` leaves no occurrence when the replacement has none, and changes nothing when there is no occurrence |
| StringOps.NatToStringDigits | src/calculateDiffs.ts:150 | the decimal text of an array index is non-empty, all digits, and has no leading zero |
| StringOps.NatToStringInjective | src/calculateDiffs.ts:150 | different array indices give different decimal texts, so no two elements of an array share a path |
| StringOps.CodePointLessTotal | src/calculateDiffs.ts:229-231 | the key order is total on distinct keys |
| StringOps.CodePointLessTrans | src/calculateDiffs.ts:229-231 | the key order is transitive |
| StringOps.CodePointLessIrreflexive | src/calculateDiffs.ts:229-231 | the key order is irreflexive |
| Json.KeyIndex | src/calculateDiffs.ts:441 | the position of the first member with the key, and the member count exactly when the key is absent (`hasOwnProperty` false) |
| Printer.PathTable.Push | src/calculateDiffs.ts:77-80 | the table gains exactly the one row at its end |
| Printer.SegmentStack.Push | src/calculateDiffs.ts:154 | the stack gains exactly the one segment on top |
| Printer.SegmentStack.Pop | src/calculateDiffs.ts:156 | the top segment is removed, and an empty stack stays empty |
| Printer.Config.FromDefault | src/calculateDiffs.ts:33-39 | a copy starts with empty output, indent −1 and line 1, and holds the same table and stack objects as every other copy |
| Printer.GetTabs | src/calculateDiffs.ts:104-111 | exactly 4·n characters for n > 0, and none for n ≤ 0 |
| Printer.GetTabsSpaces | src/calculateDiffs.ts:104-111 | every one of those characters is a space |
| Printer.GeneratePath | src/calculateDiffs.ts:51-66 | `/` for an empty stack and no property; otherwise the concatenated segments, followed by `/` and the property with its first `/` turned into `#` |
| StringOps.ConcatSnoc | src/calculateDiffs.ts:52-55 | pushing a segment onto the stack appends it to the path |
| Printer.KeyPathAgrees | src/calculateDiffs.ts:482-484 | the path the differ looks up for a right-only key equals the row path the printer recorded for that member (:275-279) when the key is non-empty; for the empty key the two agree only at the root |
| Printer.DropTrailingCommaAppend | src/calculateDiffs.ts:118-125 | removing a trailing comma only touches the last part of the text |
| Printer.CharProperties | src/calculateDiffs.ts:219-227 | a string's own properties are its character indices, each holding its one-character string |
| Printer.InsertPermutes | src/calculateDiffs.ts:229-231 | insertion adds exactly the one key |
| Printer.InsertSorted | src/calculateDiffs.ts:229-231 | insertion keeps the keys sorted |
| Printer.SortStringsSortsAndPermutes | src/calculateDiffs.ts:229-231 | the sort returns the same keys, in order |
| Printer.GetSortedPropertiesSortsAndPermutes | src/calculateDiffs.ts:219-234 | the sorted properties are exactly the own properties, in order |
| Printer.SortedPropertiesPresent | src/calculateDiffs.ts:261-280 | every sorted key is found in the object when its value is read |
| Printer.NewLine | src/calculateDiffs.ts:113-116 | returns one line feed and advances `line` by one |
| Printer.RemoveTrailingComma | src/calculateDiffs.ts:118-125 | removes exactly one final comma if there is one, and otherwise leaves `out` unchanged |
| Printer.StartArray | src/calculateDiffs.ts:68-86 | appends `[`, raises the indent (twice from −1), and pushes the root row only while the table is empty |
| Printer.FinishArray | src/calculateDiffs.ts:88-102 | drops a trailing comma, closes with `]`, then a comma (nested) or a line feed (root), and counts the lines |
| Printer.StartObject | src/calculateDiffs.ts:199-217 | the same for `{` |
| Printer.FinishObject | src/calculateDiffs.ts:236-250 | the same for `}` |
| Printer.FormatVal | src/calculateDiffs.ts:142-173 | the text, rows and final line are those of `ValSpec`; the segment stack and the indent are restored |
| Printer.OpenArray | src/calculateDiffs.ts:144-146 | the opening bracket is appended and the indentation goes one level in |
| Printer.CloseNested | src/calculateDiffs.ts:158-161 | after the elements of a nested array, the closing text completes exactly the text and line count of `ArraySpec` |
| Printer.CloseArray | src/calculateDiffs.ts:158-161 | drops the trailing comma of the elements, goes one level out and prints the closing bracket and a comma on a new line |
| Printer.FormatArray | src/calculateDiffs.ts:143-161 | a nested array prints as `ArraySpec`, one row per element |
| Printer.FormatElement | src/calculateDiffs.ts:147-157 | one element: a line feed, indentation, its row on the new line, then the element |
| Printer.FormatElements | src/calculateDiffs.ts:147-157 | the elements in order |
| Printer.FormatAndDecorateArray | src/calculateDiffs.ts:175-197 | an array printed through `startArray`/`finishArray`, with the extra pop at the end |
| Printer.FormatMember | src/calculateDiffs.ts:268-282 | one member: key line, its row under the key's segment, then the value |
| Printer.FormatMembers | src/calculateDiffs.ts:268-282 | the members in sorted key order |
| Printer.FormatObject | src/calculateDiffs.ts:258-286 | an object (or a scalar's own properties) between braces, with `/` pushed and popped around the members |
| Printer.FormatAndDecorate | src/calculateDiffs.ts:252-286 | the whole document as `DecorateSpec`, with the stack popped once more for an array |
| PrinterProperties.UnescapedHasNoNewline | src/calculateDiffs.ts:127-140 | no raw line feed survives `unescapeString` |
| PrinterProperties.UnescapedHasNoRawControls | src/calculateDiffs.ts:134-136 | no raw form feed, carriage return or tab survives it |
| PrinterProperties.UnescapeBackslashOnce | src/calculateDiffs.ts:130 | for any text without other special characters, the first backslash is doubled and every later one stays single |
| PrinterProperties.UnescapeBackspaceOnce | src/calculateDiffs.ts:133 | for any text without other special characters, the first backspace becomes `\b` and every later one stays raw |
| PrinterProperties.UnescapeQuotesAll | src/calculateDiffs.ts:131 | for every input, each double quote in the result is preceded by a backslash |
| PrinterProperties.DropTrailingCommaNewlines | src/calculateDiffs.ts:118-125 | removing the comma changes no line count |
| PrinterProperties.ValTracks | src/calculateDiffs.ts:142-173 | a printed value ends on its start line plus its line breaks, and its rows name strictly increasing lines inside it |
| PrinterProperties.ArrayTracks | src/calculateDiffs.ts:143-161 | the same for a nested array |
| PrinterProperties.ElemsTracks | src/calculateDiffs.ts:147-157 | the same for a run of elements |
| PrinterProperties.ElemTracks | src/calculateDiffs.ts:147-153 | an element's row names the line just reached after its line feed |
| PrinterProperties.ObjectTracks | src/calculateDiffs.ts:258-286 | the same for an object |
| PrinterProperties.MembersTracks | src/calculateDiffs.ts:268-282 | the same for a run of members |
| PrinterProperties.MemberTracks | src/calculateDiffs.ts:269-279 | a member's row names the line just reached after its line feed |
| PrinterProperties.DocumentTracks | src/calculateDiffs.ts:252-286 | printed from an empty table, a document's first row is `/` on line 1, and the rest track the lines |
| PrinterProperties.RootArrayTracks | src/calculateDiffs.ts:175-197 | the same for an array root |
| PrinterProperties.RootObjectTracks | src/calculateDiffs.ts:258-286 | the same for an object root |
| PrinterProperties.OwnPropertiesWellFormed | src/calculateDiffs.ts:219-227 | the values reached through own properties are well formed |
| PrinterProperties.ValRowCount | src/calculateDiffs.ts:142-173 | a nested value pushes exactly one row per node below it (its descendants), and none for itself |
| PrinterProperties.ElemRowCount | src/calculateDiffs.ts:147-156 | an element pushes one row for itself plus one per descendant |
| PrinterProperties.ElemsRowCount | src/calculateDiffs.ts:147-157 | a run of elements pushes one row per element and per descendant of each |
| PrinterProperties.ObjectRowCount | src/calculateDiffs.ts:258-286 | an object with distinct keys pushes one row per member and per descendant of each, plus the root row when the table was empty, though the members are visited in sorted order |
| PrinterProperties.MembersRowCount | src/calculateDiffs.ts:268-282 | the members named by a run of sorted keys push the rows of exactly those members |
| PrinterProperties.MemberRowCount | src/calculateDiffs.ts:269-281 | a member pushes one row for itself plus one per descendant |
| PrinterProperties.NamedRowsPermutation | src/calculateDiffs.ts:229-231 | sorting the keys does not change how many rows their members push |
| PrinterProperties.KeysRows | src/calculateDiffs.ts:219-227 | the own keys of an object name each member exactly once |
| PrinterProperties.DocumentRows | src/calculateDiffs.ts:252-286 | a document printed from an empty table has one row per node: the root row plus one per descendant, and for a string root one per character |
| PrinterProperties.CharPropertiesRows | src/calculateDiffs.ts:219-227 | a string's own properties are its character indices, distinct, each holding a one-character string |
| Differ.FindPath | src/calculateDiffs.ts:303-308 | the index of a row with the path, or the table length when there is none |
| Differ.FindPathFirst | src/calculateDiffs.ts:303-308 | no earlier row has the path (`find` returns the first match) |
| Differ.DiffList.Push | src/calculateDiffs.ts:334 | the diff list gains exactly the one diff |
| Differ.Report | src/calculateDiffs.ts:288-324 | pushes the looked-up diff, or reports the exception and pushes nothing |
| Differ.DiffVal | src/calculateDiffs.ts:542-637 | the diffs and the exception are those of `DiffValSpec`; both stacks are restored unless it throws |
| Differ.DiffBool | src/calculateDiffs.ts:497-540 | as `DiffBoolSpec`: a type diff against a non-boolean, and a directional eq diff on unequal booleans |
| Differ.DiffArray | src/calculateDiffs.ts:326-395 | as `DiffArraySpec`; stacks restored |
| Differ.MissingOnLeft | src/calculateDiffs.ts:347-366 | one missing diff for each index the left array lacks, in order |
| Differ.MissingElementOnLeft | src/calculateDiffs.ts:353-364 | the one missing diff for index i |
| Differ.DiffElements | src/calculateDiffs.ts:367-394 | the element loop, as `ElemsDiffSpec`; stacks restored |
| Differ.DiffElement | src/calculateDiffs.ts:368-393 | one element: a missing diff past the right end, else the recursive diff under `/[i]` |
| Differ.FindDiffs | src/calculateDiffs.ts:397-495 | as `FindDiffsSpec`: the left keys, then the keys only on the right; stacks restored |
| Differ.DiffMembersLeft | src/calculateDiffs.ts:436-466 | the loop over the left keys |
| Differ.DiffMemberLeft | src/calculateDiffs.ts:437-465 | one left key: missing on the right, or the recursive diff under the key |
| Differ.DiffMembersRight | src/calculateDiffs.ts:475-494 | the loop over the right keys |
| Differ.DiffMemberRight | src/calculateDiffs.ts:476-493 | one right key: a missing diff when the left lacks it |
| DifferProperties.StripSeparatorCases | src/calculateDiffs.ts:296-302 | one trailing `/` is removed from any path other than `/`, and nothing else changes |
| DifferProperties.GenerateDiffLookup | src/calculateDiffs.ts:288-324 | a diff exactly when both stripped paths have rows; it takes the first matching row on each side; otherwise it throws with the message naming the first missing path |
| DifferProperties.SharedTableShadows | src/calculateDiffs.ts:303-308 | in a table shared by both sides, a lookup of a path the left rows contain returns the left row |
| DifferProperties.SegmentEndsInSeparator | src/calculateDiffs.ts:275 | a key's segment (first separator turned into `#`) is never empty or `/`, and ends in `/` exactly when the key ends in `/` and has another `/` before its end |
| DifferProperties.RowKeepsSegmentEnd | src/calculateDiffs.ts:296-302 | the stripped lookup of a member's row equals the row exactly when the member's segment does not end in `/` |
| DifferProperties.MemberLookupAsWritten | src/calculateDiffs.ts:274-302 | as written, the lookup of a member's path differs from the row the printer pushed exactly when the key ends in `/` after an earlier `/` |
| DifferProperties.FixedMemberLookup | src/calculateDiffs.ts:274-316 | with every separator in a key turned into `#`, the lookup of a non-empty key's path is its row unchanged and is found in any table holding that row |
| DifferProperties.ValSameIff | src/calculateDiffs.ts:542-637 | no diff and no exception exactly when the two values are equal |
| DifferProperties.ArraySameIff | src/calculateDiffs.ts:326-395 | arrays: exactly when the lengths agree and the elements are pairwise equal |
| DifferProperties.ElemsSameIff | src/calculateDiffs.ts:367-394 | the element loop finds nothing exactly when the remaining elements are equal and present |
| DifferProperties.ElemSameIff | src/calculateDiffs.ts:368-393 | one element finds nothing exactly when it is present and equal on the right |
| DifferProperties.ObjectSameIff | src/calculateDiffs.ts:397-495 | objects: exactly when every right key is on the left and every left key is on the right with an equal value |
| DifferProperties.LeftMembersSameIff | src/calculateDiffs.ts:436-466 | the left-key loop finds nothing exactly when each remaining left key has an equal value on the right |
| DifferProperties.LeftMemberSameIff | src/calculateDiffs.ts:437-465 | one left key finds nothing exactly when it has an equal value on the right |
| DifferProperties.RightMembersSameIff | src/calculateDiffs.ts:475-494 | the right-key loop finds nothing exactly when each remaining right key is on the left |
| DifferProperties.LeftMissingNotEmpty | src/calculateDiffs.ts:347-366 | a longer right array always yields a diff |
| DifferProperties.LeftMissingShape | src/calculateDiffs.ts:347-366 | the extra right elements give one missing diff each, with messages naming indices \|a1\| … \|a2\|−1 and the left side |
| DifferProperties.ElemsGap | src/calculateDiffs.ts:367-381 | the extra left elements give one missing diff each, naming the right side |
| DifferProperties.ArrayLengthGap | src/calculateDiffs.ts:326-395 | when the shared elements agree, an array comparison yields exactly \|len1−len2\| missing diffs with those messages |
| DifferProperties.LeftMembersOnly | src/calculateDiffs.ts:436-466 | when shared keys agree, the left-key loop yields one missing diff per key only on the left, in order |
| DifferProperties.RightMembersOnly | src/calculateDiffs.ts:475-494 | the right-key loop yields one missing diff per key only on the right, in order |
| DifferProperties.ObjectKeyDifference | src/calculateDiffs.ts:397-495 | when shared keys agree, an object comparison yields exactly one missing diff per key present on one side only |
| DifferProperties.KindMismatch | src/calculateDiffs.ts:549-636 | a kind mismatch throws `Expected val2 to be an Array` for a left array, and otherwise yields exactly one type diff naming the left kind |
| DifferProperties.ScalarMismatch | src/calculateDiffs.ts:575-622 | unequal scalars of the same kind yield exactly one eq diff with the source's message (directional for booleans) |
| DifferProperties.ValRows | src/calculateDiffs.ts:288-324 | every diff's left row comes from the first table and its right row from the second |
| Calculator.InsertSorted | src/calculateDiffs.ts:691 | inserting by left line keeps the list ordered and adds exactly the one diff |
| Calculator.SortByLineSorts | src/calculateDiffs.ts:691 | the sorted diffs are ordered by left line and are a permutation of the input |
| Calculator.OnLineAppend | src/calculateDiffs.ts:691 | the diffs on one line of a concatenation are those of each part, in order |
| Calculator.InsertOnLine | src/calculateDiffs.ts:691 | insertion keeps the order of the diffs on each line |
| Calculator.SortByLineStable | src/calculateDiffs.ts:691 | the sort is stable: diffs on the same left line keep their relative order |
| Calculator.GetInputErrorOf | src/calculateDiffs.ts:41-49 | runs the parser and returns no message on success, or the message it threw |
| Calculator.CalculateDiffs | src/calculateDiffs.ts:653-693 | invalid input: `Invalid` with both messages, table and segment stack unchanged; a `JSON.parse` that throws after the lint check: the throw, table and stack unchanged; otherwise the result, table and stack of printing both sides into the shared table and diffing |
| Calculator.PrintAndDiff | src/calculateDiffs.ts:673-693 | the result, the table and the segment stack left for the next call are those of `ValidSpec`, `TableAfter` and `StackAfter` |
| Calculator.StackAfterPrefix | src/calculateDiffs.ts:676-680 | the shared stack the next call starts from is this call's, shorter by one segment per array document and never below empty |
| Calculator.PrintBoth | src/calculateDiffs.ts:676-680 | both documents printed in turn: each config's text is that document's `DecorateSpec` text, and the shared table and stack end as `TableAfter` and `StackAfter` say |
| Calculator.PrintSide | src/calculateDiffs.ts:676-680 | a fresh config on the shared objects prints the document, appends its rows to the shared table, and pops the stack once more for an array |
| Calculator.DiffBoth | src/calculateDiffs.ts:682-692 | with fresh segment stacks, the walk over the shared table and the sort by left line |
| Calculator.NoDiffsIffSame | src/calculateDiffs.ts:653-693 | a valid result holds no diff exactly when the two documents are equal |
| Calculator.SharedTableMisplacesRight | src/calculateDiffs.ts:676-680 | as written, for `[{}, 1]` against `[0, 2]`, the right side of the second diff is the left document's row for `/[1]` (line 4), though the right document prints `2` on line 3 |
| Calculator.SlashKeyThrows | src/calculateDiffs.ts:274-316 | as written, `{"//": 1}` against `{"//": 2}` records the member row `/#/` on both sides, looks up `/#`, and throws "Unable to find line number" instead of reporting the numbers |
| Calculator.OneMemberTable | src/calculateDiffs.ts:252-286 | two one-member objects with number values leave the left root row, then the left and right member rows, both on line 2 |
| Calculator.WalkThrows | src/calculateDiffs.ts:685-692 | when `diffVal` throws, the call reports that error and returns no result |
| Calculator.SeparateTablesRows | src/calculateDiffs.ts:303-308 | with one table per document, every diff's left row is one of the left document's rows and its right row one of the right document's |
| Calculator.SeparateTablesExample | src/calculateDiffs.ts:303-308 | with one table per document, the same input gives right line 3 |
| JsonLexer.RuleMatch | src/jsonLintParser.ts:207-222 | a rule's match never runs past the input; every rule but `$` consumes something, and a string at least its two quotes |
| JsonLexer.FirstRule | src/jsonLintParser.ts:90-98 | the first rule in list order that matches, with its length |
| JsonLexer.NextProgress | src/jsonLintParser.ts:79-138 | `next` keeps the state valid, consumes input on every match, skips only after consuming, and returns `EOF` unchanged once done |
| JsonLexer.Lexer.SetInput | src/jsonLintParser.ts:19-32 | resets the lexer to the initial state for the text |
| JsonLexer.Lexer.Next | src/jsonLintParser.ts:79-138 | the new state and result are those of `NextSpec` |
| JsonLexer.Lexer.FirstMatchingRule | src/jsonLintParser.ts:90-98 | the rule loop finds `FirstRule` |
| JsonLexer.Lexer.Take | src/jsonLintParser.ts:99-126 | consuming a match updates the text fields and line count and returns the rule's token |
| JsonLexer.Lexer.Lex | src/jsonLintParser.ts:139-146 | `lex` repeats `next` past skipped whitespace, as `LexSpec` |
| LexerProperties.NumberMatchSound | src/jsonLintParser.ts:209 | every NUMBER match is a number of section 6 of RFC 8259 followed by a word boundary |
| LexerProperties.NumberMatchLongest | src/jsonLintParser.ts:209 | and the match is at least as long as any such number at the head of the input |
| LexerProperties.StringMatchExact | src/jsonLintParser.ts:211 | the STRING rule matches exactly the strings of section 7 of RFC 8259 |
| LexerProperties.WhitespaceWider | src/jsonLintParser.ts:208 | the whitespace rule also skips characters that section 2 of RFC 8259 does not allow |
| LexerProperties.KeywordWholeWord | src/jsonLintParser.ts:218 | `true` lexes only as a whole word |
| LexerProperties.FirstRuleFinds | src/jsonLintParser.ts:90-98 | when some rule matches, the first matching one is no later in the list |
| LexerProperties.NoLexicalError | src/jsonLintParser.ts:127-137 | the `Lexical error` branch is never taken, because the catch-all rule matches any character |
| LexerProperties.EndOfInput | src/jsonLintParser.ts:80-83 | at the end of input the lexer first returns token 14 and is done, and then returns `EOF` (1) forever |
| LexerProperties.LexNoError | src/jsonLintParser.ts:127-146 | `lex` never throws the `Lexical error` message, since each `next` it repeats never does |
| LexerProperties.LexProgress | src/jsonLintParser.ts:139-146 | `lex` never returns a skip, and it consumes input until done |
| LexerProperties.InitialTracks | src/jsonLintParser.ts:19-32 | after `setInput`, consumed plus remaining text is the input, and no lines are counted |
| LexerProperties.NextTracks | src/jsonLintParser.ts:99-115 | each match keeps consumed plus remaining equal to the input, with `yylineno` the count of line feeds consumed |
| LexerProperties.LexTracks | src/jsonLintParser.ts:139-146 | so does `lex` |
| LexerProperties.PastInputShape | src/jsonLintParser.ts:55-63 | at most the last 20 consumed characters before the match, prefixed `...` when there are more, with line feeds dropped |
| LexerProperties.UpcomingInputShape | src/jsonLintParser.ts:64-73 | the match and what follows, cut to 20 characters, suffixed `...` when the match alone is longer, with line feeds dropped |
| LexerProperties.ShowPositionShape | src/jsonLintParser.ts:74-78 | the past and upcoming text, a line feed, and as many dashes as the past text is long, then `^` |
| ParserTables.Lookup | src/jsonLintParser.ts:527 | the entry for a symbol when the row has one, and none exactly when no entry has that key |
| ParserTables.RowsOK | src/jsonLintParser.ts:362-458 | every entry of every row is well formed: a shift to a state entered by that terminal, a reduce by a production, accept or a goto to a state entered by that nonterminal |
| ParserTables.ActionFacts | src/jsonLintParser.ts:362-458 | the same for any action looked up |
| ParserTables.RowKeysAscend | src/jsonLintParser.ts:362-458 | each row's keys ascend, so a row holds each symbol once and `for…in` visits them in that order |
| ParserTables.TerminalNamesDistinct | src/jsonLintParser.ts:263-277 | distinct terminals have distinct names |
| ParserTables.ExpectedIff | src/jsonLintParser.ts:535-539 | the error message lists a terminal above `error` exactly when the state's row has an entry for it |
| StringDecode.Decode | src/jsonLintParser.ts:305-313 | the decoded text is never longer than the token text |
| StringDecode.DecodeEscape | src/jsonLintParser.ts:305-313 | decoding undoes JSON escaping: an escaped string reads back as itself |
| StringDecode.AsWrittenDecodesTwice | src/jsonLintParser.ts:306-308 | as written, an escaped backslash followed by `n` decodes to a line feed |
| JsonParser.AssignLookup | src/jsonLintParser.ts:340-345 | assigning a key keeps the key order, appends a new key at the end, makes a lookup of that key give the new value, and leaves other keys alone |
| JsonParser.AssignDistinct | src/jsonLintParser.ts:343-345 | assignment keeps keys distinct, so a duplicate key keeps its last value |
| JsonParser.AddMemberUnique | src/jsonLintParser.ts:339-346 | adding a member keeps every object's keys unique |
| JsonParser.SemanticUnique | src/jsonLintParser.ts:302-361 | every semantic action builds values whose objects have unique keys |
| JsonParser.StartValid | src/jsonLintParser.ts:466-479 | the loop starts with `stack = [0]` and `vstack = [null]`, which meets the stack invariant |
| JsonParser.ShiftValid | src/jsonLintParser.ts:615-635 | a shift adds 2 to `stack` and 1 to `vstack` and keeps the invariant |
| JsonParser.ReduceValid | src/jsonLintParser.ts:637-679 | a reduce removes 2·len and len, then adds 2 and 1, keeps the invariant, and makes the stack lighter |
| JsonParser.GotoFacts | src/jsonLintParser.ts:677 | the goto after a reduce is undefined or a state entered by the reduced nonterminal |
| JsonParser.StepProgress | src/jsonLintParser.ts:517-684 | every loop iteration keeps the invariant and consumes input or makes the stack lighter, so `parse` terminates |
| JsonParser.EndLookahead | src/jsonLintParser.ts:530-566 | at the end of input with no default action, the loop finishes (returns or throws) |
| JsonParser.DefaultStep | src/jsonLintParser.ts:522-523 | a state with a default action reduces by production 6 without reading a token |
| JsonParser.LexedStep | src/jsonLintParser.ts:525 | with no lookahead, the loop reads a token through `lex` |
| JsonParser.LookaheadThrows | src/jsonLintParser.ts:530-566 | what a lookahead without an action throws is the `Parse error on line …` message |
| JsonParser.StepThrows | src/jsonLintParser.ts:517-566 | an iteration that throws throws that parse error message and never a lexical error |
| JsonParser.RunThrows | src/jsonLintParser.ts:463-685 | a whole run of the loop throws nothing but a parse error message |
| JsonParser.InputErrorIsParseError | src/calculateDiffs.ts:41-49 | the message `getInputError` reports for a text that does not parse is always a parse error message |
| JsonParser.LookaheadCases | src/jsonLintParser.ts:527-682 | with a lookahead: no entry throws the parse error, shift shifts, reduce reduces, accept returns true |
| JsonParser.RunContinues | src/jsonLintParser.ts:517 | the run from a state is the run from its successor |
| JsonParser.StepUnique | src/jsonLintParser.ts:517-684 | each iteration keeps every object on the value stack free of duplicate keys |
| JsonParser.ParseUnique | src/jsonLintParser.ts:463-685 | a value returned by `parse` has unique keys in every object |
| JsonParser.ReduceBy | src/jsonLintParser.ts:640-678 | the imperative pop, push and goto equal the step function's reduce |
| JsonParser.ReadAction | src/jsonLintParser.ts:519-528 | reads the default action, or lexes a token when needed and looks up its action, and throws the step function's message otherwise |
| JsonParser.DefaultOutcome | src/jsonLintParser.ts:522-523 | in a state with a default action the whole run returns the value below the top of the value stack |
| JsonParser.LookaheadOutcome | src/jsonLintParser.ts:530-683 | with a lookahead, a missing action ends the run with the parse error, accept ends it with `true`, production 6 ends it with its value, and shift or any other reduce goes on to the step function's successor |
| JsonParser.ApplyAction | src/jsonLintParser.ts:530-683 | carrying out the action read in one iteration either ends the loop with exactly the run's outcome or leaves a valid state with the same run and a smaller measure |
| JsonParser.Parse | src/jsonLintParser.ts:463-685 | the imperative loop returns exactly what the step function's run returns or throws |

## Left out

- `localeCompare` key order (src/calculateDiffs.ts:229-231) is locale-dependent. Keys are sorted by code-point order instead, a total order proved as such.
- Native `JSON.parse` (src/calculateDiffs.ts:673-674) is not modelled. Its two results are parameters of `Calculator.CalculateDiffs`, next to the input texts, `None` where it throws. It can throw after the lint check passes: the lint lexer's `\s+` also skips U+00A0, U+FEFF, vertical tab and U+2028/U+2029 (`LexerProperties.WhitespaceWider`), which `JSON.parse` rejects. The message of its `SyntaxError` is the engine's and is modelled by the constant `Calculator.JsonParseFailure`.
- Numbers are kept opaque, as their JavaScript text. The float formatting of `val + ","` and `Number(yytext)` is not modelled.
- Object members follow the object's own enumeration order, as a sequence with distinct keys. JavaScript's rule that integer-like keys come first, and the special `__proto__` key, are not modelled.
- A member named `hasOwnProperty` is not modelled. The source calls `obj.hasOwnProperty(prop)` as a method (src/calculateDiffs.ts:224, 414, 416, 438, 441, 477, 479), so an object with such an own property makes `calculateDiffs` throw "hasOwnProperty is not a function". The model prints and diffs it like any other key.
- The `data1.length < data2.length` pre-pass of `findDiffs` (src/calculateDiffs.ts:407-430) is treated as never taken. It is skipped when either object lacks a `length` member. It runs whenever both objects have one and JavaScript's `<` orders the two values, for example strings `"a"` and `"b"`, `null` and `1`, `false` and `true`, or `"1"` and `2`.
- Strings are sequences of code points; UTF-16 surrogate pairs are not modelled.
- The JavaScript regular-expression engine is replaced by hand-written recognisers, one per lexer rule.
- Lexer helpers that `parse` never calls (`input`, `unput`, `more`, `less`, `begin`, `popState`, `topState`, `pushState`) are not modelled.
- Location tracking (`yylloc`, `lstack`, `yyloc`) is not modelled. It is never observable in a result.
- The error-recovery branch of `parse` (src/jsonLintParser.ts:569-601) is unreachable, because `parseError` throws first.
- The multiple-actions check (src/jsonLintParser.ts:605-612) is unreachable: no table entry is a nested array.
- A missing goto after a reduce is the state −1, which has no row, so the next lookup reports a parse error.
- JsonParser.SemanticValue: decodes a STRING token with the corrected single-pass `StringDecode.Decode`, not with the replacement chain of src/jsonLintParser.ts:305-313 (`StringDecode.DecodeAsWritten`). For the token text `"\\n"` the source's value holds a line feed where the model's holds a backslash and `n` (see Findings).
- The parser's semantic values are modelled, but nothing downstream reads them: `calculateDiffs` only uses whether `parse` throws, and its message.
- The engine's sort is modelled by a stable insertion sort (`Calculator.SortByLine`). The diffs come out the same, because `Array.prototype.sort` is stable.
- The React user interface, URL persistence and service worker are presentation and I/O, outside this core.
- Recursion-depth limits of the JavaScript engine are not modelled.

## Findings

| source | as written | input that shows it | evidently intended | confidence | as-written member | corrected member |
|---|---|---|---|---|---|---|
| src/jsonLintParser.ts:305-313 | the escapes are removed by a chain of global replacements, each over the previous one's output | the JSON text `"\\n"`, a backslash and `n`, decodes to a line feed | each escape is decoded once, in one left-to-right pass, so the text reads back as a backslash and `n` | high, not executed | StringDecode.AsWrittenDecodesTwice | StringDecode.DecodeEscape |
| src/calculateDiffs.ts:676-680 | both configs are shallow copies of `DEFAULT_CONFIG`, so both documents (and every later call) share one path table; the right document's root row is never pushed, and right-side lookups (:306-308) return the first matching row, which may be the left document's | left `[{}, 1]`, right `[0, 2]`: the diff for `/[1]` gives right line 4, the left document's line, though the right document prints `2` on line 3 | each document gets its own path table, so every right row comes from the right document | high, not executed | Calculator.SharedTableMisplacesRight | Calculator.SeparateTablesRows |
| src/calculateDiffs.ts:274-279, 296-316 | a key's segment is the key with only its first separator replaced by `#`, and the lookup drops one trailing separator from the path | `{"//": 1}` against `{"//": 2}`: the member row is `/#/`, the lookup is `/#`, and the call throws "Unable to find line number for (Both sides should be equal numbers): /#" | every separator in a key is replaced, so a member's path never ends in a separator and its lookup finds its row | high, not executed | Calculator.SlashKeyThrows | DifferProperties.FixedMemberLookup |

`Calculator.SeparateTablesExample` shows the corrected result for the same input. The parser's semantic action uses the corrected decoding, `StringDecode.Decode`. `Calculator.CalculateDiffs` keeps the shared table as written, because that table decides every line the program reports; `Calculator.SeparateTablesSpec` is the corrected computation. In the same way the printer and the differ keep the first-match key segment, which decides the paths the program reports; `DifferProperties.FixedSegment` is the corrected segment, and `DifferProperties.MemberLookupAsWritten` names exactly the keys the two differ on.
