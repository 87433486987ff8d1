/** The shift/reduce loop of the generated parser, `parse`, and its semantic
    actions, `performAction` (src/jsonLintParser.ts:302-361, 463-685). */
module JsonParser {
  import opened StringOps
  import opened Json
  import opened JsonLexer
  import opened ParserTables
  import StringDecode
  import LexerProperties

  /** The state a missing goto leaves on the stack (`undefined`); it has no
      row, so the next lookup reports a parse error. */
  const UNDEFINED_STATE: int := -1

  /** The loop's variables: `stack` (states at even positions, grammar
      symbols at odd ones), `vstack`, the lookahead `symbol` (`null` or a
      token), the copies `yytext` and `yylineno` of the lexer's fields at the
      last shift, and the lexer itself. */
  datatype Parser = Parser(lex: LexState, stack: seq<int>, vstack: seq<Value>, symbol: Option<Token>,
                           yytext: string, yylineno: nat)

  /** What `parse` does: return a value or throw. */
  datatype Outcome = Returned(value: Value) | Threw(msg: string)

  datatype Step = Continue(next: Parser) | Done(outcome: Outcome)

  /** The variables when the loop starts, after `setInput`. */
  function Start(input: string): Parser
  {
    Parser(Initial(input), [0], [Null], None, "", 0)
  }

  function Top(stack: seq<int>): int
    requires stack != []
  {
    stack[|stack| - 1]
  }

  /** The `i`-th state on the stack. */
  function StateAt(stack: seq<int>, i: nat): int
    requires 2 * i < |stack|
  {
    stack[2 * i]
  }

  /** The stack invariants: `stack` holds one more state than `vstack` holds
      values, each state sits at least as deep as the shortest way to it,
      and the symbol below the top state is the one that state is entered
      on. */
  predicate Valid(p: Parser)
  {
    ValidState(p.lex) && StacksValid(p.stack, p.vstack)
  }

  predicate StacksValid(stack: seq<int>, vstack: seq<Value>)
  {
    && |vstack| >= 1 && |stack| == 2 * |vstack| - 1
    && (forall i :: 0 <= i < |vstack| ==> Depth(StateAt(stack, i)) <= i)
    && (|vstack| > 1 && Top(stack) != UNDEFINED_STATE ==>
          stack[|stack| - 2] == Accessing(Top(stack)))
  }

  /** `defaultActions`, as the production the state reduces by. */
  function DefaultReduction(state: int): Option<nat>
  {
    if DefaultAction(state).Some? && DefaultAction(state).value.Reduce? then Some(DefaultAction(state).value.prod)
    else None
  }

  /** `terminals_[symbol]` as string concatenation shows it. */
  function SymbolName(t: Token): string
  {
    match t
    case Tok(id) => if TerminalName(id).Some? then TerminalName(id).value else "undefined"
    case Invalid => "undefined"
  }

  /** The message of a parse error in `state` on lookahead `t`. */
  function ParseErrorMsg(lex: LexState, yylineno: nat, state: int, t: Token): string
  {
    "Parse error on line " + NatToString(yylineno + 1) + ":\n"
      + ShowPosition(lex.matched, lex.matchText, lex.input)
      + "\nExpecting " + JoinComma(Expected(Row(state))) + ", got '" + SymbolName(t) + "'"
  }

  // ---------------------------------------------------------------------
  // Semantic actions.

  /** `obj[key] = val`: an existing key keeps its place and takes the new
      value; a new key goes last. */
  function Assign(ms: seq<Member>, key: string, val: Value): seq<Member>
  {
    var i := KeyIndex(ms, key);
    if i < |ms| then ms[i := Member(key, val)] else ms + [Member(key, val)]
  }

  /** Actions 16 and 17: the member `[key, value]` set on the object. */
  function AddMember(obj: Value, member: Value): Value
  {
    if obj.Obj? && member.Arr? && |member.items| == 2 && member.items[0].Str? then
      Obj(Assign(obj.members, member.items[0].s, member.items[1]))
    else obj
  }

  /** Action 21: `push` on the list of elements. */
  function PushItem(list: Value, v: Value): Value
  {
    if list.Arr? then Arr(list.items + [v]) else list
  }

  /** `this.$` after action `prod`, with `$$` the value stack and `yytext`
      the text of the last token shifted; the default is `$1`, the value of
      the production's first symbol. */
  function SemanticValue(prod: nat, yytext: string, vs: seq<Value>): Value
    requires 1 <= prod < PRODUCTION_COUNT && Len(prod) < |vs|
  {
    var top := |vs| - 1;
    match prod
    case 1 => Str(StringDecode.Decode(yytext))
    case 2 => Num(Number(yytext))
    case 3 => Null
    case 4 => Bool(true)
    case 5 => Bool(false)
    case 13 => Obj([])
    case 14 => vs[top - 1]
    case 15 => Arr([vs[top - 2], vs[top]])
    case 16 => AddMember(Obj([]), vs[top])
    case 17 => AddMember(vs[top - 2], vs[top])
    case 18 => Arr([])
    case 19 => vs[top - 1]
    case 20 => Arr([vs[top]])
    case 21 => PushItem(vs[top - 2], vs[top])
    case _ => vs[|vs| - Len(prod)]
  }

  /** Every object inside `v` has distinct keys, as the own properties of a
      JavaScript object do. */
  predicate KeysUnique(v: Value)
  {
    match v
    case Arr(items) => forall i :: 0 <= i < |items| ==> KeysUnique(items[i])
    case Obj(ms) => DistinctKeys(ms) && forall i :: 0 <= i < |ms| ==> KeysUnique(ms[i].val)
    case _ => true
  }

  predicate AllKeysUnique(vs: seq<Value>)
  {
    forall i :: 0 <= i < |vs| ==> KeysUnique(vs[i])
  }

  /** The first member with a key is found where it is. */
  lemma KeyIndexAt(ms: seq<Member>, k: string, i: nat)
    requires i <= |ms| && (i < |ms| ==> ms[i].key == k)
    requires forall j :: 0 <= j < i ==> ms[j].key != k
    requires i == |ms| ==> forall j :: 0 <= j < |ms| ==> ms[j].key != k
    ensures KeyIndex(ms, k) == i
  {
    KeyIndexFirst(ms, k);
  }

  /** `obj[key] = val` as JavaScript reads it back: `key` now holds `val`,
      every other key holds what it held, an existing key keeps its place,
      and a new key goes last. */
  lemma AssignLookup(ms: seq<Member>, key: string, val: Value, k: string)
    ensures var ms' := Assign(ms, key, val);
      && (KeyIndex(ms, key) < |ms| ==> Keys(ms') == Keys(ms))
      && (KeyIndex(ms, key) == |ms| ==> Keys(ms') == Keys(ms) + [key])
      && (k == key ==> KeyIndex(ms', k) < |ms'| && ms'[KeyIndex(ms', k)].val == val)
      && (k != key && KeyIndex(ms, k) < |ms| ==>
            KeyIndex(ms', k) == KeyIndex(ms, k) && ms'[KeyIndex(ms', k)].val == ms[KeyIndex(ms, k)].val)
      && (k != key && KeyIndex(ms, k) == |ms| ==> KeyIndex(ms', k) == |ms'|)
  {
    AssignKeys(ms, key, val);
    if k != key {
      AssignOther(ms, key, val, k);
    }
  }

  /** `key` keeps its place or goes last, and holds `val`. */
  lemma AssignKeys(ms: seq<Member>, key: string, val: Value)
    ensures var ms' := Assign(ms, key, val);
      && (KeyIndex(ms, key) < |ms| ==> Keys(ms') == Keys(ms))
      && (KeyIndex(ms, key) == |ms| ==> Keys(ms') == Keys(ms) + [key])
      && KeyIndex(ms', key) < |ms'| && ms'[KeyIndex(ms', key)].val == val
  {
    var ms' := Assign(ms, key, val);
    var i := KeyIndex(ms, key);
    KeyIndexFirst(ms, key);
    if i < |ms| {
      assert Keys(ms') == Keys(ms);
      KeyIndexAt(ms', key, i);
    } else {
      assert Keys(ms') == Keys(ms) + [key];
      KeyIndexAt(ms', key, |ms|);
    }
  }

  /** Every key other than `key` is found where it was, with its value. */
  lemma AssignOther(ms: seq<Member>, key: string, val: Value, k: string)
    requires k != key
    ensures var ms' := Assign(ms, key, val);
      && (KeyIndex(ms, k) < |ms| ==>
            KeyIndex(ms', k) == KeyIndex(ms, k) && ms'[KeyIndex(ms', k)].val == ms[KeyIndex(ms, k)].val)
      && (KeyIndex(ms, k) == |ms| ==> KeyIndex(ms', k) == |ms'|)
  {
    var ms' := Assign(ms, key, val);
    var j := KeyIndex(ms, k);
    KeyIndexFirst(ms, k);
    KeyIndexAt(ms', k, if j < |ms| then j else |ms'|);
  }

  /** Assigning keeps the keys of an object distinct. */
  lemma AssignDistinct(ms: seq<Member>, key: string, val: Value)
    requires DistinctKeys(ms)
    ensures DistinctKeys(Assign(ms, key, val))
  {
    var i := KeyIndex(ms, key);
    if i == |ms| {
      var ms' := Assign(ms, key, val);
      forall a, b | 0 <= a < b < |ms'|
        ensures ms'[a].key != ms'[b].key
      {
        if b == |ms| {
          assert Keys(ms)[a] == ms[a].key;
        }
      }
    }
  }

  /** Actions 16 and 17 build objects whose keys are distinct. */
  lemma AddMemberUnique(obj: Value, member: Value)
    requires KeysUnique(obj) && KeysUnique(member)
    ensures KeysUnique(AddMember(obj, member))
  {
    if obj.Obj? && member.Arr? && |member.items| == 2 && member.items[0].Str? {
      var ms := obj.members;
      var ms' := Assign(ms, member.items[0].s, member.items[1]);
      AssignDistinct(ms, member.items[0].s, member.items[1]);
      forall i | 0 <= i < |ms'|
        ensures KeysUnique(ms'[i].val)
      {
        if i < |ms| && ms'[i] == ms[i] {
        } else {
          assert ms'[i].val == member.items[1];
        }
      }
    }
  }

  /** Every semantic action builds objects with distinct keys from values
      that have them. */
  lemma SemanticUnique(prod: nat, yytext: string, vs: seq<Value>)
    requires 1 <= prod < PRODUCTION_COUNT && Len(prod) < |vs| && AllKeysUnique(vs)
    ensures KeysUnique(SemanticValue(prod, yytext, vs))
  {
    var top := |vs| - 1;
    if prod == 15 {
      var v := Arr([vs[top - 2], vs[top]]);
      assert forall i :: 0 <= i < 2 ==> v.items[i] in {vs[top - 2], vs[top]};
    } else if prod == 16 {
      AddMemberUnique(Obj([]), vs[top]);
    } else if prod == 17 {
      AddMemberUnique(vs[top - 2], vs[top]);
    } else if prod == 20 {
      assert Arr([vs[top]]).items[0] == vs[top];
    } else if prod == 21 {
      var list := vs[top - 2];
      if list.Arr? {
        var r := Arr(list.items + [vs[top]]);
        forall i | 0 <= i < |r.items|
          ensures KeysUnique(r.items[i])
        {
          if i < |list.items| {
            assert r.items[i] == list.items[i];
          }
        }
      }
    }
  }

  // ---------------------------------------------------------------------
  // One iteration of the loop.

  /** One iteration: the default action if the top state has one, else the
      table's action for the lookahead, lexing one first when there is none. */
  function StepSpec(p: Parser): Step
    requires Valid(p)
  {
    var state := Top(p.stack);
    if DefaultReduction(state).Some? then
      DefaultFacts(state);
      ValidTop(p);
      ReduceSpec(p, DefaultReduction(state).value)
    else if p.symbol.None? then
      LexerProperties.LexProgress(p.lex);
      var (lex', x) := LexSpec(p.lex);
      if x.LexError? then Done(Threw(x.msg))
      else LookaheadSpec(p.(lex := lex', symbol := Some(x.token)))
    else LookaheadSpec(p)
  }

  /** The table's action for the pending lookahead. */
  function LookaheadSpec(p: Parser): Step
    requires Valid(p) && p.symbol.Some?
  {
    var state := Top(p.stack);
    var t := p.symbol.value;
    var a := if t.Tok? then ActionOf(state, t.id) else None;
    match a
    case None => Done(Threw(ParseErrorMsg(p.lex, p.yylineno, state, t)))
    case Some(Goto(_)) => Done(Threw(ParseErrorMsg(p.lex, p.yylineno, state, t)))
    case Some(Shift(n)) => Continue(Shifted(p, t.id, n))
    case Some(Reduce(prod)) =>
      ActionFacts(state, t.id);
      ValidTop(p);
      ReduceSpec(p, prod)
    case Some(Accept) => Done(Returned(Bool(true)))
  }

  /** A shift: the symbol and the new state go on the stack, the lexer's
      `yytext` on the value stack, and the lookahead is used up. */
  function Shifted(p: Parser, symbol: int, n: nat): Parser
  {
    p.(stack := p.stack + [symbol, n], vstack := p.vstack + [Str(p.lex.yytext)], symbol := None,
       yytext := p.lex.yytext, yylineno := p.lex.line)
  }

  /** A reduction: the semantic action runs; production 6 returns its value,
      every other pops `Len(prod)` symbols with their states and values and
      pushes the nonterminal, its value and the goto state of the state
      uncovered. */
  function ReduceSpec(p: Parser, prod: nat): Step
    requires 1 <= prod < PRODUCTION_COUNT && Len(prod) < |p.vstack| && |p.stack| == 2 * |p.vstack| - 1
  {
    if prod == 6 then Done(Returned(p.vstack[|p.vstack| - 2]))
    else Continue(Reduced(p, prod, GotoState(Uncovered(p, prod), Lhs(prod))))
  }

  /** The state a reduction by `prod` uncovers. */
  function Uncovered(p: Parser, prod: nat): int
    requires 1 <= prod < PRODUCTION_COUNT && Len(prod) < |p.vstack| && |p.stack| == 2 * |p.vstack| - 1
  {
    p.stack[|p.stack| - 2 * Len(prod) - 1]
  }

  /** The pops and pushes of a reduction, `next` being the goto state. */
  function Reduced(p: Parser, prod: nat, next: int): Parser
    requires 1 <= prod < PRODUCTION_COUNT && Len(prod) < |p.vstack| && |p.stack| == 2 * |p.vstack| - 1
  {
    var len := Len(prod);
    var v := SemanticValue(prod, p.yytext, p.vstack);
    p.(stack := p.stack[..|p.stack| - 2 * len] + [Lhs(prod), next], vstack := p.vstack[..|p.vstack| - len] + [v])
  }

  /** `table[state][nonterminal]`, `undefined` when missing. */
  function GotoState(state: int, nonterminal: int): int
  {
    match ActionOf(state, nonterminal)
    case Some(Goto(n)) => n
    case _ => UNDEFINED_STATE
  }

  /** The loop, run to its end. */
  function Run(p: Parser): Outcome
    requires Valid(p)
    decreases Progress(p), StackWeight(p.stack)
  {
    match StepSpec(p)
    case Done(o) => o
    case Continue(next) =>
      StepProgress(p);
      Run(next)
  }

  /** An iteration that ends the loop ends the run with its outcome. */
  lemma RunStops(p: Parser)
    requires Valid(p) && StepSpec(p).Done?
    ensures Run(p) == StepSpec(p).outcome
  {
  }

  /** `parse(input)`: a value, or the message of the error it throws. */
  function ParseSpec(input: string): Outcome
  {
    StartValid(input);
    Run(Start(input))
  }

  /** `getInputError` (src/calculateDiffs.ts:41-49): no message when the text
      parses, and the message of what `parse` throws when it does not. */
  function GetInputError(input: string): Option<string>
  {
    match ParseSpec(input)
    case Returned(_) => None
    case Threw(msg) => Some(msg)
  }

  // ---------------------------------------------------------------------
  // Why the loop ends and keeps its invariants.

  /** Twice what the lexer has left to read, plus one for a pending
      lookahead: lexing lowers it unless the lexer is done, and a shift uses
      up the lookahead. */
  function Progress(p: Parser): nat
  {
    2 * Remaining(p.lex) + if p.symbol.Some? then 1 else 0
  }

  /** The total weight of the symbols on the stack; a reduction lowers it. */
  function StackWeight(stack: seq<int>): nat
  {
    if |stack| < 2 then 0 else StackWeight(stack[..|stack| - 2]) + SymbolWeight(stack[|stack| - 2])
  }

  lemma StartValid(input: string)
    ensures Valid(Start(input))
  {
    assert StateAt(Start(input).stack, 0) == 0;
  }

  lemma DefaultFacts(state: int)
    requires DefaultReduction(state).Some?
    ensures ActionOf(state, END) == Some(Reduce(DefaultReduction(state).value))
    ensures EntryOK(state, END, Reduce(DefaultReduction(state).value))
  {
    ActionFacts(16, END);
  }

  /** The top state sits at depth at most the number of values above the
      first. */
  lemma ValidTop(p: Parser)
    requires Valid(p)
    ensures Depth(Top(p.stack)) <= |p.vstack| - 1
  {
    assert StateAt(p.stack, |p.vstack| - 1) == Top(p.stack);
  }

  lemma {:induction false} WeightAtLeast(stack: seq<int>, k: nat)
    requires 2 * k <= |stack|
    ensures StackWeight(stack) >= StackWeight(stack[..|stack| - 2 * k]) + k
    decreases k
  {
    if k == 0 {
      assert stack[..|stack|] == stack;
    } else {
      var shorter := stack[..|stack| - 2];
      WeightAtLeast(shorter, k - 1);
      assert shorter[..|shorter| - 2 * (k - 1)] == stack[..|stack| - 2 * k];
      assert SymbolWeight(stack[|stack| - 2]) >= 1;
    }
  }

  lemma WeightPushed(stack: seq<int>, a: int, b: int)
    ensures StackWeight(stack + [a, b]) == StackWeight(stack) + SymbolWeight(a)
  {
    assert (stack + [a, b])[..|stack|] == stack;
  }

  /** Popping `len` pairs takes away at least the top symbol's weight and
      one for each other symbol. */
  lemma WeightPopped(stack: seq<int>, len: nat)
    requires 1 <= len && 2 * len < |stack|
    ensures StackWeight(stack) >= StackWeight(stack[..|stack| - 2 * len]) + SymbolWeight(stack[|stack| - 2]) + len - 1
  {
    var shorter := stack[..|stack| - 2];
    WeightAtLeast(shorter, len - 1);
    assert shorter[..|shorter| - 2 * (len - 1)] == stack[..|stack| - 2 * len];
  }

  lemma ShiftValid(p: Parser, symbol: int, n: nat)
    requires Valid(p) && ValidState(p.lex)
    requires Accessing(n) == symbol && Depth(n) <= Depth(Top(p.stack)) + 1
    ensures Valid(Shifted(p, symbol, n))
    ensures StackWeight(Shifted(p, symbol, n).stack) == StackWeight(p.stack) + SymbolWeight(symbol)
  {
    var q := Shifted(p, symbol, n);
    ValidTop(p);
    forall i | 0 <= i < |q.vstack|
      ensures Depth(StateAt(q.stack, i)) <= i
    {
      if i < |p.vstack| {
        assert StateAt(q.stack, i) == StateAt(p.stack, i);
      } else {
        assert StateAt(q.stack, i) == n;
      }
    }
    WeightPushed(p.stack, symbol, n);
  }

  /** The goto state after a reduction is entered on the nonterminal and
      lies at most one deeper than the state uncovered, or is `undefined`. */
  lemma GotoFacts(state: int, nonterminal: int)
    ensures var next := GotoState(state, nonterminal);
      next == UNDEFINED_STATE || (Accessing(next) == nonterminal && Depth(next) <= Depth(state) + 1)
  {
    if ActionOf(state, nonterminal).Some? {
      ActionFacts(state, nonterminal);
    }
  }

  lemma ReduceValid(p: Parser, prod: nat, next: int)
    requires Valid(p) && 1 <= prod < PRODUCTION_COUNT && prod != 6
    requires Len(prod) <= Depth(Top(p.stack))
    requires SymbolWeight(Lhs(prod)) < SymbolWeight(Accessing(Top(p.stack))) + Len(prod) - 1
    requires Len(prod) < |p.vstack|
    requires next == UNDEFINED_STATE || (Accessing(next) == Lhs(prod) && Depth(next) <= Depth(Uncovered(p, prod)) + 1)
    ensures Valid(Reduced(p, prod, next))
    ensures StackWeight(Reduced(p, prod, next).stack) < StackWeight(p.stack)
  {
    ReducedDepths(p, prod, next);
    ReducedWeight(p, prod, next);
  }

  /** A reduction takes more weight off the stack than the nonterminal it
      pushes puts back. */
  lemma ReducedWeight(p: Parser, prod: nat, next: int)
    requires Valid(p) && 1 <= prod < PRODUCTION_COUNT
    requires Len(prod) <= Depth(Top(p.stack))
    requires SymbolWeight(Lhs(prod)) < SymbolWeight(Accessing(Top(p.stack))) + Len(prod) - 1
    requires Len(prod) < |p.vstack|
    ensures StackWeight(Reduced(p, prod, next).stack) < StackWeight(p.stack)
  {
    var len := Len(prod);
    var popped := p.stack[..|p.stack| - 2 * len];
    assert 1 <= len && Top(p.stack) != UNDEFINED_STATE;
    assert p.stack[|p.stack| - 2] == Accessing(Top(p.stack));
    WeightPopped(p.stack, len);
    WeightPushed(popped, Lhs(prod), next);
  }

  /** After a reduction each state still sits at least as deep as the
      shortest way to it. */
  lemma ReducedDepths(p: Parser, prod: nat, next: int)
    requires Valid(p) && 1 <= prod < PRODUCTION_COUNT
    requires Len(prod) < |p.vstack|
    requires next == UNDEFINED_STATE || Depth(next) <= Depth(Uncovered(p, prod)) + 1
    ensures var q := Reduced(p, prod, next);
      forall i :: 0 <= i < |q.vstack| ==> Depth(StateAt(q.stack, i)) <= i
  {
    var len := Len(prod);
    var q := Reduced(p, prod, next);
    var j := |p.vstack| - len;
    assert Uncovered(p, prod) == StateAt(p.stack, j - 1);
    forall i | 0 <= i < |q.vstack|
      ensures Depth(StateAt(q.stack, i)) <= i
    {
      if i < j {
        assert StateAt(q.stack, i) == StateAt(p.stack, i);
      } else {
        assert StateAt(q.stack, i) == next;
      }
    }
  }

  /** Each iteration that goes on keeps the invariants and lowers the pair
      (`Progress`, `StackWeight`). */
  lemma StepProgress(p: Parser)
    requires Valid(p) && StepSpec(p).Continue?
    ensures var q := StepSpec(p).next;
      && Valid(q)
      && (Progress(q) < Progress(p) || (Progress(q) == Progress(p) && StackWeight(q.stack) < StackWeight(p.stack)))
  {
    var state := Top(p.stack);
    if DefaultReduction(state).Some? {
      DefaultFacts(state);
      assert false;
    } else if p.symbol.None? {
      LexedProgress(p);
    } else {
      LookaheadStep(p);
      LookaheadProgress(p);
    }
  }

  /** An iteration that lexes its lookahead first: the lexer consumes input,
      and at the end of input the iteration does not go on. */
  lemma LexedProgress(p: Parser)
    requires Valid(p) && DefaultReduction(Top(p.stack)).None? && p.symbol.None?
    requires StepSpec(p).Continue?
    ensures var q := StepSpec(p).next;
      && Valid(q)
      && (Progress(q) < Progress(p) || (Progress(q) == Progress(p) && StackWeight(q.stack) < StackWeight(p.stack)))
  {
    LexedStep(p);
    LexerProperties.LexProgress(p.lex);
    var (lex', x) := LexSpec(p.lex);
    var p1 := p.(lex := lex', symbol := Some(x.token));
    LookaheadProgress(p1);
    if p.lex.done {
      EndLookahead(p1);
    }
  }

  /** With the lookahead `lexer.EOF` the only action outside state 16 is
      accept, so an iteration that lexes the end does not go on. */
  lemma EndLookahead(p: Parser)
    requires Valid(p) && p.symbol == Some(Tok(END)) && DefaultReduction(Top(p.stack)).None?
    ensures LookaheadSpec(p).Done?
  {
    var state := Top(p.stack);
    if ActionOf(state, END).Some? {
      ActionFacts(state, END);
    }
  }

  lemma LookaheadProgress(p: Parser)
    requires Valid(p) && p.symbol.Some? && LookaheadSpec(p).Continue?
    ensures var q := LookaheadSpec(p).next;
      && Valid(q)
      && q.lex == p.lex
      && ((q.symbol.None? && StackWeight(q.stack) > StackWeight(p.stack))
          || (q.symbol == p.symbol && StackWeight(q.stack) < StackWeight(p.stack)))
  {
    var state := Top(p.stack);
    var t := p.symbol.value;
    var a := ActionOf(state, t.id);
    ActionFacts(state, t.id);
    ValidTop(p);
    match a.value
    case Shift(n) =>
      ShiftValid(p, t.id, n);
    case Reduce(prod) =>
      assert state != UNDEFINED_STATE;
      GotoFacts(Uncovered(p, prod), Lhs(prod));
      ReduceValid(p, prod, GotoState(Uncovered(p, prod), Lhs(prod)));
  }

  /** An iteration in a state with a default action is that reduction. */
  lemma DefaultStep(p: Parser)
    requires Valid(p) && DefaultReduction(Top(p.stack)).Some?
    ensures DefaultReduction(Top(p.stack)).value == 6 && Len(6) < |p.vstack|
    ensures StepSpec(p) == ReduceSpec(p, 6)
  {
    DefaultFacts(Top(p.stack));
    ValidTop(p);
  }

  /** An iteration without a lookahead first lexes one: a lexical error ends
      the loop, and otherwise the iteration acts on the new token. */
  lemma LexedStep(p: Parser)
    requires Valid(p) && DefaultReduction(Top(p.stack)).None? && p.symbol.None?
    ensures var (lex', x) := LexSpec(p.lex);
      && ValidState(lex') && !x.Skip?
      && (x.LexError? ==> StepSpec(p) == Done(Threw(x.msg)))
      && (x.Token? ==>
            Valid(p.(lex := lex', symbol := Some(x.token)))
            && StepSpec(p) == LookaheadSpec(p.(lex := lex', symbol := Some(x.token))))
  {
    LexerProperties.LexProgress(p.lex);
    var (lex', x) := LexSpec(p.lex);
    if x.Token? {
      var q := p.(lex := lex', symbol := Some(x.token));
      assert q.stack == p.stack && q.vstack == p.vstack && ValidState(q.lex);
    }
  }

  /** An iteration with a pending lookahead acts on it. */
  lemma LookaheadStep(p: Parser)
    requires Valid(p) && DefaultReduction(Top(p.stack)).None? && p.symbol.Some?
    ensures StepSpec(p) == LookaheadSpec(p)
  {
  }

  /** The table's action for a pending lookahead, case by case. */
  lemma LookaheadCases(q: Parser)
    requires Valid(q) && q.symbol.Some?
    ensures var t := q.symbol.value;
      var a := if t.Tok? then ActionOf(Top(q.stack), t.id) else None;
      && (a.None? || a.value.Goto? ==> LookaheadSpec(q) == Done(Threw(ParseErrorMsg(q.lex, q.yylineno, Top(q.stack), t))))
      && (a.Some? && a.value.Shift? ==> LookaheadSpec(q) == Continue(Shifted(q, t.id, a.value.target)))
      && (a.Some? && a.value.Reduce? ==>
            1 <= a.value.prod < PRODUCTION_COUNT && Len(a.value.prod) < |q.vstack|
            && LookaheadSpec(q) == ReduceSpec(q, a.value.prod))
      && (a == Some(Accept) ==> LookaheadSpec(q) == Done(Returned(Bool(true))))
  {
    var t := q.symbol.value;
    if t.Tok? && ActionOf(Top(q.stack), t.id).Some? {
      ActionFacts(Top(q.stack), t.id);
      ValidTop(q);
    }
  }

  /** In a state with a default action the iteration returns the value
      below the top of the value stack. */
  lemma DefaultOutcome(p: Parser)
    requires Valid(p) && DefaultReduction(Top(p.stack)).Some?
    ensures Len(6) < |p.vstack| && Run(p) == Returned(p.vstack[|p.vstack| - 2])
  {
    DefaultStep(p);
    RunStops(p);
  }

  /** What the action read for an iteration in a state without a default
      action means for the run: an error or an acceptance ends it, a shift
      or a reduction goes on to the next iteration. */
  lemma LookaheadOutcome(p: Parser, q: Parser, action: Option<Action>)
    requires Valid(p) && Valid(q) && q.symbol.Some? && q.stack == p.stack && q.vstack == p.vstack
    requires action == (if q.symbol.value.Tok? then ActionOf(Top(q.stack), q.symbol.value.id) else None)
    requires StepSpec(p) == LookaheadSpec(q)
    ensures action.None? || action.value.Goto? ==>
      Run(p) == Threw(ParseErrorMsg(q.lex, q.yylineno, Top(q.stack), q.symbol.value))
    ensures action == Some(Accept) ==> Run(p) == Returned(Bool(true))
    ensures action.Some? && action.value.Shift? ==>
      q.symbol.value.Tok? && StepSpec(p) == Continue(Shifted(q, q.symbol.value.id, action.value.target))
    ensures action.Some? && action.value.Reduce? ==>
      && 1 <= action.value.prod < PRODUCTION_COUNT && Len(action.value.prod) < |q.vstack|
      && (action.value.prod == 6 ==> Run(p) == Returned(q.vstack[|q.vstack| - 2]))
      && (action.value.prod != 6 ==>
            StepSpec(p) == Continue(Reduced(q, action.value.prod,
                                            GotoState(Uncovered(q, action.value.prod), Lhs(action.value.prod)))))
  {
    LookaheadCases(q);
    match action
    case None => RunStops(p);
    case Some(Goto(_)) => RunStops(p);
    case Some(Accept) => RunStops(p);
    case Some(Shift(_)) =>
    case Some(Reduce(prod)) =>
      if prod == 6 {
        RunStops(p);
      }
  }

  /** An iteration that goes on leaves the rest of the run unchanged. */
  lemma RunContinues(p: Parser, q: Parser)
    requires Valid(p) && StepSpec(p) == Continue(q)
    ensures Valid(q) && Run(p) == Run(q)
    ensures Progress(q) < Progress(p) || (Progress(q) == Progress(p) && StackWeight(q.stack) < StackWeight(p.stack))
  {
    StepProgress(p);
  }

  /** An iteration keeps every object on the value stack free of duplicate
      keys, and what it returns has none. */
  lemma StepUnique(p: Parser)
    requires Valid(p) && AllKeysUnique(p.vstack)
    ensures StepSpec(p).Continue? ==> AllKeysUnique(StepSpec(p).next.vstack)
    ensures StepSpec(p).Done? && StepSpec(p).outcome.Returned? ==> KeysUnique(StepSpec(p).outcome.value)
  {
    var state := Top(p.stack);
    if DefaultReduction(state).Some? {
      DefaultStep(p);
    } else if p.symbol.None? {
      LexedStep(p);
      var (lex', x) := LexSpec(p.lex);
      if x.Token? {
        LookaheadUnique(p.(lex := lex', symbol := Some(x.token)));
      }
    } else {
      LookaheadUnique(p);
    }
  }

  lemma LookaheadUnique(p: Parser)
    requires Valid(p) && p.symbol.Some? && AllKeysUnique(p.vstack)
    ensures LookaheadSpec(p).Continue? ==> AllKeysUnique(LookaheadSpec(p).next.vstack)
    ensures LookaheadSpec(p).Done? && LookaheadSpec(p).outcome.Returned? ==> KeysUnique(LookaheadSpec(p).outcome.value)
  {
    LookaheadCases(p);
    var t := p.symbol.value;
    var a := if t.Tok? then ActionOf(Top(p.stack), t.id) else None;
    if a.Some? && a.value.Shift? {
      var q := Shifted(p, t.id, a.value.target);
      assert forall i :: 0 <= i < |q.vstack| - 1 ==> q.vstack[i] == p.vstack[i];
    } else if a.Some? && a.value.Reduce? && a.value.prod != 6 {
      var prod := a.value.prod;
      var q := Reduced(p, prod, GotoState(Uncovered(p, prod), Lhs(prod)));
      SemanticUnique(prod, p.yytext, p.vstack);
      assert forall i :: 0 <= i < |q.vstack| - 1 ==> q.vstack[i] == p.vstack[i];
    }
  }

  /** Whatever the loop returns has no object with a duplicate key: a
      repeated key in the text keeps its first place and its last value. */
  lemma {:induction false} RunUnique(p: Parser)
    requires Valid(p) && AllKeysUnique(p.vstack)
    ensures Run(p).Returned? ==> KeysUnique(Run(p).value)
    decreases Progress(p), StackWeight(p.stack)
  {
    StepUnique(p);
    if StepSpec(p).Continue? {
      StepProgress(p);
      RunUnique(StepSpec(p).next);
    }
  }

  /** The value `parse` returns has no object with a duplicate key. */
  lemma ParseUnique(input: string)
    ensures ParseSpec(input).Returned? ==> KeysUnique(ParseSpec(input).value)
  {
    StartValid(input);
    RunUnique(Start(input));
  }

  /** A message of the form `parseError` builds from the lexer's position,
      the line, the state's expected terminals and the lookahead. */
  ghost predicate IsParseError(msg: string)
  {
    exists lex: LexState, yylineno: nat, state: int, t: Token :: msg == ParseErrorMsg(lex, yylineno, state, t)
  }

  /** What a lookahead's missing action throws is a parse error message. */
  lemma LookaheadThrows(q: Parser)
    requires Valid(q) && q.symbol.Some?
    ensures LookaheadSpec(q).Done? && LookaheadSpec(q).outcome.Threw? ==> IsParseError(LookaheadSpec(q).outcome.msg)
  {
    LookaheadCases(q);
    var t := q.symbol.value;
    var a := if t.Tok? then ActionOf(Top(q.stack), t.id) else None;
    if a.None? || a.value.Goto? {
      assert LookaheadSpec(q).outcome.msg == ParseErrorMsg(q.lex, q.yylineno, Top(q.stack), t);
    }
  }

  /** Every iteration that throws throws a parse error message: the lexer
      never throws, so only a missing action ends the loop with an error. */
  lemma StepThrows(p: Parser)
    requires Valid(p)
    ensures StepSpec(p).Done? && StepSpec(p).outcome.Threw? ==> IsParseError(StepSpec(p).outcome.msg)
  {
    if DefaultReduction(Top(p.stack)).Some? {
      DefaultStep(p);
    } else if p.symbol.None? {
      LexedStep(p);
      LexerProperties.LexNoError(p.lex);
      var (lex', x) := LexSpec(p.lex);
      LookaheadThrows(p.(lex := lex', symbol := Some(x.token)));
    } else {
      LookaheadThrows(p);
    }
  }

  /** So a whole run throws nothing but a parse error message. */
  lemma {:induction false} RunThrows(p: Parser)
    requires Valid(p)
    ensures Run(p).Threw? ==> IsParseError(Run(p).msg)
    decreases Progress(p), StackWeight(p.stack)
  {
    match StepSpec(p)
    case Done(_) =>
      RunStops(p);
      StepThrows(p);
    case Continue(q) =>
      RunContinues(p, q);
      RunThrows(q);
  }

  /** The message `getInputError` reports for a text that does not parse is
      always a parse error message, never a lexical error. */
  lemma InputErrorIsParseError(input: string)
    ensures GetInputError(input).Some? ==> IsParseError(GetInputError(input).value)
  {
    StartValid(input);
    RunThrows(Start(input));
  }

  // ---------------------------------------------------------------------
  // The loop as the source writes it.

  /** The reduce branch of the loop: the action's value, then the pops, then
      the pushes of the nonterminal, its value and the goto state. */
  method ReduceBy(prod: nat, yytext: string, stack: seq<int>, vstack: seq<Value>, ghost p: Parser)
    returns (stack': seq<int>, vstack': seq<Value>)
    requires 1 <= prod < PRODUCTION_COUNT && Len(prod) < |vstack| && |stack| == 2 * |vstack| - 1
    requires p.stack == stack && p.vstack == vstack && p.yytext == yytext
    ensures Reduced(p, prod, GotoState(Uncovered(p, prod), Lhs(prod))) == p.(stack := stack', vstack := vstack')
  {
    var len := Len(prod);
    var v := SemanticValue(prod, yytext, vstack);
    stack' := stack[..|stack| - 2 * len];
    vstack' := vstack[..|vstack| - len];
    var next := GotoState(stack'[|stack'| - 1], Lhs(prod));
    stack' := stack' + [Lhs(prod), next];
    vstack' := vstack' + [v];
  }

  /** The first half of an iteration: the default action of the top state if
      it has one, else the table's action for the lookahead, read from the
      lexer first when there is none; a lexical error ends the loop. */
  method ReadAction(lexer: Lexer, state: int, symbol: Option<Token>, ghost p: Parser)
    returns (symbol': Option<Token>, action: Option<Action>, err: Option<string>)
    requires Valid(p) && p.lex == lexer.State() && p.symbol == symbol && Top(p.stack) == state
    modifies lexer
    ensures err.Some? ==> StepSpec(p) == Done(Threw(err.value))
    ensures err.None? ==>
      var q := p.(lex := lexer.State(), symbol := symbol');
      && Valid(q)
      && (DefaultReduction(state).Some? ==>
            unchanged(lexer) && symbol' == symbol && action == Some(Reduce(6)) && Len(6) < |p.vstack|
            && StepSpec(p) == ReduceSpec(p, 6))
      && (DefaultReduction(state).None? ==>
            && symbol'.Some?
            && action == (if symbol'.value.Tok? then ActionOf(state, symbol'.value.id) else None)
            && StepSpec(p) == LookaheadSpec(q))
  {
    symbol' := symbol;
    err := None;
    if DefaultReduction(state).Some? {
      DefaultStep(p);
      action := Some(Reduce(DefaultReduction(state).value));
    } else {
      if symbol.None? {
        LexedStep(p);
        var x := lexer.Lex();
        if x.LexError? {
          return symbol', None, Some(x.msg);
        }
        symbol' := Some(x.token);
      } else {
        LookaheadStep(p);
      }
      action := if symbol'.value.Tok? then ActionOf(state, symbol'.value.id) else None;
    }
  }

  /** The second half of an iteration: the action applied to the loop's
      variables; an error, an acceptance or a reduction by production 6 ends
      the loop with its outcome, anything else goes on to the next
      iteration, which is nearer the end of the run. */
  method ApplyAction(lexer: Lexer, state: int, action: Option<Action>, stack: seq<int>, vstack: seq<Value>,
                     symbol: Option<Token>, yytext: string, yylineno: nat, ghost p: Parser)
    returns (stack': seq<int>, vstack': seq<Value>, symbol': Option<Token>, yytext': string, yylineno': nat,
             r: Option<Outcome>)
    requires Valid(p) && p.stack == stack && p.vstack == vstack && p.yytext == yytext && p.yylineno == yylineno
    requires Top(stack) == state
    requires DefaultReduction(state).Some? ==> action == Some(Reduce(6))
    requires DefaultReduction(state).None? ==>
      var q := p.(lex := lexer.State(), symbol := symbol);
      && Valid(q) && symbol.Some?
      && action == (if symbol.value.Tok? then ActionOf(state, symbol.value.id) else None)
      && StepSpec(p) == LookaheadSpec(q)
    ensures r.Some? ==> Run(p) == r.value
    ensures r.None? ==>
      var next := Parser(lexer.State(), stack', vstack', symbol', yytext', yylineno');
      && Valid(next) && Run(next) == Run(p)
      && (Progress(next) < Progress(p) || (Progress(next) == Progress(p) && StackWeight(stack') < StackWeight(stack)))
  {
    stack', vstack', symbol', yytext', yylineno', r := stack, vstack, symbol, yytext, yylineno, None;
    if DefaultReduction(state).Some? {
      DefaultOutcome(p);
      return stack', vstack', symbol', yytext', yylineno', Some(Returned(vstack[|vstack| - 2]));
    }
    LookaheadOutcome(p, p.(lex := lexer.State(), symbol := symbol), action);
    if action.None? || action.value.Goto? {
      return stack', vstack', symbol', yytext', yylineno', Some(Threw(ParseErrorMsg(lexer.State(), yylineno, state, symbol.value)));
    }
    match action.value {
      case Shift(n) =>
        stack' := stack + [symbol.value.id, n];
        vstack' := vstack + [Str(lexer.yytext)];
        symbol' := None;
        yytext' := lexer.yytext;
        yylineno' := lexer.line;
        RunContinues(p, Parser(lexer.State(), stack', vstack', symbol', yytext', yylineno'));
      case Reduce(prod) =>
        if prod == 6 {
          return stack', vstack', symbol', yytext', yylineno', Some(Returned(vstack[|vstack| - 2]));
        }
        stack', vstack' := ReduceBy(prod, yytext, stack, vstack, p.(lex := lexer.State(), symbol := symbol));
        RunContinues(p, Parser(lexer.State(), stack', vstack', symbol', yytext', yylineno'));
      case Accept =>
        r := Some(Returned(Bool(true)));
    }
  }

  /** `parse(input)`: the loop over `stack`, `vstack` and the lookahead,
      calling the lexer object for each token. */
  method Parse(lexer: Lexer, input: string) returns (r: Outcome)
    modifies lexer
    ensures r == ParseSpec(input)
  {
    lexer.SetInput(input);
    var stack: seq<int> := [0];
    var vstack: seq<Value> := [Null];
    var symbol: Option<Token> := None;
    var yytext: string := "";
    var yylineno: nat := 0;
    StartValid(input);
    assert Parser(lexer.State(), stack, vstack, symbol, yytext, yylineno) == Start(input);
    while true
      invariant Valid(Parser(lexer.State(), stack, vstack, symbol, yytext, yylineno))
      invariant Run(Parser(lexer.State(), stack, vstack, symbol, yytext, yylineno)) == ParseSpec(input)
      decreases Progress(Parser(lexer.State(), stack, vstack, symbol, yytext, yylineno)), StackWeight(stack)
    {
      ghost var before := Parser(lexer.State(), stack, vstack, symbol, yytext, yylineno);
      var state := stack[|stack| - 1];
      var action, err, result;
      symbol, action, err := ReadAction(lexer, state, symbol, before);
      if err.Some? {
        RunStops(before);
        return Threw(err.value);
      }
      stack, vstack, symbol, yytext, yylineno, result :=
        ApplyAction(lexer, state, action, stack, vstack, symbol, yytext, yylineno, before);
      if result.Some? {
        return result.value;
      }
    }
  }
}
