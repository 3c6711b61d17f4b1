/**
 * Day 3: a hand-written tokenizer and a table-driven parser for the commands
 * `mul(a,b)`, `do()` and `don't()` scattered in corrupted text. Part one sums
 * the products of every `mul`; part two only those not switched off by a
 * `don't()` since the latest `do()`.
 *
 * The text is taken as ASCII, so a character index is the byte index the
 * tokenizer works with.
 */
module Day03 {
  import opened Wrappers
  import opened Text

  datatype Token = MUL | DO | DONT | LParen | Number | Comma | RParen | UNKNOWN

  datatype State = Start | MUL | DO | DONT | LParen | Param1 | Comma | Param2

  /** A parsed command. */
  datatype Node = Node(symbolName: Token, firstNumber: nat, secondNumber: nat)

  /** `Node::new`: a node of unknown kind. */
  function NewNode(): Node
  {
    Node(Token.UNKNOWN, 0, 0)
  }

  // ---------------------------------------------------------------------------
  // The tokenizer
  // ---------------------------------------------------------------------------

  /** A token, its text and the position after it. */
  datatype Lexeme = Lexeme(token: Token, value: string, next: nat)

  /** The characters at `start` spell `symbol`. */
  predicate Matches(input: string, start: nat, symbol: string)
  {
    start + |symbol| <= |input| && input[start..start + |symbol|] == symbol
  }

  /** The number of digits at the head of `s` (`take_while(is_digit).count()`). */
  function DigitRun(s: string): (n: nat)
    ensures n <= |s|
    ensures forall j :: 0 <= j < n ==> IsDigit(s[j])
    ensures n < |s| ==> !IsDigit(s[n])
  {
    if |s| == 0 || !IsDigit(s[0]) then 0 else 1 + DigitRun(s[1..])
  }

  /**
   * `look_for`, with the position already past the first character: the
   * symbol when the text there spells it, otherwise `UNKNOWN` with the one
   * character already read.
   */
  function LookForSpec(input: string, curr: nat, symbol: string, token: Token, value: string): Lexeme
    requires 1 <= curr <= |input|
  {
    if Matches(input, curr - 1, symbol) then Lexeme(token, symbol, curr - 1 + |symbol|)
    else Lexeme(Token.UNKNOWN, value, curr)
  }

  /** `get_number`, with the position already past the first digit: at most three digits. */
  function NumberSpec(input: string, curr: nat): Lexeme
    requires 1 <= curr <= |input|
  {
    var start := curr - 1;
    var run := DigitRun(input[start..]);
    var len := if run > 3 then 3 else run;
    Lexeme(Token.Number, input[start..start + len], start + len)
  }

  /** `Tokenizer::get` from position `pos`: the next lexeme, or `None` at the end of the text. */
  function Scan(input: string, pos: nat): (r: Option<Lexeme>)
    requires pos <= |input|
    ensures r.None? <==> pos == |input|
    ensures r.Some? ==> pos < r.value.next <= |input|
  {
    if pos == |input| then None
    else
      var c := input[pos];
      var curr := pos + 1;
      if c == '(' then Some(Lexeme(Token.LParen, [c], curr))
      else if c == ',' then Some(Lexeme(Token.Comma, [c], curr))
      else if c == ')' then Some(Lexeme(Token.RParen, [c], curr))
      else if c == 'd' then
        var l := LookForSpec(input, curr, "don't", Token.DONT, [c]);
        if l.token == Token.UNKNOWN then Some(LookForSpec(input, curr, "do", Token.DO, [c])) else Some(l)
      else if c == 'm' then Some(LookForSpec(input, curr, "mul", Token.MUL, [c]))
      else if IsDigit(c) then
        assert DigitRun(input[pos..]) >= 1;
        Some(NumberSpec(input, curr))
      else Some(Lexeme(Token.UNKNOWN, [c], curr))
  }

  /** The whole token stream from `pos` on. */
  function Tokens(input: string, pos: nat): seq<Lexeme>
    requires pos <= |input|
    decreases |input| - pos
  {
    match Scan(input, pos)
    case None => []
    case Some(l) => [l] + Tokens(input, l.next)
  }

  /** Punctuation and unrecognised characters are tokens of one character. */
  lemma ScanSingle(input: string, pos: nat)
    requires pos < |input|
    requires input[pos] !in "dm" && !IsDigit(input[pos])
    ensures Scan(input, pos).Some?
    ensures var l := Scan(input, pos).value;
      l.value == [input[pos]] && l.next == pos + 1
      && l.token == (match input[pos] case '(' => Token.LParen case ',' => Token.Comma
                                      case ')' => Token.RParen case _ => Token.UNKNOWN)
  {
  }

  /**
   * A digit starts a number of at most three digits: all the digits there
   * when there are fewer, and the remaining digits start the next token.
   */
  lemma ScanNumber(input: string, pos: nat)
    requires pos < |input| && IsDigit(input[pos])
    ensures Scan(input, pos).Some?
    ensures var l := Scan(input, pos).value;
      l.token == Token.Number && IsNumeral(l.value) && 1 <= |l.value| <= 3
      && l.value == input[pos..l.next]
      && (l.next == |input| || !IsDigit(input[l.next]) || |l.value| == 3)
  {
    var run := DigitRun(input[pos..]);
    var l := Scan(input, pos).value;
    assert l.value == input[pos..][..l.next - pos];
    if l.next < |input| && |l.value| < 3 {
      assert input[l.next] == input[pos..][run];
    }
  }

  /** An `m` is `MUL` exactly when `mul` starts there; otherwise it is an unknown `m` of its own. */
  lemma ScanM(input: string, pos: nat)
    requires pos < |input| && input[pos] == 'm'
    ensures Scan(input, pos).Some?
    ensures var l := Scan(input, pos).value;
      (l.token == Token.MUL <==> Matches(input, pos, "mul"))
      && (l.token == Token.MUL ==> l.value == "mul" && l.next == pos + 3)
      && (l.token != Token.MUL ==> l.token == Token.UNKNOWN && l.value == "m" && l.next == pos + 1)
  {
  }

  /** A `d` is tried as `don't` first, then as `do`, and is otherwise an unknown `d`. */
  lemma ScanD(input: string, pos: nat)
    requires pos < |input| && input[pos] == 'd'
    ensures Scan(input, pos).Some?
    ensures var l := Scan(input, pos).value;
      (Matches(input, pos, "don't") ==> l.token == Token.DONT && l.value == "don't" && l.next == pos + 5)
      && (!Matches(input, pos, "don't") && Matches(input, pos, "do") ==>
            l.token == Token.DO && l.value == "do" && l.next == pos + 2)
      && (!Matches(input, pos, "don't") && !Matches(input, pos, "do") ==>
            l.token == Token.UNKNOWN && l.value == "d" && l.next == pos + 1)
  {
  }

  /** `"2179"` starts with the number `217`. */
  lemma ScanExample2179()
    ensures Scan("2179", 0).Some?
    ensures Scan("2179", 0).value.token == Token.Number
    ensures Scan("2179", 0).value.value == "217"
  {
    var s := "2179";
    assert DigitRun(s[3..]) == 1;
    assert DigitRun(s[2..]) == 2;
    assert DigitRun(s[1..]) == 3;
    assert DigitRun(s) == 4;
  }

  /** `"2927"` is the number `292`, then the number `7`, then the end. */
  lemma TokensExample2927()
    ensures |Tokens("2927", 0)| == 2
    ensures Tokens("2927", 0)[0].value == "292" && Tokens("2927", 0)[0].token == Token.Number
    ensures Tokens("2927", 0)[1].value == "7" && Tokens("2927", 0)[1].token == Token.Number
  {
    var s := "2927";
    assert DigitRun(s[3..]) == 1;
    assert DigitRun(s[2..]) == 2;
    assert DigitRun(s[1..]) == 3;
    assert DigitRun(s) == 4;
    var l0 := Scan(s, 0).value;
    assert l0.next == 3 && l0.value == "292";
    var l1 := Scan(s, 3).value;
    assert l1.next == 4 && l1.value == "7";
    assert Tokens(s, 4) == [];
  }

  /** The lexical analyser: the text and the position of the next character to read. */
  class Tokenizer {
    const input: string
    var currPos: nat

    ghost predicate Valid()
      reads this
    {
      currPos <= |input|
    }

    /** `Tokenizer::new`: at the first character. */
    constructor(input: string)
      ensures this.input == input && currPos == 0 && Valid()
    {
      this.input := input;
      currPos := 0;
    }

    /** `get_number`: the digits from the one just read, at most three, consumed. */
    method GetNumber() returns (value: string)
      requires Valid() && 1 <= currPos && IsDigit(input[currPos - 1])
      modifies this
      ensures Valid()
      ensures NumberSpec(input, old(currPos)) == Lexeme(Token.Number, value, currPos)
    {
      var startPos := currPos - 1;
      var len := DigitRun(input[startPos..]);
      if len > 3 {
        len := 3;
      }
      currPos := startPos + len;
      value := input[startPos..currPos];
    }

    /** `look_for`: consume `symbol` when the text at the character just read spells it. */
    method LookFor(symbol: string, token: Token, value: Option<string>) returns (t: Option<Token>, v: Option<string>)
      requires Valid() && 1 <= currPos && |symbol| >= 2 && value.Some?
      modifies this
      ensures Valid()
      ensures var l := LookForSpec(input, old(currPos), symbol, token, value.value);
        t == Some(l.token) && v == Some(l.value) && currPos == l.next
    {
      var symbolLen := |symbol|;
      if currPos - 1 <= currPos + symbolLen - 1 <= |input| {
        var lookahead := input[currPos - 1..currPos + symbolLen - 1];
        if lookahead == symbol {
          currPos := currPos + symbolLen - 1;
          return Some(token), Some(lookahead);
        }
      }
      t, v := Some(Token.UNKNOWN), value;
    }

    /** `get`: the next token and its text, or `(None, None)` at the end of the input. */
    method Get() returns (token: Option<Token>, value: Option<string>)
      requires Valid()
      modifies this
      ensures Valid()
      ensures match Scan(input, old(currPos))
        case None => token.None? && value.None? && currPos == old(currPos)
        case Some(l) => token == Some(l.token) && value == Some(l.value) && currPos == l.next
    {
      if currPos + 1 > |input| {
        return None, None;
      }
      var v := input[currPos..currPos + 1];
      currPos := currPos + 1;
      var nextChar := v[0];
      assert v == [nextChar];
      if nextChar == '(' {
        token, value := Some(Token.LParen), Some(v);
      } else if nextChar == ',' {
        token, value := Some(Token.Comma), Some(v);
      } else if nextChar == ')' {
        token, value := Some(Token.RParen), Some(v);
      } else if nextChar == 'd' {
        var tokOption, retValue := LookFor("don't", Token.DONT, Some(v));
        if tokOption.value == Token.UNKNOWN {
          token, value := LookFor("do", Token.DO, Some(v));
        } else {
          token, value := tokOption, retValue;
        }
      } else if nextChar == 'm' {
        token, value := LookFor("mul", Token.MUL, Some(v));
      } else if IsDigit(nextChar) {
        var n := GetNumber();
        token, value := Some(Token.Number), Some(n);
      } else {
        token, value := Some(Token.UNKNOWN), Some(v);
      }
    }
  }

  // ---------------------------------------------------------------------------
  // The parser
  // ---------------------------------------------------------------------------

  /** The handler functions of the transition table. */
  datatype Handler = ProcessSymbol | Consume | Complete | ProcessParam

  /** A transition: from `curr` on `tok` to `next`, handling the token with `func`. */
  datatype Entry = Entry(curr: State, tok: Token, next: State, func: Handler)

  /** The transition table built by `Parser::new`, in its order. */
  function Transitions(): seq<Entry>
  {
    [ Entry(State.Start, Token.MUL, State.MUL, ProcessSymbol),
      Entry(State.Start, Token.DO, State.DO, ProcessSymbol),
      Entry(State.DO, Token.LParen, State.LParen, Consume),
      Entry(State.Start, Token.DONT, State.DONT, ProcessSymbol),
      Entry(State.DONT, Token.LParen, State.LParen, Consume),
      Entry(State.MUL, Token.LParen, State.LParen, Consume),
      Entry(State.LParen, Token.RParen, State.Start, Complete),
      Entry(State.LParen, Token.Number, State.Param1, ProcessParam),
      Entry(State.Param1, Token.Comma, State.Comma, Consume),
      Entry(State.Comma, Token.Number, State.Param2, ProcessParam),
      Entry(State.Param2, Token.RParen, State.Start, Complete) ]
  }

  predicate IsKey(e: Entry, state: State, token: Token)
  {
    e.curr == state && e.tok == token
  }

  /** `find_entry`: the first entry of the table for this state and token. */
  function FindEntry(table: seq<Entry>, state: State, token: Token): (r: Option<Entry>)
    ensures r.None? <==> forall i :: 0 <= i < |table| ==> !IsKey(table[i], state, token)
    ensures r.Some? ==> r.value in table && IsKey(r.value, state, token)
  {
    if table == [] then None
    else if IsKey(table[0], state, token) then Some(table[0])
    else
      var r := FindEntry(table[1..], state, token);
      assert forall i :: 1 <= i < |table| ==> table[i] == table[1..][i - 1];
      r
  }

  /** No two entries of the table share a (state, token) key. */
  lemma TransitionKeysUnique()
    ensures forall i, j :: 0 <= i < j < |Transitions()| ==>
      !IsKey(Transitions()[j], Transitions()[i].curr, Transitions()[i].tok)
  {
  }

  /** The transition table read as a function of the state and the token. */
  function Lookup(state: State, token: Token): (r: Option<Entry>)
    ensures r.Some? ==> IsKey(r.value, state, token) && WellFormedEntry(r.value)
  {
    match state
    case Start =>
      if token == Token.MUL then Some(Entry(State.Start, Token.MUL, State.MUL, ProcessSymbol))
      else if token == Token.DO then Some(Entry(State.Start, Token.DO, State.DO, ProcessSymbol))
      else if token == Token.DONT then Some(Entry(State.Start, Token.DONT, State.DONT, ProcessSymbol))
      else None
    case MUL => if token == Token.LParen then Some(Entry(State.MUL, Token.LParen, State.LParen, Consume)) else None
    case DO => if token == Token.LParen then Some(Entry(State.DO, Token.LParen, State.LParen, Consume)) else None
    case DONT => if token == Token.LParen then Some(Entry(State.DONT, Token.LParen, State.LParen, Consume)) else None
    case LParen =>
      if token == Token.RParen then Some(Entry(State.LParen, Token.RParen, State.Start, Complete))
      else if token == Token.Number then Some(Entry(State.LParen, Token.Number, State.Param1, ProcessParam))
      else None
    case Param1 => if token == Token.Comma then Some(Entry(State.Param1, Token.Comma, State.Comma, Consume)) else None
    case Comma => if token == Token.Number then Some(Entry(State.Comma, Token.Number, State.Param2, ProcessParam)) else None
    case Param2 => if token == Token.RParen then Some(Entry(State.Param2, Token.RParen, State.Start, Complete)) else None
  }

  /** The first entry with the key is the one found. */
  lemma {:induction false} FindFirst(table: seq<Entry>, i: nat, state: State, token: Token)
    requires i < |table| && IsKey(table[i], state, token)
    requires forall j :: 0 <= j < i ==> !IsKey(table[j], state, token)
    ensures FindEntry(table, state, token) == Some(table[i])
    decreases i
  {
    if i > 0 {
      assert !IsKey(table[0], state, token);
      FindFirst(table[1..], i - 1, state, token);
    }
  }

  /** Searching the table finds exactly the transition `Lookup` names. */
  lemma LookupFindsEntry(state: State, token: Token)
    ensures FindEntry(Transitions(), state, token) == Lookup(state, token)
  {
    var t := Transitions();
    var i := KeyIndex(state, token);
    if i < |t| {
      FindFirst(t, i, state, token);
    }
  }

  /** The index of the (state, token) entry of the table, or the table's length. */
  function KeyIndex(state: State, token: Token): (i: nat)
    ensures i <= |Transitions()|
    ensures i < |Transitions()| ==> IsKey(Transitions()[i], state, token) && Lookup(state, token) == Some(Transitions()[i])
    ensures forall j :: 0 <= j < |Transitions()| && j != i ==> !IsKey(Transitions()[j], state, token)
    ensures i == |Transitions()| <==> Lookup(state, token).None?
  {
    match state
    case Start => if token == Token.MUL then 0 else if token == Token.DO then 1 else if token == Token.DONT then 3 else 11
    case MUL => if token == Token.LParen then 5 else 11
    case DO => if token == Token.LParen then 2 else 11
    case DONT => if token == Token.LParen then 4 else 11
    case LParen => if token == Token.RParen then 6 else if token == Token.Number then 7 else 11
    case Param1 => if token == Token.Comma then 8 else 11
    case Comma => if token == Token.Number then 9 else 11
    case Param2 => if token == Token.RParen then 10 else 11
  }

  /** Only a command name has a transition out of `Start`. */
  lemma StartTransitions(token: Token)
    ensures Lookup(State.Start, token).Some? <==> token == Token.MUL || token == Token.DO || token == Token.DONT
  {
  }

  /** What a handler did: whether the node is finished, and the node. */
  datatype Outcome = Outcome(complete: bool, node: Node)

  /** The handler functions: `process_symbol`, `consume`, `complete` and `process_param`. */
  function Handle(func: Handler, token: Token, value: string, state: State, node: Node): Outcome
    requires func == ProcessParam ==> (state == State.Param1 || state == State.Param2) && IsNumeral(value)
  {
    match func
    case ProcessSymbol => Outcome(false, node.(symbolName := token))
    case Consume => Outcome(false, node)
    case Complete => Outcome(true, node)
    case ProcessParam =>
      if state == State.Param1 then Outcome(false, node.(firstNumber := ParseNat(value)))
      else Outcome(false, node.(secondNumber := ParseNat(value)))
  }

  /** The parser's state after one token, and the node it finished, if any. */
  datatype Step = Step(state: State, node: Node, emitted: Option<Node>)

  /** A number token's text is a numeral: what `process_param` parses. */
  predicate SoundLexeme(l: Lexeme)
  {
    l.token == Token.Number ==> IsNumeral(l.value)
  }

  /** Only a number, read in `Param1` or `Param2`, goes to `process_param`. */
  predicate WellFormedEntry(e: Entry)
  {
    e.func == ProcessParam ==> e.tok == Token.Number && (e.next == State.Param1 || e.next == State.Param2)
  }

  function ApplyEntry(e: Entry, l: Lexeme, node: Node): Step
    requires WellFormedEntry(e) && e.tok == l.token && SoundLexeme(l)
  {
    var out := Handle(e.func, l.token, l.value, e.next, node);
    if out.complete then Step(e.next, NewNode(), Some(out.node)) else Step(e.next, out.node, None)
  }

  /**
   * One turn of the loop in `parse`: follow the transition for the token; when
   * there is none, restart from `Start` with a fresh node and try again; when
   * there is still none, skip the token.
   */
  function ParseStep(state: State, node: Node, l: Lexeme): (s: Step)
    requires SoundLexeme(l)
    ensures s.emitted.Some? ==> l.token == Token.RParen && (state == State.LParen || state == State.Param2)
    ensures s.emitted.Some? ==> s.state == State.Start && s.node == NewNode()
  {
    var e := Lookup(state, l.token);
    if e.Some? then ApplyEntry(e.value, l, node)
    else
      var e' := Lookup(State.Start, l.token);
      if e'.Some? then ApplyEntry(e'.value, l, NewNode()) else Step(State.Start, NewNode(), None)
  }

  /** A token with no transition and no transition from `Start` leaves the parser freshly reset. */
  lemma ParseStepSkips(state: State, node: Node, l: Lexeme)
    requires SoundLexeme(l)
    requires Lookup(state, l.token).None?
    requires l.token != Token.MUL && l.token != Token.DO && l.token != Token.DONT
    ensures ParseStep(state, node, l) == Step(State.Start, NewNode(), None)
  {
    StartTransitions(l.token);
  }

  /** Every lexeme the tokenizer produces is sound. */
  lemma ScanSound(input: string, pos: nat)
    requires pos < |input|
    ensures SoundLexeme(Scan(input, pos).value)
  {
    if IsDigit(input[pos]) {
      ScanNumber(input, pos);
    }
  }

  /** The nodes `parse` emits from position `pos`, in state `state` with node `node` under construction. */
  function ParseFrom(input: string, pos: nat, state: State, node: Node): seq<Node>
    requires pos <= |input|
    decreases |input| - pos
  {
    match Scan(input, pos)
    case None => []
    case Some(l) =>
      ScanSound(input, pos);
      var s := ParseStep(state, node, l);
      (if s.emitted.Some? then [s.emitted.value] else []) + ParseFrom(input, l.next, s.state, s.node)
  }

  /** One lexeme of the parse: the node it finishes, if any, followed by the nodes after it. */
  lemma ParseFromUnfold(input: string, pos: nat, state: State, node: Node, l: Lexeme)
    requires pos <= |input| && Scan(input, pos) == Some(l) && SoundLexeme(l)
    ensures var s := ParseStep(state, node, l);
      ParseFrom(input, pos, state, node) == (if s.emitted.Some? then [s.emitted.value] else []) + ParseFrom(input, l.next, s.state, s.node)
  {
  }

  /** The same, after the nodes `done` already emitted. */
  lemma ParseFromStep(input: string, pos: nat, state: State, node: Node, l: Lexeme, done: seq<Node>)
    requires pos <= |input| && Scan(input, pos) == Some(l) && SoundLexeme(l)
    ensures var s := ParseStep(state, node, l);
      s.emitted.Some? ==> done + ParseFrom(input, pos, state, node) == (done + [s.emitted.value]) + ParseFrom(input, l.next, s.state, s.node)
    ensures var s := ParseStep(state, node, l);
      s.emitted.None? ==> done + ParseFrom(input, pos, state, node) == done + ParseFrom(input, l.next, s.state, s.node)
  {
    ParseFromUnfold(input, pos, state, node, l);
    var s := ParseStep(state, node, l);
    var rest := ParseFrom(input, l.next, s.state, s.node);
    if s.emitted.Some? {
      assert done + ([s.emitted.value] + rest) == (done + [s.emitted.value]) + rest;
    } else {
      assert [] + rest == rest;
    }
  }

  /** The nodes of a whole text. */
  function ParseSpec(input: string): seq<Node>
  {
    ParseFrom(input, 0, State.Start, NewNode())
  }

  /** A node under construction away from `Start` already names its command. */
  predicate NodeInv(state: State, node: Node)
  {
    state != State.Start ==> node.symbolName in {Token.MUL, Token.DO, Token.DONT}
  }

  predicate IsCommand(n: Node)
  {
    n.symbolName == Token.MUL || n.symbolName == Token.DO || n.symbolName == Token.DONT
  }

  lemma ParseStepInv(state: State, node: Node, l: Lexeme)
    requires SoundLexeme(l) && NodeInv(state, node)
    ensures NodeInv(ParseStep(state, node, l).state, ParseStep(state, node, l).node)
    ensures ParseStep(state, node, l).emitted.Some? ==> IsCommand(ParseStep(state, node, l).emitted.value)
  {
    if Lookup(state, l.token).None? {
      StartTransitions(l.token);
    }
  }

  /** Every node the parser emits is a `mul`, a `do` or a `don't`. */
  lemma {:induction false} ParseFromCommands(input: string, pos: nat, state: State, node: Node)
    requires pos <= |input| && NodeInv(state, node)
    ensures forall k :: 0 <= k < |ParseFrom(input, pos, state, node)| ==> IsCommand(ParseFrom(input, pos, state, node)[k])
    decreases |input| - pos
  {
    if pos < |input| {
      var l := Scan(input, pos).value;
      ScanSound(input, pos);
      var s := ParseStep(state, node, l);
      ParseStepInv(state, node, l);
      ParseFromCommands(input, l.next, s.state, s.node);
    }
  }

  lemma ParseSpecCommands(input: string)
    ensures forall k :: 0 <= k < |ParseSpec(input)| ==> IsCommand(ParseSpec(input)[k])
  {
    ParseFromCommands(input, 0, State.Start, NewNode());
  }

  /** The punctuation of `"mul(123,456)"`. */
  lemma ExamplePunctuation()
    ensures Scan("mul(123,456)", 0) == Some(Lexeme(Token.MUL, "mul", 3))
    ensures Scan("mul(123,456)", 3) == Some(Lexeme(Token.LParen, "(", 4))
    ensures Scan("mul(123,456)", 7) == Some(Lexeme(Token.Comma, ",", 8))
    ensures Scan("mul(123,456)", 11) == Some(Lexeme(Token.RParen, ")", 12))
    ensures Scan("mul(123,456)", 12) == None
  {
    assert Matches("mul(123,456)", 0, "mul");
  }

  /** The first number of `"mul(123,456)"`. */
  lemma ExampleFirstNumber()
    ensures Scan("mul(123,456)", 4) == Some(Lexeme(Token.Number, "123", 7))
  {
    var s := "mul(123,456)";
    assert DigitRun(s[4..]) == 3 by { assert DigitRun(s[7..]) == 0; }
    assert s[4..7] == "123";
  }

  /** The second number of `"mul(123,456)"`. */
  lemma ExampleSecondNumber()
    ensures Scan("mul(123,456)", 8) == Some(Lexeme(Token.Number, "456", 11))
  {
    var s := "mul(123,456)";
    assert DigitRun(s[8..]) == 3 by { assert DigitRun(s[11..]) == 0; }
    assert s[8..11] == "456";
  }

  /** The two numerals of `"mul(123,456)"`. */
  lemma ExampleValues()
    ensures ParseNat("123") == 123 && ParseNat("456") == 456
  {
    assert ParseNat("12") == 12;
    assert ParseNat("45") == 45;
  }

  /** The parser's moves on the command name and the punctuation of `"mul(123,456)"`. */
  lemma ExampleSymbolSteps()
    ensures ParseStep(State.Start, NewNode(), Lexeme(Token.MUL, "mul", 3)) == Step(State.MUL, Node(Token.MUL, 0, 0), None)
    ensures ParseStep(State.MUL, Node(Token.MUL, 0, 0), Lexeme(Token.LParen, "(", 4)) == Step(State.LParen, Node(Token.MUL, 0, 0), None)
    ensures ParseStep(State.Param1, Node(Token.MUL, 123, 0), Lexeme(Token.Comma, ",", 8)) == Step(State.Comma, Node(Token.MUL, 123, 0), None)
    ensures ParseStep(State.Param2, Node(Token.MUL, 123, 456), Lexeme(Token.RParen, ")", 12)) == Step(State.Start, NewNode(), Some(Node(Token.MUL, 123, 456)))
  {
  }

  /** The parser's moves on the numbers of `"mul(123,456)"`. */
  lemma ExampleNumberSteps()
    ensures ParseStep(State.LParen, Node(Token.MUL, 0, 0), Lexeme(Token.Number, "123", 7)) == Step(State.Param1, Node(Token.MUL, 123, 0), None)
    ensures ParseStep(State.Comma, Node(Token.MUL, 123, 0), Lexeme(Token.Number, "456", 11)) == Step(State.Param2, Node(Token.MUL, 123, 456), None)
  {
    ExampleValues();
  }

  /** `"mul(123,456)"` parses to exactly one `mul` node holding 123 and 456. */
  lemma ParseExample()
    ensures ParseSpec("mul(123,456)") == [Node(Token.MUL, 123, 456)]
  {
    var s := "mul(123,456)";
    ExamplePunctuation();
    ExampleFirstNumber();
    ExampleSecondNumber();
    ExampleSymbolSteps();
    ExampleNumberSteps();
    var n1 := Node(Token.MUL, 0, 0);
    var n2 := Node(Token.MUL, 123, 0);
    var n3 := Node(Token.MUL, 123, 456);
    assert ParseFrom(s, 12, State.Start, NewNode()) == [];
    assert ParseFrom(s, 11, State.Param2, n3) == [n3];
    assert ParseFrom(s, 8, State.Comma, n2) == [n3];
    assert ParseFrom(s, 7, State.Param1, n2) == [n3];
    assert ParseFrom(s, 4, State.LParen, n1) == [n3];
    assert ParseFrom(s, 3, State.MUL, n1) == [n3];
  }

  /** The parser: its transition table, the text, and the nodes found so far. */
  class Parser {
    const transitions: seq<Entry>
    const input: string
    var nodes: seq<Node>

    /** `Parser::new`: the fixed table and no nodes yet. */
    constructor(input: string)
      ensures transitions == Transitions() && this.input == input && nodes == []
    {
      transitions := Transitions();
      this.input := input;
      nodes := [];
    }

    /** `parse`: run the tokenizer through the table, appending each finished node. */
    method Parse() returns (result: seq<Node>)
      requires transitions == Transitions()
      modifies this
      ensures nodes == old(nodes) + ParseSpec(input) && result == nodes
    {
      var currNode := NewNode();
      var currState := State.Start;
      var tokenizer := new Tokenizer(input);
      while true
        invariant tokenizer.Valid() && tokenizer.input == input
        invariant old(nodes) + ParseSpec(input) == nodes + ParseFrom(input, tokenizer.currPos, currState, currNode)
        decreases |input| - tokenizer.currPos
      {
        ghost var pos := tokenizer.currPos;
        var nextToken, nextValue := tokenizer.Get();
        if nextToken.None? {
          break;
        }
        ScanSound(input, pos);
        ParseFromStep(input, pos, currState, currNode, Scan(input, pos).value, nodes);
        var emitted;
        currState, currNode, emitted := Advance(currState, currNode, nextToken.value, nextValue.value, Scan(input, pos).value);
        if emitted.Some? {
          nodes := nodes + [emitted.value];
        }
      }
      result := nodes;
    }

    /** One turn of the loop in `parse`: the new state, the new node, and the node finished, if any. */
    method Advance(state: State, node: Node, token: Token, value: string, ghost l: Lexeme)
      returns (newState: State, newNode: Node, emitted: Option<Node>)
      requires transitions == Transitions()
      requires l.token == token && l.value == value && SoundLexeme(l)
      ensures var s := ParseStep(state, node, l);
        newState == s.state && newNode == s.node && emitted == s.emitted
    {
      LookupFindsEntry(state, token);
      LookupFindsEntry(State.Start, token);
      var currState, currNode := state, node;
      var entry := FindTransition(currState, token);
      if entry.None? {
        currState := State.Start;
        currNode := NewNode();
        entry := FindTransition(currState, token);
        if entry.None? {
          return currState, currNode, None;
        }
      }
      var e := entry.value;
      var out := Handle(e.func, token, value, e.next, currNode);
      newState := e.next;
      if out.complete {
        newNode, emitted := NewNode(), Some(out.node);
      } else {
        newNode, emitted := out.node, None;
      }
    }

    /** `find_entry`: the first transition of the table for this state and token. */
    method FindTransition(state: State, token: Token) returns (entry: Option<Entry>)
      ensures entry == FindEntry(transitions, state, token)
    {
      for i := 0 to |transitions|
        invariant forall j :: 0 <= j < i ==> !IsKey(transitions[j], state, token)
      {
        if transitions[i].curr == state && transitions[i].tok == token {
          FindFirst(transitions, i, state, token);
          return Some(transitions[i]);
        }
      }
      return None;
    }
  }

  /** The sum of the products of the `mul` nodes. */
  function SumMul(nodes: seq<Node>): nat
  {
    if nodes == [] then 0
    else
      var n := nodes[|nodes| - 1];
      SumMul(nodes[..|nodes| - 1]) + (if n.symbolName == Token.MUL then n.firstNumber * n.secondNumber else 0)
  }

  /** `part_one`: the sum of the products of every `mul` command. */
  method PartOne(input: string) returns (r: Option<nat>)
    ensures r == Some(SumMul(ParseSpec(input)))
  {
    var parser := new Parser(input);
    var nodes := parser.Parse();
    var sum := 0;
    for i := 0 to |nodes|
      invariant sum == SumMul(nodes[..i])
    {
      TakeTake(nodes, i);
      var node := nodes[i];
      if node.symbolName == Token.MUL {
        sum := sum + node.firstNumber * node.secondNumber;
      }
    }
    assert nodes[..|nodes|] == nodes;
    r := Some(sum);
  }

  /** The running sum of part two and whether the `mul`s are switched off, after some nodes. */
  datatype Tally = Tally(sum: nat, disabled: bool)

  function Gated(nodes: seq<Node>): Tally
  {
    if nodes == [] then Tally(0, false)
    else
      var t := Gated(nodes[..|nodes| - 1]);
      var n := nodes[|nodes| - 1];
      if n.symbolName == Token.DO then t.(disabled := false)
      else if n.symbolName == Token.DONT then t.(disabled := true)
      else if n.symbolName == Token.MUL && !t.disabled then t.(sum := t.sum + n.firstNumber * n.secondNumber)
      else t
  }

  /** The `mul`s are switched on: no `don't` yet, or a `do` after the latest `don't`. */
  predicate Enabled(nodes: seq<Node>)
  {
    forall j :: 0 <= j < |nodes| && nodes[j].symbolName == Token.DONT ==>
      exists k :: j < k < |nodes| && nodes[k].symbolName == Token.DO
  }

  /** The switch tracked by part two is the one `Enabled` describes. */
  lemma {:induction false} GatedDisabled(nodes: seq<Node>)
    ensures Gated(nodes).disabled <==> !Enabled(nodes)
    decreases |nodes|
  {
    if nodes != [] {
      var front := nodes[..|nodes| - 1];
      var n := nodes[|nodes| - 1];
      GatedDisabled(front);
      if n.symbolName == Token.DO {
        assert Enabled(nodes) by {
          forall j | 0 <= j < |nodes| && nodes[j].symbolName == Token.DONT
            ensures exists k :: j < k < |nodes| && nodes[k].symbolName == Token.DO
          {
            assert nodes[|nodes| - 1].symbolName == Token.DO;
          }
        }
      } else if n.symbolName == Token.DONT {
        assert !Enabled(nodes) by {
          var j := |nodes| - 1;
          assert nodes[j].symbolName == Token.DONT;
        }
      } else {
        if Enabled(nodes) {
          forall j | 0 <= j < |front| && front[j].symbolName == Token.DONT
            ensures exists k :: j < k < |front| && front[k].symbolName == Token.DO
          {
            assert nodes[j].symbolName == Token.DONT;
            var k :| j < k < |nodes| && nodes[k].symbolName == Token.DO;
            assert front[k].symbolName == Token.DO;
          }
        }
        if Enabled(front) {
          forall j | 0 <= j < |nodes| && nodes[j].symbolName == Token.DONT
            ensures exists k :: j < k < |nodes| && nodes[k].symbolName == Token.DO
          {
            assert front[j].symbolName == Token.DONT;
            var k :| j < k < |front| && front[k].symbolName == Token.DO;
            assert nodes[k].symbolName == Token.DO;
          }
        }
      }
    }
  }

  /** Without any `don't`, part two counts every `mul`, like part one. */
  lemma {:induction false} GatedWithoutDont(nodes: seq<Node>)
    requires forall k :: 0 <= k < |nodes| ==> nodes[k].symbolName != Token.DONT
    ensures Gated(nodes).sum == SumMul(nodes) && !Gated(nodes).disabled
    decreases |nodes|
  {
    if nodes != [] {
      GatedWithoutDont(nodes[..|nodes| - 1]);
    }
  }

  /** Part two never exceeds part one. */
  lemma {:induction false} GatedAtMost(nodes: seq<Node>)
    ensures Gated(nodes).sum <= SumMul(nodes)
    decreases |nodes|
  {
    if nodes != [] {
      GatedAtMost(nodes[..|nodes| - 1]);
    }
  }

  /** `part_two`: the sum of the products of the `mul`s that are switched on. */
  method PartTwo(input: string) returns (r: Option<nat>)
    ensures r == Some(Gated(ParseSpec(input)).sum)
  {
    var parser := new Parser(input);
    var nodes := parser.Parse();
    ParseSpecCommands(input);
    var sum: nat := 0;
    var disabled := false;
    for i := 0 to |nodes|
      invariant Tally(sum, disabled) == Gated(nodes[..i])
    {
      TakeTake(nodes, i);
      var node := nodes[i];
      assert IsCommand(node);
      match node.symbolName
      case DO => disabled := false;
      case DONT => disabled := true;
      case MUL =>
        if !disabled {
          sum := sum + node.firstNumber * node.secondNumber;
        }
      case _ => assert false;
    }
    assert nodes[..|nodes|] == nodes;
    r := Some(sum);
  }
}
