/**
  The prototype parser declared in `Main.kt` (lines 127-217): a token list
  without EOF, a `match` that reports nothing, and one `parse` loop that
  folds all four operators left at a single level over NUMBER operands.

  `peek` past the end returns the list's last element, so a list ending in
  an operator can keep the loop going forever; the model returns that case
  as an outcome and proves the loop would repeat.
 */
module PrototypeParser {
  import opened Wrappers
  import opened Text
  import opened ClassicTokens
  import opened PrototypeTokenizer

  /** `NumberExpressionSyntaxNode` and `BinaryExpressionSyntaxNode`. */
  datatype ExpressionNode =
    | NumberExpression(numberToken: Token)
    | BinaryExpression(left: ExpressionNode, operatorToken: Token, right: ExpressionNode)

  /** Whether `init` keeps a token: WHITESPACE and BAD_TOKEN are dropped, and EOF ends the loop unkept. */
  predicate Kept(t: Token)
  {
    t.kind != Whitespace && t.kind != BadToken && t.kind != Eof
  }

  /** The kept tokens of `ts`, in order. */
  function Retained(ts: seq<Token>): (r: seq<Token>)
    ensures |r| <= |ts|
  {
    if ts == [] then []
    else Retained(ts[..|ts| - 1]) + if Kept(ts[|ts| - 1]) then [ts[|ts| - 1]] else []
  }

  /** The kept tokens are exactly the members of `ts` that `Kept` accepts. */
  lemma {:induction false} RetainedMembers(ts: seq<Token>)
    ensures forall t :: t in Retained(ts) ==> t in ts && Kept(t)
    ensures forall t :: t in ts && Kept(t) ==> t in Retained(ts)
    decreases |ts|
  {
    if ts != [] {
      var init := ts[..|ts| - 1];
      assert ts == init + [ts[|ts| - 1]];
      RetainedMembers(init);
    }
  }

  /** What `init` leaves behind, or the tokenizer's exception. */
  datatype TokenList =
    | TokenList(tokens: seq<Token>)
    | TokenFault(fault: LexFault)

  function TokenListOf(text: string): TokenList
  {
    match TokenStream(text, 0)
    case Stream(ts) => TokenList(Retained(ts))
    case StreamFault(f) => TokenFault(f)
  }

  /** The list `init` ends with, given the tokens `seen` so far and the calls still to come. */
  function ListAfter(seen: seq<Token>, rest: Stream): TokenList
  {
    match rest
    case Stream(ts) => TokenList(Retained(seen + ts))
    case StreamFault(f) => TokenFault(f)
  }

  /** One `nextToken` call short of EOF moves its token from the calls to come to the tokens seen. */
  lemma ListAfterStep(text: string, start: nat, seen: seq<Token>)
    requires start <= |text|
    requires ScanToken(text, start).Scanned? && ScanToken(text, start).token.kind != Eof
    ensures var s := ScanToken(text, start);
      ListAfter(seen, TokenStream(text, start)) == ListAfter(seen + [s.token], TokenStream(text, s.next))
  {
    var s := ScanToken(text, start);
    match TokenStream(text, s.next)
    case StreamFault(_) =>
    case Stream(rest) =>
      assert seen + ([s.token] + rest) == (seen + [s.token]) + rest;
  }

  /**
    The loop of `init`: calls `nextToken` until EOF and keeps the tokens
    the parser reads, which leaves EOF out.
   */
  method CreateTokenList(text: string) returns (r: TokenList)
    ensures r == TokenListOf(text)
  {
    var tokenizer := new Tokenizer(text);
    var tokenList: seq<Token> := [];
    ghost var seen: seq<Token> := [];
    ghost var start: nat := 0;
    var token := tokenizer.NextToken();
    if TokenStream(text, 0).Stream? {
      assert seen + TokenStream(text, 0).tokens == TokenStream(text, 0).tokens;
    }
    while token.Success? && token.value.kind != Eof
      invariant tokenizer.text == text && start <= |text| && tokenizer.position <= |text|
      invariant TokenListOf(text) == ListAfter(seen, TokenStream(text, start))
      invariant match ScanToken(text, start)
        case Scanned(t, next) => token == Success(t) && tokenizer.position == next
        case Faulted(f) => token == Failure(f)
      invariant tokenList == Retained(seen)
      decreases |text| - start
    {
      if Kept(token.value) {
        tokenList := tokenList + [token.value];
      }
      assert Retained(seen + [token.value]) == tokenList by {
        assert (seen + [token.value])[..|seen|] == seen;
      }
      ListAfterStep(text, start, seen);
      seen := seen + [token.value];
      start := tokenizer.position;
      token := tokenizer.NextToken();
    }
    if token.Failure? {
      return TokenFault(token.error);
    }
    assert Retained(seen + [token.value]) == tokenList by {
      assert (seen + [token.value])[..|seen|] == seen;
    }
    return TokenList(tokenList);
  }

  /** The operators of the `parse` loop. */
  predicate IsOperator(kind: TokenKind)
  {
    kind == Plus || kind == Minus || kind == Times || kind == Slash
  }

  /** `peek(0)` with the cursor at `pos`: past the end it is the last token (`tokens.last()`). */
  function PeekAt(ts: seq<Token>, pos: nat): Token
    requires |ts| > 0
  {
    if pos >= |ts| then ts[|ts| - 1] else ts[pos]
  }

  /** The result of `match`: the token it returns and the new cursor. */
  datatype Matched = Matched(token: Token, next: nat)

  /**
    `match(tokenType)`: the current token, consumed, when it has the expected
    kind; otherwise a NUL token of the expected kind at the current token's
    position, with the cursor left where it was and nothing reported.
   */
  function Match(ts: seq<Token>, pos: nat, expected: TokenKind): (m: Matched)
    requires |ts| > 0
    ensures m.token.kind == expected && m.token.position == PeekAt(ts, pos).position
    ensures m.next == pos + 1 <==> PeekAt(ts, pos).kind == expected
    ensures m.next == pos <==> PeekAt(ts, pos).kind != expected
    ensures PeekAt(ts, pos).kind == expected ==> m.token == PeekAt(ts, pos)
    ensures PeekAt(ts, pos).kind != expected ==> m.token.text == [Nul] && m.token.value == None
  {
    var current := PeekAt(ts, pos);
    if current.kind == expected then Matched(current, pos + 1)
    else Matched(Token(expected, current.position, [Nul], None), pos)
  }

  /** A parsed operand and the cursor after it. */
  datatype Parsed = Parsed(node: ExpressionNode, next: nat)

  /** `parseNextExpression`: `match(NUMBER)` wrapped in a literal; it never reports anything. */
  function NextExpression(ts: seq<Token>, pos: nat): (r: Parsed)
    requires |ts| > 0
    ensures r.node.NumberExpression? && r.node.numberToken.kind == Number
    ensures r.next == pos + 1 <==> PeekAt(ts, pos).kind == Number
    ensures r.next == pos <==> PeekAt(ts, pos).kind != Number
  {
    var number := Match(ts, pos, Number);
    Parsed(NumberExpression(number.token), number.next)
  }

  /** How `parse` ends: with a tree and the cursor after it, or never. */
  datatype Outcome =
    | Finished(node: ExpressionNode, next: nat)
    /** The loop reached the final operator at `position` and repeats from there forever. */
    | NeverEnds(position: nat)

  /**
    The `while` loop of `parse` from cursor `pos` with the tree `left` so far:
    an operator and the operand after it are folded onto `left`.
   */
  function Loop(ts: seq<Token>, pos: nat, left: ExpressionNode): (r: Outcome)
    requires |ts| > 0 && pos <= |ts|
    ensures r.Finished? ==> pos <= r.next <= |ts| && !IsOperator(PeekAt(ts, r.next).kind)
    decreases |ts| - pos
  {
    if !IsOperator(PeekAt(ts, pos).kind) then
      Finished(left, pos)
    else if pos >= |ts| - 1 then
      NeverEnds(pos)
    else
      var right := NextExpression(ts, pos + 1);
      Loop(ts, right.next, BinaryExpression(left, ts[pos], right.node))
  }

  /** `parse`: an operand, then the loop. */
  function ParseTokens(ts: seq<Token>): Outcome
    requires |ts| > 0
  {
    var first := NextExpression(ts, 0);
    Loop(ts, first.next, first.node)
  }

  /**
    Why `NeverEnds` means the Kotlin loop never ends: it is only reached at
    or past the final token, that token is an operator, and from any such
    cursor a round consumes one position, re-reads the operator as its
    operand's mismatch, and finds the operator again at the loop test.
   */
  lemma NeverEndsRepeats(ts: seq<Token>, pos: nat, left: ExpressionNode)
    requires |ts| > 0 && pos <= |ts|
    requires Loop(ts, pos, left).NeverEnds?
    ensures var p := Loop(ts, pos, left).position;
      p >= |ts| - 1 && IsOperator(ts[|ts| - 1].kind) &&
      forall q :: q >= p ==> IsOperator(PeekAt(ts, q).kind) && NextExpression(ts, q + 1).next == q + 1
  {
    NeverEndsAtFinalOperator(ts, pos, left);
    FinalOperatorRepeats(ts, Loop(ts, pos, left).position);
  }

  /** `NeverEnds` is reported at or past the final token, and that token is an operator. */
  lemma {:induction false} NeverEndsAtFinalOperator(ts: seq<Token>, pos: nat, left: ExpressionNode)
    requires |ts| > 0 && pos <= |ts|
    requires Loop(ts, pos, left).NeverEnds?
    ensures Loop(ts, pos, left).position >= |ts| - 1 && IsOperator(ts[|ts| - 1].kind)
    decreases |ts| - pos
  {
    if IsOperator(PeekAt(ts, pos).kind) && pos < |ts| - 1 {
      var right := NextExpression(ts, pos + 1);
      NeverEndsAtFinalOperator(ts, right.next, BinaryExpression(left, ts[pos], right.node));
    } else {
      assert PeekAt(ts, pos) == ts[|ts| - 1];
    }
  }

  /** From a cursor at or past a final operator, every round reads that operator and consumes nothing. */
  lemma FinalOperatorRepeats(ts: seq<Token>, p: nat)
    requires |ts| > 0 && p >= |ts| - 1 && IsOperator(ts[|ts| - 1].kind)
    ensures forall q :: q >= p ==> IsOperator(PeekAt(ts, q).kind) && NextExpression(ts, q + 1).next == q + 1
  {
    forall q | q >= p
      ensures IsOperator(PeekAt(ts, q).kind) && NextExpression(ts, q + 1).next == q + 1
    {
      assert PeekAt(ts, q + 1) == PeekAt(ts, q) == ts[|ts| - 1];
    }
  }

  /** Every token from `pos` on is a NUMBER or an operator, and no two NUMBERs are adjacent. */
  predicate AlternatesFrom(ts: seq<Token>, pos: nat)
  {
    (forall i :: pos <= i < |ts| ==> ts[i].kind == Number || IsOperator(ts[i].kind)) &&
    (forall i :: pos <= i < |ts| - 1 ==> ts[i].kind != Number || ts[i + 1].kind != Number)
  }

  /** The loop from `pos` runs forever exactly when it reads the rest of the list and that ends in an operator. */
  lemma {:induction false} LoopNeverEndsExactly(ts: seq<Token>, pos: nat, left: ExpressionNode)
    requires |ts| > 0 && pos <= |ts|
    ensures Loop(ts, pos, left).NeverEnds? <==>
      (pos >= |ts| || IsOperator(ts[pos].kind)) && AlternatesFrom(ts, pos) && IsOperator(ts[|ts| - 1].kind)
    decreases |ts| - pos
  {
    if IsOperator(PeekAt(ts, pos).kind) && pos < |ts| - 1 {
      var right := NextExpression(ts, pos + 1);
      LoopNeverEndsExactly(ts, right.next, BinaryExpression(left, ts[pos], right.node));
      if ts[pos + 1].kind == Number && pos + 2 < |ts| {
        assert AlternatesFrom(ts, pos) ==> ts[pos + 2].kind != Number;
      }
    }
  }

  /**
    `parse` runs forever exactly when the whole list alternates between
    NUMBERs and operators and ends in an operator: "1 +" never ends, while
    "1 2 +" stops before the 2.
   */
  lemma NeverEndsExactly(ts: seq<Token>)
    requires |ts| > 0
    ensures ParseTokens(ts).NeverEnds? <==> AlternatesFrom(ts, 0) && IsOperator(ts[|ts| - 1].kind)
  {
    var first := NextExpression(ts, 0);
    LoopNeverEndsExactly(ts, first.next, first.node);
    if ts[0].kind == Number && 1 < |ts| {
      assert AlternatesFrom(ts, 0) ==> ts[1].kind != Number;
    }
  }

  /** `2 + 3 * 4`: all four operators share one level, so the product takes the sum as its left operand. */
  lemma OneLevelFoldsLeft(a: Token, plus: Token, b: Token, times: Token, c: Token)
    requires a.kind == Number && b.kind == Number && c.kind == Number
    requires plus.kind == Plus && times.kind == Times
    ensures ParseTokens([a, plus, b, times, c])
      == Finished(BinaryExpression(BinaryExpression(NumberExpression(a), plus, NumberExpression(b)), times, NumberExpression(c)), 5)
  {
    var ts := [a, plus, b, times, c];
    assert Loop(ts, 3, BinaryExpression(NumberExpression(a), plus, NumberExpression(b)))
      == Finished(BinaryExpression(BinaryExpression(NumberExpression(a), plus, NumberExpression(b)), times, NumberExpression(c)), 5);
  }

  /** `1 2 +`: the loop test meets the second NUMBER and stops, leaving `2 +` unread. */
  lemma StopsBeforeSecondNumber(one: Token, two: Token, plus: Token)
    requires one.kind == Number && two.kind == Number && plus.kind == Plus
    ensures ParseTokens([one, two, plus]) == Finished(NumberExpression(one), 1)
  {
  }

  /** `Parser`: a cursor over the token list. */
  class Parser {
    const tokens: seq<Token>
    var position: nat

    /** The state `init` leaves for a non-empty list. */
    constructor(tokens: seq<Token>)
      requires |tokens| > 0
      ensures this.tokens == tokens && position == 0
    {
      this.tokens := tokens;
      position := 0;
    }

    function Peek(offset: nat): Token
      reads this
      requires |tokens| > 0
    {
      PeekAt(tokens, position + offset)
    }

    function Current(): Token
      reads this
      requires |tokens| > 0
    {
      Peek(0)
    }

    /** `nextToken`: the current token, with the cursor moved past it. */
    method NextToken() returns (t: Token)
      requires |tokens| > 0
      modifies this
      ensures t == old(Current()) && position == old(position) + 1
    {
      t := Current();
      position := position + 1;
    }

    /** `match`. */
    method MatchToken(kind: TokenKind) returns (t: Token)
      requires |tokens| > 0
      modifies this
      ensures var m := Match(tokens, old(position), kind); t == m.token && position == m.next
    {
      if Current().kind == kind {
        t := NextToken();
        return;
      }
      t := Token(kind, Current().position, [Nul], None);
    }

    /** `parseNextExpression`. */
    method ParseNextExpression() returns (node: ExpressionNode)
      requires |tokens| > 0
      modifies this
      ensures var r := NextExpression(tokens, old(position)); node == r.node && position == r.next
    {
      var numberToken := MatchToken(Number);
      node := NumberExpression(numberToken);
    }

    /**
      `parse`. Where the Kotlin loop would go on forever, at the final
      operator, the method stops and returns `NeverEnds`.
     */
    method Parse() returns (r: Outcome)
      requires |tokens| > 0 && position == 0
      modifies this
      ensures r == ParseTokens(tokens)
      ensures r.Finished? ==> position == r.next
    {
      var leftSide := ParseNextExpression();
      while IsOperator(Current().kind) && position < |tokens| - 1
        invariant position <= |tokens|
        invariant Loop(tokens, position, leftSide) == ParseTokens(tokens)
        decreases |tokens| - position
      {
        var operatorToken := NextToken();
        var rightSide := ParseNextExpression();
        leftSide := BinaryExpression(leftSide, operatorToken, rightSide);
      }
      if IsOperator(Current().kind) {
        return NeverEnds(position);
      }
      return Finished(leftSide, position);
    }
  }

  /** The outcome of `Parser(text).parse()`. */
  datatype ParseOutcome =
    | ParsedTree(root: ExpressionNode)
    | LexFailed(fault: LexFault)
    /** No token was kept, so the first `peek` calls `last()` on an empty list and throws. */
    | EmptyTokenList
    | ParseNeverEnds(position: nat)

  function ParseOf(text: string): ParseOutcome
  {
    match TokenListOf(text)
    case TokenFault(f) => LexFailed(f)
    case TokenList(ts) =>
      if ts == [] then EmptyTokenList
      else
        match ParseTokens(ts)
        case Finished(node, _) => ParsedTree(node)
        case NeverEnds(p) => ParseNeverEnds(p)
  }

  /** `Parser(text).parse()`: the token list of `init`, then `parse`. */
  method ParseText(text: string) returns (r: ParseOutcome)
    ensures r == ParseOf(text)
  {
    var list := CreateTokenList(text);
    match list {
      case TokenFault(f) =>
        return LexFailed(f);
      case TokenList(ts) =>
        if ts == [] {
          return EmptyTokenList;
        }
        var parser := new Parser(ts);
        var outcome := parser.Parse();
        match outcome {
          case Finished(node, _) => return ParsedTree(node);
          case NeverEnds(p) => return ParseNeverEnds(p);
        }
    }
  }

  /** `@`: a lone bad character leaves no token, so parsing throws at once. */
  lemma LoneBadCharacter()
    ensures ParseOf("@") == EmptyTokenList
  {
    assert ScanToken("@", 0) == Scanned(Token(BadToken, 0, "@", None), 1) by {
      BadCharacterToken("@", 0);
    }
    assert TokenStream("@", 0) == Stream([Token(BadToken, 0, "@", None), Token(Eof, 1, [Nul], None)]);
  }
}
