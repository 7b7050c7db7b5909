/**
  The arithmetic pipeline's `Parser` class (`arithmeticSyntax/Parser.kt`):
  `createTokenList`, which its `init` block runs, and the recursive descent
  with its `get...SyntaxNode` builders, proved equal to the functions of
  `ArithGrammar`.
 */
module ArithParser {
  import opened Wrappers
  import opened ArithTokens
  import opened ArithRules
  import opened ArithTokenizer
  import opened ArithGrammar

  /** Whether `createTokenList` keeps a token: WHITESPACE and BAD_TOKEN are dropped. */
  predicate Kept(t: Token)
  {
    t.kind != Whitespace && t.kind != BadToken
  }

  /** The kept tokens of `ts`, in order. */
  function Retained(ts: seq<Token>): (r: seq<Token>)
    ensures |r| <= |ts|
  {
    if ts == [] then []
    else Retained(ts[..|ts| - 1]) + if Kept(ts[|ts| - 1]) then [ts[|ts| - 1]] else []
  }

  /** The kept tokens are exactly the members of `ts` that `Kept` accepts. */
  lemma {:induction false} RetainedMembers(ts: seq<Token>)
    ensures forall t :: t in Retained(ts) ==> t in ts && Kept(t)
    ensures forall t :: t in ts && Kept(t) ==> t in Retained(ts)
    decreases |ts|
  {
    if ts != [] {
      var init := ts[..|ts| - 1];
      assert ts == init + [ts[|ts| - 1]];
      RetainedMembers(init);
    }
  }

  /** What `createTokenList` leaves behind, or the tokenizer's exception. */
  datatype TokenList =
    | TokenList(tokens: seq<Token>, diagnostics: seq<Diagnostic>)
    | TokenFault(fault: LexFault)

  /** The kept tokens of the whole stream, its EOF included, and the tokenizer's diagnostics. */
  function TokenListOf(text: string): TokenList
  {
    match TokenStream(text, 0)
    case Stream(ts, ds) => TokenList(Retained(ts), ds)
    case StreamFault(f) => TokenFault(f)
  }

  /**
    The list `createTokenList` builds has no WHITESPACE or BAD_TOKEN entry and
    ends with exactly one EOF, at or just past the end of the text.
   */
  lemma TokenListShape(text: string)
    ensures var list := TokenListOf(text);
      list.TokenList? ==>
        WellFormed(list.tokens) &&
        (forall t :: t in list.tokens ==> Kept(t)) &&
        |text| <= list.tokens[|list.tokens| - 1].position <= |text| + 1
  {
    StreamShape(text, 0);
    var s := TokenStream(text, 0);
    if s.Stream? {
      var ts := s.tokens;
      var init := ts[..|ts| - 1];
      assert ts == init + [ts[|ts| - 1]];
      RetainedAppend(init, ts[|ts| - 1]);
      RetainedAvoids(init, Eof);
      RetainedMembers(ts);
    }
  }

  /** One round of the loop: the scanned token moves from the unread stream to `seen`, and to the list if kept. */
  lemma ListStep(text: string, start: nat, seen: seq<Token>, before: seq<Diagnostic>, kept: seq<Token>)
    requires start <= |text| + 1
    requires TokenStream(text, 0) == PrependAll(seen, before, TokenStream(text, start))
    requires kept == Retained(seen)
    requires ScanToken(text, start).Scanned? && ScanToken(text, start).token.kind != Eof
    ensures var scan := ScanToken(text, start);
      scan.next <= |text| + 1 &&
      TokenStream(text, 0) == PrependAll(seen + [scan.token], before + scan.diagnostics, TokenStream(text, scan.next)) &&
      (Kept(scan.token) ==> Retained(seen + [scan.token]) == kept + [scan.token]) &&
      (!Kept(scan.token) ==> Retained(seen + [scan.token]) == kept)
  {
    var scan := ScanToken(text, start);
    StreamStep(text, start, scan.token, scan.next, scan.diagnostics);
    PrependAllTwice(seen, before, [scan.token], scan.diagnostics, TokenStream(text, scan.next));
    RetainedAppend(seen, scan.token);
  }

  /** A kept token appended to the stream is appended to the list. */
  lemma RetainedAppend(ts: seq<Token>, t: Token)
    ensures Kept(t) ==> Retained(ts + [t]) == Retained(ts) + [t]
    ensures !Kept(t) ==> Retained(ts + [t]) == Retained(ts)
  {
    var s := ts + [t];
    assert s[..|s| - 1] == ts;
    assert s[|s| - 1] == t;
  }

  /** A kind no token of the stream has is a kind no kept token has. */
  lemma RetainedAvoids(ts: seq<Token>, k: TokenKind)
    requires forall i :: 0 <= i < |ts| ==> ts[i].kind != k
    ensures forall i :: 0 <= i < |Retained(ts)| ==> Retained(ts)[i].kind != k
  {
    RetainedMembers(ts);
    forall i | 0 <= i < |Retained(ts)|
      ensures Retained(ts)[i].kind != k
    {
      var t := Retained(ts)[i];
      assert t in ts;
      var j :| 0 <= j < |ts| && ts[j] == t;
    }
  }

  /**
    `createTokenList`: calls `nextToken` until EOF, keeping the tokens the
    parser reads; the parser's diagnostics start as the tokenizer's.
   */
  method CreateTokenList(text: string) returns (r: TokenList)
    ensures r == TokenListOf(text)
  {
    var tokenizer := new Tokenizer(text);
    var tokenList: seq<Token> := [];
    ghost var seen: seq<Token> := [];
    ghost var diagnosticsBefore: seq<Diagnostic> := [];
    ghost var start: nat := 0;
    var token := tokenizer.NextToken();
    while token.Success? && token.value.kind != Eof
      invariant tokenizer.text == text && start <= |text| + 1
      invariant TokenStream(text, 0) == PrependAll(seen, diagnosticsBefore, TokenStream(text, start))
      invariant match ScanToken(text, start)
        case Scanned(t, next, ds) =>
          token == Success(t) && tokenizer.position == next && tokenizer.diagnostics == diagnosticsBefore + ds
        case Faulted(f) => token == Failure(f)
      invariant tokenList == Retained(seen)
      decreases |text| + 1 - start
    {
      ListStep(text, start, seen, diagnosticsBefore, tokenList);
      if Kept(token.value) {
        tokenList := tokenList + [token.value];
      }
      seen := seen + [token.value];
      diagnosticsBefore := tokenizer.diagnostics;
      start := tokenizer.position;
      token := tokenizer.NextToken();
    }
    if token.Failure? {
      return TokenFault(token.error);
    }
    RetainedAppend(seen, token.value);
    tokenList := tokenList + [token.value];
    return TokenList(tokenList, tokenizer.diagnostics);
  }

  /** `Parser`: a cursor over a token list that appends to its diagnostics as it parses. */
  class Parser {
    const tokens: seq<Token>
    var position: nat
    var diagnostics: seq<Diagnostic>

    /** The state `init` leaves: the token list, the cursor at 0, the tokenizer's diagnostics. */
    constructor(tokens: seq<Token>, tokenizerDiagnostics: seq<Diagnostic>)
      requires WellFormed(tokens)
      ensures this.tokens == tokens && position == 0 && diagnostics == tokenizerDiagnostics
    {
      this.tokens := tokens;
      position := 0;
      diagnostics := tokenizerDiagnostics;
    }

    function Peek(offset: nat): Token
      reads this
      requires |tokens| > 0
    {
      PeekAt(tokens, position + offset)
    }

    function Current(): Token
      reads this
      requires |tokens| > 0
    {
      Peek(0)
    }

    /** `nextToken`: the current token, with the cursor moved past it. */
    method NextToken() returns (t: Token)
      requires |tokens| > 0
      modifies this`position
      ensures t == old(Current()) && position == old(position) + 1
      ensures t == PeekAt(tokens, old(position)) && diagnostics == old(diagnostics)
    {
      t := Current();
      position := position + 1;
    }

    /** `matchToken`. */
    method MatchToken(kind: TokenKind) returns (t: Token)
      requires WellFormed(tokens) && position < |tokens|
      modifies this
      ensures var m := Match(tokens, old(position), kind, old(diagnostics));
        t == m.token && position == m.next && diagnostics == m.diagnostics
    {
      if Current().kind == kind {
        t := NextToken();
        return;
      }
      diagnostics := diagnostics + [UnexpectedToken(Current().kind, Current().value, Current().position, kind)];
      t := Token(kind, Current().position, [Text.Nul], None);
    }

    /** `parse`: the whole expression, then `matchToken(EOF)`. */
    method Parse() returns (tree: SyntaxTree)
      requires WellFormed(tokens) && position == 0
      modifies this
      ensures tree == ParseTokens(tokens, old(diagnostics))
    {
      var expression := ParseExpression(0);
      var eofToken := MatchToken(Eof);
      tree := SyntaxTree(expression, eofToken, diagnostics);
    }

    /**
      `parsePrimaryExpression`, called by `parseExpression(parent)` when no
      prefix operator applies: the primary, after which the loop continues.
     */
    method ParsePrimaryExpression(ghost parent: nat) returns (node: ExpressionNode)
      requires WellFormed(tokens) && position < |tokens|
      requires !(UnaryOperatorPrecedence(tokens[position].kind) != 0
                 && UnaryOperatorPrecedence(tokens[position].kind) >= parent)
      modifies this
      ensures var p := Primary(tokens, old(position), old(diagnostics));
        node == p.node && position == p.next && diagnostics == p.diagnostics
      ensures position < |tokens|
      ensures BinaryTail(tokens, position, parent, node, diagnostics)
        == Expression(tokens, old(position), parent, old(diagnostics))
      decreases |tokens| - position, 1
    {
      ExpressionViaPrimary(tokens, position, parent, diagnostics);
      if Current().kind == OpenParen {
        node := GetParanthesizedExpressionSyntaxNode();
      } else {
        node := GetLiteralExpressionSyntaxNode();
      }
    }

    /** `getLiteralExpressionSyntaxNode`: a literal of the NUMBER match's token. */
    method GetLiteralExpressionSyntaxNode() returns (node: ExpressionNode)
      requires WellFormed(tokens) && position < |tokens|
      modifies this
      ensures var m := Match(tokens, old(position), Number, old(diagnostics));
        node == Literal(m.token) && position == m.next && diagnostics == m.diagnostics
    {
      var numberToken := MatchToken(Number);
      return Literal(numberToken);
    }

    /** `getParanthesizedExpressionSyntaxNode`: `(`, an expression at precedence 0, then `matchToken(CLOSE_PAREN)`. */
    method GetParanthesizedExpressionSyntaxNode() returns (node: ExpressionNode)
      requires WellFormed(tokens) && position < |tokens| && tokens[position].kind == OpenParen
      modifies this
      ensures var p := Primary(tokens, old(position), old(diagnostics));
        node == p.node && position == p.next && diagnostics == p.diagnostics
      decreases |tokens| - position, 0
    {
      var left := NextToken();
      var expression := ParseExpression(0);
      var right := MatchToken(CloseParen);
      return Parenthesized(left, expression, right);
    }

    /** `parseExpression(parentNodePrecedence)`. */
    method ParseExpression(parent: nat) returns (left: ExpressionNode)
      requires WellFormed(tokens) && position < |tokens|
      modifies this
      ensures Parsed(left, position, diagnostics) == Expression(tokens, old(position), parent, old(diagnostics))
      decreases |tokens| - position, 2
    {
      ghost var goal := Expression(tokens, position, parent, diagnostics);
      var unaryOperatorPrecedence := UnaryOperatorPrecedence(Current().kind);
      if unaryOperatorPrecedence != 0 && unaryOperatorPrecedence >= parent {
        left := GetUnaryExpressionSyntaxNode(unaryOperatorPrecedence, parent);
      } else {
        left := ParsePrimaryExpression(parent);
      }
      while true
        invariant old(position) <= position < |tokens|
        invariant BinaryTail(tokens, position, parent, left, diagnostics) == goal
        decreases |tokens| - position
      {
        var currentNodePrecedence := BinaryOperatorPrecedence(Current().kind);
        if currentNodePrecedence == 0 || currentNodePrecedence <= parent {
          break;
        }
        left := GetBinaryExpressionSyntaxNode(currentNodePrecedence, left, parent);
      }
    }

    /**
      `getUnaryExpressionSyntaxNode`: the prefix operator, then its operand at
      the operator's precedence; `parseExpression(parent)` continues its loop
      from there.
     */
    method GetUnaryExpressionSyntaxNode(unaryOperatorPrecedence: nat, ghost parent: nat) returns (node: ExpressionNode)
      requires WellFormed(tokens) && position < |tokens|
      requires unaryOperatorPrecedence == UnaryOperatorPrecedence(tokens[position].kind)
      requires unaryOperatorPrecedence != 0 && unaryOperatorPrecedence >= parent
      modifies this
      ensures old(position) + 1 < |tokens|
      ensures node.Unary? && node.operatorToken == tokens[old(position)]
      ensures Parsed(node.operand, position, diagnostics)
        == Expression(tokens, old(position) + 1, unaryOperatorPrecedence, old(diagnostics))
      ensures position < |tokens|
      ensures BinaryTail(tokens, position, parent, node, diagnostics)
        == Expression(tokens, old(position), parent, old(diagnostics))
      decreases |tokens| - position, 1
    {
      OperatorNotLast(tokens, position);
      ghost var at, d := position, diagnostics;
      ghost var goal := Expression(tokens, at + 1, unaryOperatorPrecedence, d);
      var operatorToken := NextToken();
      assert position == at + 1 && operatorToken == tokens[at];
      var operand := ParseExpression(unaryOperatorPrecedence);
      assert Parsed(operand, position, diagnostics) == goal;
      node := Unary(operatorToken, operand);
      assert goal == Expression(tokens, old(position) + 1, unaryOperatorPrecedence, old(diagnostics));
      UnaryAfter(tokens, at, parent, d, goal);
    }

    /**
      `getBinaryExpressionSyntaxNode`: one round of the binary loop, which
      takes the operator and parses its right operand at the operator's precedence.
     */
    method GetBinaryExpressionSyntaxNode(currentNodePrecedence: nat, left: ExpressionNode, ghost parent: nat)
      returns (node: ExpressionNode)
      requires WellFormed(tokens) && position < |tokens|
      requires currentNodePrecedence == BinaryOperatorPrecedence(tokens[position].kind) > parent
      modifies this
      ensures old(position) + 1 < |tokens|
      ensures node.Binary? && node.left == left && node.operatorToken == tokens[old(position)]
      ensures Parsed(node.right, position, diagnostics)
        == Expression(tokens, old(position) + 1, currentNodePrecedence, old(diagnostics))
      ensures position < |tokens|
      ensures BinaryTail(tokens, position, parent, node, diagnostics)
        == BinaryTail(tokens, old(position), parent, left, old(diagnostics))
      decreases |tokens| - position, 1
    {
      OperatorNotLast(tokens, position);
      ghost var at, d := position, diagnostics;
      ghost var goal := Expression(tokens, at + 1, currentNodePrecedence, d);
      var operatorToken := NextToken();
      assert position == at + 1 && operatorToken == tokens[at];
      var right := ParseExpression(currentNodePrecedence);
      assert Parsed(right, position, diagnostics) == goal;
      node := Binary(left, operatorToken, right);
      assert goal == Expression(tokens, old(position) + 1, currentNodePrecedence, old(diagnostics));
      RoundAfter(tokens, at, parent, left, d, goal);
    }
  }

  /** The outcome of `Parser(text).parse()`. */
  datatype ParseOutcome =
    | ParsedTree(tree: SyntaxTree)
    | LexFailed(fault: LexFault)

  function ParseOf(text: string): ParseOutcome
  {
    match TokenListOf(text)
    case TokenList(ts, ds) =>
      TokenListShape(text);
      ParsedTree(ParseTokens(ts, ds))
    case TokenFault(f) => LexFailed(f)
  }

  /**
    A parse reports the tokenizer's diagnostics first, in order; when it adds
    nothing to them, the leaves of its tree are the kept tokens before EOF.
   */
  lemma TokenizerDiagnosticsFirst(text: string)
    ensures var r := ParseOf(text);
      r.ParsedTree? ==>
        var list := TokenListOf(text);
        list.TokenList? &&
        r.tree.diagnostics[..|list.diagnostics|] == list.diagnostics &&
        (r.tree.diagnostics == list.diagnostics ==> Leaves(r.tree.root) == list.tokens[..|list.tokens| - 1])
  {
    var list := TokenListOf(text);
    if list.TokenList? {
      TokenListShape(text);
      TreeLeavesAreTokens(list.tokens, list.diagnostics);
    }
  }

  /** `Parser(text).parse()`: the token list of `init`, then `parse`. */
  method ParseText(text: string) returns (r: ParseOutcome)
    ensures r == ParseOf(text)
  {
    var list := CreateTokenList(text);
    match list {
      case TokenFault(f) =>
        return LexFailed(f);
      case TokenList(ts, ds) =>
        TokenListShape(text);
        var parser := new Parser(ts, ds);
        var tree := parser.Parse();
        return ParsedTree(tree);
    }
  }
}
