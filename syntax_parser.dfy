/**
  The typed pipeline's `Parser` class (`codeAnalysis/syntax/Parser.kt`): the
  token list its `init` block builds from the tokenizer, and the recursive
  descent over it, proved equal to the functions of `SyntaxGrammar`.
 */
module SyntaxParser {
  import opened Wrappers
  import opened SyntaxTokens
  import opened SyntaxRules
  import opened SyntaxTokenizer
  import opened SyntaxGrammar

  /** Whether `init` keeps a token: WHITESPACE and BAD_TOKEN are dropped. */
  predicate Kept(t: Token)
  {
    t.kind != Whitespace && t.kind != BadToken
  }

  /** The kept tokens of `ts`, in order. */
  function Retained(ts: seq<Token>): (r: seq<Token>)
    ensures |r| <= |ts|
  {
    if ts == [] then []
    else Retained(ts[..|ts| - 1]) + if Kept(ts[|ts| - 1]) then [ts[|ts| - 1]] else []
  }

  /** The kept tokens are exactly the members of `ts` that `Kept` accepts. */
  lemma {:induction false} RetainedMembers(ts: seq<Token>)
    ensures forall t :: t in Retained(ts) ==> t in ts && Kept(t)
    ensures forall t :: t in ts && Kept(t) ==> t in Retained(ts)
    decreases |ts|
  {
    if ts != [] {
      var init := ts[..|ts| - 1];
      assert ts == init + [ts[|ts| - 1]];
      RetainedMembers(init);
    }
  }

  /** What `init` leaves behind, or why it never finishes. */
  datatype TokenList =
    | TokenList(tokens: seq<Token>, diagnostics: seq<Diagnostic>)
    | TokenFault(fault: LexFault)
    /** The tokenizer stopped moving at `position` before EOF, so the `init` loop runs forever. */
    | Diverges(position: nat)

  /** The kept tokens of the whole stream, its EOF included, and the tokenizer's diagnostics. */
  function TokenListOf(text: string): TokenList
  {
    match TokenStream(text, 0)
    case Stream(ts, ds) => TokenList(Retained(ts), ds)
    case StreamFault(f) => TokenFault(f)
    case Stuck(p) => Diverges(p)
  }

  /**
    The list `init` builds has no WHITESPACE or BAD_TOKEN entry and ends with
    exactly one EOF, at the end of the text.
   */
  lemma TokenListShape(text: string)
    ensures var list := TokenListOf(text);
      list.TokenList? ==>
        WellFormed(list.tokens) &&
        (forall t :: t in list.tokens ==> Kept(t)) &&
        list.tokens[|list.tokens| - 1] == Token(Eof, |text|, [Text.Nul], None)
  {
    StreamShape(text, 0);
    var s := TokenStream(text, 0);
    if s.Stream? {
      var ts := s.tokens;
      var init := ts[..|ts| - 1];
      assert ts == init + [ts[|ts| - 1]];
      RetainedAppend(init, ts[|ts| - 1]);
      RetainedAvoids(init, Eof);
      RetainedMembers(ts);
    }
  }

  /** One round of the loop: the scanned token moves from the unread stream to `seen`, and to the list if kept. */
  lemma ListStep(text: string, start: nat, seen: seq<Token>, before: seq<Diagnostic>, kept: seq<Token>)
    requires start <= |text|
    requires TokenStream(text, 0) == PrependAll(seen, before, TokenStream(text, start))
    requires kept == Retained(seen)
    requires ScanToken(text, start).Scanned? && ScanToken(text, start).token.kind != Eof && ScanToken(text, start).next != start
    ensures var scan := ScanToken(text, start);
      scan.next <= |text| &&
      TokenStream(text, 0) == PrependAll(seen + [scan.token], before + scan.diagnostics, TokenStream(text, scan.next)) &&
      (Kept(scan.token) ==> Retained(seen + [scan.token]) == kept + [scan.token]) &&
      (!Kept(scan.token) ==> Retained(seen + [scan.token]) == kept)
  {
    var scan := ScanToken(text, start);
    StreamStep(text, start, scan.token, scan.next, scan.diagnostics);
    PrependAllTwice(seen, before, [scan.token], scan.diagnostics, TokenStream(text, scan.next));
    RetainedAppend(seen, scan.token);
  }

  /** The loop stops at EOF: the list is the kept tokens seen, then EOF. */
  lemma ListEndsAtEof(text: string, start: nat, seen: seq<Token>, before: seq<Diagnostic>, t: Token, next: nat, ds: seq<Diagnostic>)
    requires start <= |text|
    requires TokenStream(text, 0) == PrependAll(seen, before, TokenStream(text, start))
    requires ScanToken(text, start) == Scanned(t, next, ds) && t.kind == Eof
    ensures TokenListOf(text) == TokenList(Retained(seen) + [t], before + ds)
  {
    assert TokenStream(text, start) == Stream([t], ds);
    RetainedAppend(seen, t);
  }

  /** The loop stops at a fault of the tokenizer: so does the list. */
  lemma ListFaults(text: string, start: nat, seen: seq<Token>, before: seq<Diagnostic>, f: LexFault)
    requires start <= |text|
    requires TokenStream(text, 0) == PrependAll(seen, before, TokenStream(text, start))
    requires ScanToken(text, start) == Faulted(f)
    ensures TokenListOf(text) == TokenFault(f)
  {
    assert TokenStream(text, start) == StreamFault(f);
  }

  /** The loop stops where the tokenizer did not move: `init` never ends. */
  lemma ListDiverges(text: string, start: nat, seen: seq<Token>, before: seq<Diagnostic>, t: Token, ds: seq<Diagnostic>)
    requires start <= |text|
    requires TokenStream(text, 0) == PrependAll(seen, before, TokenStream(text, start))
    requires ScanToken(text, start) == Scanned(t, start, ds) && t.kind != Eof
    ensures TokenListOf(text) == Diverges(start)
  {
    assert TokenStream(text, start) == Stuck(start);
  }

  /** A kept token appended to the stream is appended to the list. */
  lemma RetainedAppend(ts: seq<Token>, t: Token)
    ensures Kept(t) ==> Retained(ts + [t]) == Retained(ts) + [t]
    ensures !Kept(t) ==> Retained(ts + [t]) == Retained(ts)
  {
    var s := ts + [t];
    assert s[..|s| - 1] == ts;
    assert s[|s| - 1] == t;
  }

  /** A kind no token of the stream has is a kind no kept token has. */
  lemma RetainedAvoids(ts: seq<Token>, k: TokenKind)
    requires forall i :: 0 <= i < |ts| ==> ts[i].kind != k
    ensures forall i :: 0 <= i < |Retained(ts)| ==> Retained(ts)[i].kind != k
  {
    RetainedMembers(ts);
    forall i | 0 <= i < |Retained(ts)|
      ensures Retained(ts)[i].kind != k
    {
      var t := Retained(ts)[i];
      assert t in ts;
      var j :| 0 <= j < |ts| && ts[j] == t;
    }
  }

  /** `init`: calls `nextToken` until EOF, keeping the tokens the parser reads. */
  method CreateTokenList(text: string) returns (r: TokenList)
    ensures r == TokenListOf(text)
  {
    var tokenizer := new Tokenizer(text);
    var tokenList: seq<Token> := [];
    ghost var seen: seq<Token> := [];
    ghost var diagnosticsBefore: seq<Diagnostic> := [];
    var start: nat := 0;
    var token := tokenizer.NextToken();
    while token.Success? && token.value.kind != Eof && tokenizer.position != start
      invariant tokenizer.text == text && tokenizer.position <= |text| && start <= |text|
      invariant TokenStream(text, 0) == PrependAll(seen, diagnosticsBefore, TokenStream(text, start))
      invariant match ScanToken(text, start)
        case Scanned(t, next, ds) =>
          token == Success(t) && tokenizer.position == next && tokenizer.diagnostics == diagnosticsBefore + ds
        case Faulted(f) => token == Failure(f)
      invariant tokenList == Retained(seen)
      decreases |text| - start
    {
      ghost var scan := ScanToken(text, start);
      assert token.value == scan.token && tokenizer.position == scan.next;
      assert tokenizer.diagnostics == diagnosticsBefore + scan.diagnostics;
      ListStep(text, start, seen, diagnosticsBefore, tokenList);
      if Kept(token.value) {
        tokenList := tokenList + [token.value];
      }
      seen := seen + [token.value];
      diagnosticsBefore := tokenizer.diagnostics;
      start := tokenizer.position;
      token := tokenizer.NextToken();
    }
    if token.Failure? {
      ListFaults(text, start, seen, diagnosticsBefore, token.error);
      return TokenFault(token.error);
    }
    ghost var scan := ScanToken(text, start);
    if token.value.kind != Eof {
      ListDiverges(text, start, seen, diagnosticsBefore, scan.token, scan.diagnostics);
      return Diverges(start);
    }
    ListEndsAtEof(text, start, seen, diagnosticsBefore, scan.token, scan.next, scan.diagnostics);
    tokenList := tokenList + [token.value];
    return TokenList(tokenList, tokenizer.diagnostics);
  }

  /** `Parser`: a cursor over a token list that appends to its diagnostics as it parses. */
  class Parser {
    const tokens: seq<Token>
    var position: nat
    var diagnostics: seq<Diagnostic>

    /** The state `init` leaves: the token list, the cursor at 0, the tokenizer's diagnostics. */
    constructor(tokens: seq<Token>, tokenizerDiagnostics: seq<Diagnostic>)
      requires WellFormed(tokens)
      ensures this.tokens == tokens && position == 0 && diagnostics == tokenizerDiagnostics
    {
      this.tokens := tokens;
      position := 0;
      diagnostics := tokenizerDiagnostics;
    }

    function Peek(offset: nat): Token
      reads this
      requires |tokens| > 0
    {
      PeekAt(tokens, position + offset)
    }

    function Current(): Token
      reads this
      requires |tokens| > 0
    {
      Peek(0)
    }

    /** `nextToken`: the current token, with the cursor moved past it. */
    method NextToken() returns (t: Token)
      requires |tokens| > 0
      modifies this`position
      ensures t == old(Current()) && position == old(position) + 1
      ensures t == PeekAt(tokens, old(position)) && diagnostics == old(diagnostics)
    {
      t := Current();
      position := position + 1;
    }

    method MatchToken(kind: TokenKind) returns (t: Token)
      requires WellFormed(tokens) && position < |tokens|
      modifies this
      ensures var m := Match(tokens, old(position), kind, old(diagnostics));
        t == m.token && position == m.next && diagnostics == m.diagnostics
    {
      if Current().kind == kind {
        t := NextToken();
        return;
      }
      diagnostics := diagnostics + [UnexpectedToken(Current().kind, Current().value, Current().position, kind)];
      t := Token(kind, Current().position, [Text.Nul], None);
    }

    /** `parse`: the whole expression, then `matchToken(EOF)`. */
    method Parse() returns (tree: SyntaxTree)
      requires WellFormed(tokens) && position == 0
      modifies this
      ensures tree == ParseTokens(tokens, old(diagnostics))
    {
      var expression := ParseExpression(0);
      var eofToken := MatchToken(Eof);
      tree := SyntaxTree(expression, eofToken, diagnostics);
    }

    method ParsePrimaryExpression() returns (node: ExpressionNode)
      requires WellFormed(tokens) && position < |tokens|
      modifies this
      ensures Parsed(node, position, diagnostics) == Primary(tokens, old(position), old(diagnostics))
      decreases |tokens| - position, 1
    {
      var kind := Current().kind;
      if kind == OpenParen {
        var left := NextToken();
        var expression := ParseExpression(0);
        var right := MatchToken(CloseParen);
        return Parenthesized(left, expression, right);
      } else if kind == FalseKeyword || kind == TrueKeyword {
        var keywordToken := NextToken();
        return Literal(keywordToken);
      } else {
        var numberToken := MatchToken(Number);
        return Literal(numberToken);
      }
    }

    /** `parseExpression(parentPrecedence)`: a prefix operator or a primary, then the binary loop. */
    method ParseExpression(parent: nat) returns (left: ExpressionNode)
      requires WellFormed(tokens) && position < |tokens|
      modifies this
      ensures Parsed(left, position, diagnostics) == Expression(tokens, old(position), parent, old(diagnostics))
      decreases |tokens| - position, 2
    {
      var unaryPrecedence := UnaryOperatorPrecedence(Current().kind);
      ghost var at, d := position, diagnostics;
      assert unaryPrecedence == UnaryOperatorPrecedence(tokens[at].kind);
      if unaryPrecedence != 0 && unaryPrecedence >= parent {
        OperatorNotLast(tokens, position);
        var operatorToken := NextToken();
        var operand := ParseExpression(unaryPrecedence);
        UnaryAfter(tokens, at, parent, d, Parsed(operand, position, diagnostics));
        left := Unary(operatorToken, operand);
      } else {
        left := ParsePrimaryExpression();
        assert Parsed(left, position, diagnostics) == Primary(tokens, at, d);
        PrimaryThenTail(tokens, at, parent, d, Parsed(left, position, diagnostics));
      }
      left := ParseBinaryOperators(parent, left);
    }

    /**
      The `while (true)` loop at the end of `parseExpression`, as a method of
      its own: folds the binary operators that outrank `parent` onto `first`.
     */
    method ParseBinaryOperators(parent: nat, first: ExpressionNode) returns (left: ExpressionNode)
      requires WellFormed(tokens) && position < |tokens|
      modifies this
      ensures var e := BinaryTail(tokens, old(position), parent, first, old(diagnostics));
        left == e.node && position == e.next && diagnostics == e.diagnostics
      decreases |tokens| - position, 1
    {
      left := first;
      while true
        invariant position < |tokens|
        invariant BinaryTail(tokens, position, parent, left, diagnostics)
          == BinaryTail(tokens, old(position), parent, first, old(diagnostics))
        decreases |tokens| - position
      {
        var precedence := BinaryOperatorPrecedence(Current().kind);
        if precedence == 0 || precedence <= parent {
          break;
        }
        OperatorNotLast(tokens, position);
        ghost var at, d := position, diagnostics;
        var operatorToken := NextToken();
        var right := ParseExpression(precedence);
        RoundAfter(tokens, at, parent, left, d, Parsed(right, position, diagnostics));
        left := Binary(left, operatorToken, right);
      }
    }
  }

  /** The outcome of `SyntaxTree.parse(text)`. */
  datatype ParseOutcome =
    | ParsedTree(tree: SyntaxTree)
    | LexFailed(fault: LexFault)
    | NeverEnds(position: nat)

  function ParseOf(text: string): ParseOutcome
  {
    match TokenListOf(text)
    case TokenList(ts, ds) =>
      TokenListShape(text);
      ParsedTree(ParseTokens(ts, ds))
    case TokenFault(f) => LexFailed(f)
    case Diverges(p) => NeverEnds(p)
  }

  /**
    A parse reports the tokenizer's diagnostics first, in order, and its tree
    ends with an EOF token; when the parse adds nothing to those
    diagnostics, the leaves of its tree are the kept tokens before EOF.
   */
  lemma TokenizerDiagnosticsFirst(text: string)
    ensures var r := ParseOf(text);
      r.ParsedTree? ==>
        var list := TokenListOf(text);
        list.TokenList? &&
        r.tree.eofToken.kind == Eof &&
        r.tree.diagnostics[..|list.diagnostics|] == list.diagnostics &&
        (r.tree.diagnostics == list.diagnostics ==> Leaves(r.tree.root) == list.tokens[..|list.tokens| - 1])
  {
    var list := TokenListOf(text);
    if list.TokenList? {
      TokenListShape(text);
      TreeLeavesAreTokens(list.tokens, list.diagnostics);
    }
  }

  /** `SyntaxTree.parse(text)`: a new parser over the text, then `parse`. */
  method ParseText(text: string) returns (r: ParseOutcome)
    ensures r == ParseOf(text)
  {
    var list := CreateTokenList(text);
    match list {
      case TokenFault(f) =>
        return LexFailed(f);
      case Diverges(p) =>
        return NeverEnds(p);
      case TokenList(ts, ds) =>
        TokenListShape(text);
        var parser := new Parser(ts, ds);
        var tree := parser.Parse();
        return ParsedTree(tree);
    }
  }
}
