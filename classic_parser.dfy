/**
  The classic `Parser` class (`codeAnalysis/Parser.kt`) and
  `AbstractSyntaxTree.parse`: the token list its `init` block builds, and the
  `parseTerms`/`parseFactor` loops over it, proved equal to the functions of
  `ClassicGrammar`.
 */
module ClassicParser {
  import opened Wrappers
  import opened ClassicTokens
  import opened ClassicRules
  import opened ClassicTokenizer
  import opened ClassicGrammar

  /** Whether `init` keeps a token: WHITESPACE and BAD_TOKEN are dropped. */
  predicate Kept(t: Token)
  {
    t.kind != Whitespace && t.kind != BadToken
  }

  /** The kept tokens of `ts`, in order. */
  function Retained(ts: seq<Token>): (r: seq<Token>)
    ensures |r| <= |ts|
  {
    if ts == [] then []
    else Retained(ts[..|ts| - 1]) + if Kept(ts[|ts| - 1]) then [ts[|ts| - 1]] else []
  }

  /** The kept tokens are exactly the members of `ts` that `Kept` accepts. */
  lemma {:induction false} RetainedMembers(ts: seq<Token>)
    ensures forall t :: t in Retained(ts) ==> t in ts && Kept(t)
    ensures forall t :: t in ts && Kept(t) ==> t in Retained(ts)
    decreases |ts|
  {
    if ts != [] {
      var init := ts[..|ts| - 1];
      assert ts == init + [ts[|ts| - 1]];
      RetainedMembers(init);
    }
  }

  /** What `init` leaves behind, or the tokenizer's exception. */
  datatype TokenList =
    | TokenList(tokens: seq<Token>, diagnostics: seq<Diagnostic>)
    | TokenFault(fault: LexFault)

  /** The kept tokens of the whole stream, its EOF included, and the tokenizer's diagnostics. */
  function TokenListOf(text: string): TokenList
  {
    match TokenStream(text, 0)
    case Stream(ts, ds) => TokenList(Retained(ts), ds)
    case StreamFault(f) => TokenFault(f)
  }

  /**
    The list `init` builds has no WHITESPACE or BAD_TOKEN entry and ends with
    exactly one EOF, at the end of the text.
   */
  lemma TokenListShape(text: string)
    ensures var list := TokenListOf(text);
      list.TokenList? ==>
        WellFormed(list.tokens) &&
        (forall t :: t in list.tokens ==> Kept(t)) &&
        list.tokens[|list.tokens| - 1] == Token(Eof, |text|, [Text.Nul], None)
  {
    StreamShape(text, 0);
    var s := TokenStream(text, 0);
    if s.Stream? {
      var ts := s.tokens;
      var init := ts[..|ts| - 1];
      assert ts == init + [ts[|ts| - 1]];
      RetainedAppend(init, ts[|ts| - 1]);
      RetainedAvoids(init, Eof);
      RetainedMembers(ts);
    }
  }

  /** One round of the loop: the scanned token moves from the unread stream to `seen`, and to the list if kept. */
  lemma ListStep(text: string, start: nat, seen: seq<Token>, before: seq<Diagnostic>, kept: seq<Token>)
    requires start <= |text|
    requires TokenStream(text, 0) == PrependAll(seen, before, TokenStream(text, start))
    requires kept == Retained(seen)
    requires ScanToken(text, start).Scanned? && ScanToken(text, start).token.kind != Eof
    ensures var scan := ScanToken(text, start);
      scan.next <= |text| &&
      TokenStream(text, 0) == PrependAll(seen + [scan.token], before + scan.diagnostics, TokenStream(text, scan.next)) &&
      (Kept(scan.token) ==> Retained(seen + [scan.token]) == kept + [scan.token]) &&
      (!Kept(scan.token) ==> Retained(seen + [scan.token]) == kept)
  {
    var scan := ScanToken(text, start);
    StreamStep(text, start, scan.token, scan.next, scan.diagnostics);
    PrependAllTwice(seen, before, [scan.token], scan.diagnostics, TokenStream(text, scan.next));
    RetainedAppend(seen, scan.token);
  }

  /** A kept token appended to the stream is appended to the list. */
  lemma RetainedAppend(ts: seq<Token>, t: Token)
    ensures Kept(t) ==> Retained(ts + [t]) == Retained(ts) + [t]
    ensures !Kept(t) ==> Retained(ts + [t]) == Retained(ts)
  {
    var s := ts + [t];
    assert s[..|s| - 1] == ts;
    assert s[|s| - 1] == t;
  }

  /** A kind no token of the stream has is a kind no kept token has. */
  lemma RetainedAvoids(ts: seq<Token>, k: TokenKind)
    requires forall i :: 0 <= i < |ts| ==> ts[i].kind != k
    ensures forall i :: 0 <= i < |Retained(ts)| ==> Retained(ts)[i].kind != k
  {
    RetainedMembers(ts);
    forall i | 0 <= i < |Retained(ts)|
      ensures Retained(ts)[i].kind != k
    {
      var t := Retained(ts)[i];
      assert t in ts;
      var j :| 0 <= j < |ts| && ts[j] == t;
    }
  }

  /**
    The loop of `init`: calls `nextToken` until EOF, keeping the tokens the
    parser reads; the parser's diagnostics start as the tokenizer's.
   */
  method CreateTokenList(text: string) returns (r: TokenList)
    ensures r == TokenListOf(text)
  {
    var tokenizer := new Tokenizer(text);
    var tokenList: seq<Token> := [];
    ghost var seen: seq<Token> := [];
    ghost var diagnosticsBefore: seq<Diagnostic> := [];
    ghost var start: nat := 0;
    var token := tokenizer.NextToken();
    while token.Success? && token.value.kind != Eof
      invariant tokenizer.text == text && start <= |text| && tokenizer.position <= |text|
      invariant TokenStream(text, 0) == PrependAll(seen, diagnosticsBefore, TokenStream(text, start))
      invariant match ScanToken(text, start)
        case Scanned(t, next, ds) =>
          token == Success(t) && tokenizer.position == next && tokenizer.diagnostics == diagnosticsBefore + ds
        case Faulted(f) => token == Failure(f)
      invariant tokenList == Retained(seen)
      decreases |text| - start
    {
      ListStep(text, start, seen, diagnosticsBefore, tokenList);
      if Kept(token.value) {
        tokenList := tokenList + [token.value];
      }
      seen := seen + [token.value];
      diagnosticsBefore := tokenizer.diagnostics;
      start := tokenizer.position;
      token := tokenizer.NextToken();
    }
    if token.Failure? {
      return TokenFault(token.error);
    }
    RetainedAppend(seen, token.value);
    tokenList := tokenList + [token.value];
    return TokenList(tokenList, tokenizer.diagnostics);
  }

  /** `Parser`: a cursor over a token list that appends to its diagnostics as it parses. */
  class Parser {
    const tokens: seq<Token>
    var position: nat
    var diagnostics: seq<Diagnostic>

    /** The state `init` leaves: the token list, the cursor at 0, the tokenizer's diagnostics. */
    constructor(tokens: seq<Token>, tokenizerDiagnostics: seq<Diagnostic>)
      requires WellFormed(tokens)
      ensures this.tokens == tokens && position == 0 && diagnostics == tokenizerDiagnostics
    {
      this.tokens := tokens;
      position := 0;
      diagnostics := tokenizerDiagnostics;
    }

    function Peek(offset: nat): Token
      reads this
      requires |tokens| > 0
    {
      PeekAt(tokens, position + offset)
    }

    function Current(): Token
      reads this
      requires |tokens| > 0
    {
      Peek(0)
    }

    /** `nextToken`: the current token, with the cursor moved past it. */
    method NextToken() returns (t: Token)
      requires |tokens| > 0
      modifies this`position
      ensures t == old(Current()) && position == old(position) + 1
      ensures t == PeekAt(tokens, old(position)) && diagnostics == old(diagnostics)
    {
      t := Current();
      position := position + 1;
    }

    /** `match`. */
    method MatchToken(kind: TokenKind) returns (t: Token)
      requires WellFormed(tokens) && position < |tokens|
      modifies this
      ensures var m := Match(tokens, old(position), kind, old(diagnostics));
        t == m.token && position == m.next && diagnostics == m.diagnostics
    {
      if Current().kind == kind {
        t := NextToken();
        return;
      }
      diagnostics := diagnostics + [UnexpectedToken(Current().kind, Current().value, Current().position, kind)];
      t := Token(kind, Current().position, [Text.Nul], None);
    }

    /** `parse`: the terms, then `match(EOF)`. */
    method Parse() returns (tree: SyntaxTree)
      requires WellFormed(tokens) && position == 0
      modifies this
      ensures tree == ParseTokens(tokens, old(diagnostics))
    {
      var expression := ParseTerms();
      var eofToken := MatchToken(Eof);
      tree := SyntaxTree(expression, eofToken, diagnostics);
    }

    /** `parsePrimaryExpression`. */
    method ParsePrimaryExpression() returns (node: ExpressionNode)
      requires WellFormed(tokens) && position < |tokens|
      modifies this
      ensures var p := Primary(tokens, old(position), old(diagnostics));
        node == p.node && position == p.next && diagnostics == p.diagnostics
      decreases |tokens| - position, 1
    {
      if Current().kind == OpenParen {
        var left := NextToken();
        var expression := ParseTerms();
        var right := MatchToken(CloseParen);
        return Parenthesized(left, expression, right);
      } else {
        var numberToken := MatchToken(Number);
        return Literal(numberToken);
      }
    }

    /** `parseFactor`: a primary, then `*`/`/` and a primary as long as one follows. */
    method ParseFactor() returns (leftSide: ExpressionNode)
      requires WellFormed(tokens) && position < |tokens|
      modifies this
      ensures var f := Factor(tokens, old(position), old(diagnostics));
        leftSide == f.node && position == f.next && diagnostics == f.diagnostics
      decreases |tokens| - position, 2
    {
      ghost var goal := Factor(tokens, position, diagnostics);
      leftSide := ParsePrimaryExpression();
      assert goal == FactorTail(tokens, position, leftSide, diagnostics);
      while IsFactorOperator(Current().kind)
        invariant old(position) <= position < |tokens|
        invariant FactorTail(tokens, position, leftSide, diagnostics) == goal
        decreases |tokens| - position
      {
        OperatorNotLast(tokens, position);
        ghost var at, d := position, diagnostics;
        var operatorToken := NextToken();
        var rightSide := ParsePrimaryExpression();
        assert WellFormed(tokens) && at < |tokens|;
        assert IsFactorOperator(tokens[at].kind);
        assert at + 1 < |tokens|;
        assert Parsed(rightSide, position, diagnostics) == Primary(tokens, at + 1, d);
        FactorRound(tokens, at, leftSide, d, Parsed(rightSide, position, diagnostics));
        leftSide := Binary(leftSide, operatorToken, rightSide);
      }
      assert PeekAt(tokens, position) == tokens[position];
    }

    /** `parseTerms`: a factor, then `+`/`-` and a factor as long as one follows. */
    method ParseTerms() returns (leftSide: ExpressionNode)
      requires WellFormed(tokens) && position < |tokens|
      modifies this
      ensures var e := Terms(tokens, old(position), old(diagnostics));
        leftSide == e.node && position == e.next && diagnostics == e.diagnostics
      decreases |tokens| - position, 3
    {
      ghost var goal := Terms(tokens, position, diagnostics);
      leftSide := ParseFactor();
      while IsTermOperator(Current().kind)
        invariant old(position) <= position < |tokens| && !IsFactorOperator(tokens[position].kind)
        invariant TermsTail(tokens, position, leftSide, diagnostics) == goal
        decreases |tokens| - position
      {
        OperatorNotLast(tokens, position);
        ghost var at, d := position, diagnostics;
        var operatorToken := NextToken();
        var rightSide := ParseFactor();
        assert WellFormed(tokens) && at < |tokens|;
        assert IsTermOperator(tokens[at].kind);
        assert at + 1 < |tokens|;
        assert Parsed(rightSide, position, diagnostics) == Factor(tokens, at + 1, d);
        TermsRound(tokens, at, leftSide, d, Parsed(rightSide, position, diagnostics));
        leftSide := Binary(leftSide, operatorToken, rightSide);
      }
      assert PeekAt(tokens, position) == tokens[position];
    }
  }

  /** The outcome of `AbstractSyntaxTree.parse(text)`. */
  datatype ParseOutcome =
    | ParsedTree(tree: SyntaxTree)
    | LexFailed(fault: LexFault)

  function ParseOf(text: string): ParseOutcome
  {
    match TokenListOf(text)
    case TokenList(ts, ds) =>
      TokenListShape(text);
      ParsedTree(ParseTokens(ts, ds))
    case TokenFault(f) => LexFailed(f)
  }

  /**
    A parse reports the tokenizer's diagnostics first, in order, and its tree
    has the layered shape of the grammar; when the parse adds nothing to
    those diagnostics, the leaves of its tree are the kept tokens before EOF.
   */
  lemma ParseShape(text: string)
    ensures var r := ParseOf(text);
      r.ParsedTree? ==>
        var list := TokenListOf(text);
        list.TokenList? &&
        r.tree.diagnostics[..|list.diagnostics|] == list.diagnostics &&
        TermShaped(r.tree.root) &&
        (r.tree.diagnostics == list.diagnostics ==> Leaves(r.tree.root) == list.tokens[..|list.tokens| - 1])
  {
    var list := TokenListOf(text);
    if list.TokenList? {
      TokenListShape(text);
      TermsShape(list.tokens, 0, list.diagnostics);
      TreeLeavesAreTokens(list.tokens, list.diagnostics);
    }
  }

  /** `AbstractSyntaxTree.parse(text)`: a new parser over the text, then `parse`. */
  method ParseText(text: string) returns (r: ParseOutcome)
    ensures r == ParseOf(text)
  {
    var list := CreateTokenList(text);
    match list {
      case TokenFault(f) =>
        return LexFailed(f);
      case TokenList(ts, ds) =>
        TokenListShape(text);
        var parser := new Parser(ts, ds);
        var tree := parser.Parse();
        return ParsedTree(tree);
    }
  }
}
