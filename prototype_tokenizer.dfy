/**
  The prototype tokenizer declared in `Main.kt` (lines 66-125): the classic
  tokenizer's branches without any diagnostics. `Main.kt` declares the same
  `TokenType` members and `SyntaxToken` class as the classic pipeline, so
  its tokens are `ClassicTokens.Token` values.
 */
module PrototypeTokenizer {
  import opened Wrappers
  import opened KotlinInt
  import opened Text
  import opened ClassicTokens
  import ClassicTokenizer

  /** `String.toInt` on a digit run above `Int.MAX_VALUE`. */
  datatype LexFault = NumberFormat(text: string)

  /** The outcome of one `nextToken` call: the token and the new cursor. */
  datatype Scan =
    | Scanned(token: Token, next: nat)
    | Faulted(fault: LexFault)

  /** One `nextToken` call with the cursor at `position`; short of EOF it always moves the cursor. */
  function ScanToken(text: string, position: nat): (r: Scan)
    requires position <= |text|
    ensures r.Scanned? ==> position <= r.next <= |text|
    ensures r.Scanned? && r.token.kind == Eof <==> position == |text|
    ensures position == |text| ==> r == Scanned(Token(Eof, position, [Nul], None), position)
    ensures r.Scanned? && position < |text| ==> position < r.next
  {
    if position >= |text| then
      Scanned(Token(Eof, position, [Nul], None), position)
    else
      var c := ClassicTokenizer.CurrentChar(text, position);
      if IsDigit(c) then
        var end := RunEnd(text, position, Digits);
        var digits := text[position..end];
        assert AllDigits(digits);
        if DecimalValue(digits) > MaxInt then Faulted(NumberFormat(digits))
        else Scanned(Token(Number, position, digits, Some(DecimalValue(digits))), end)
      else if IsWhitespace(c) then
        var end := RunEnd(text, position, Spaces);
        Scanned(Token(Whitespace, position, text[position..end], None), end)
      else if ClassicTokenizer.OperatorKind(c).Some? then
        Scanned(Token(ClassicTokenizer.OperatorKind(c).value, position, [c], None), position + 1)
      else
        Scanned(Token(BadToken, position, text[position..position + 1], None), position + 1)
  }

  /**
    A digit run is one NUMBER token with its decimal value, leading zeros and
    all: unlike the later tokenizers nothing is reported for them.
   */
  lemma NumberToken(text: string, p: nat)
    requires p < |text| && IsDigit(text[p])
    ensures var r := ScanToken(text, p);
      var digits := text[p..RunEnd(text, p, Digits)];
      AllDigits(digits) && |digits| > 0 &&
      (r.Faulted? <==> DecimalValue(digits) > MaxInt) &&
      (r.Scanned? ==>
        r.token == Token(Number, p, digits, Some(DecimalValue(digits))) &&
        (r.next == |text| || !IsDigit(text[r.next])))
  {
  }

  /** Any character that starts no token becomes a one-character BAD_TOKEN, silently. */
  lemma BadCharacterToken(text: string, p: nat)
    requires p < |text| && !IsDigit(text[p]) && !IsWhitespace(text[p]) && text[p] !in "+-*/()"
    ensures ScanToken(text, p) == Scanned(Token(BadToken, p, [text[p]], None), p + 1)
  {
    assert text[p..p + 1] == [text[p]];
  }

  /**
    The prototype scans exactly like the classic tokenizer with its
    diagnostics dropped: same token, same cursor, same exception.
   */
  lemma SameTokensAsClassic(text: string, p: nat)
    requires p <= |text|
    ensures match ClassicTokenizer.ScanToken(text, p)
      case Scanned(t, next, _) => ScanToken(text, p) == Scanned(t, next)
      case Faulted(f) => ScanToken(text, p) == Faulted(NumberFormat(f.text))
  {
  }

  /** The tokens of successive `nextToken` calls up to EOF, or the exception that ends them. */
  datatype Stream =
    | Stream(tokens: seq<Token>)
    | StreamFault(fault: LexFault)

  /** The calls `nextToken` answers from `position` on, stopping after the first EOF. */
  function TokenStream(text: string, position: nat): Stream
    requires position <= |text|
    decreases |text| - position
  {
    match ScanToken(text, position)
    case Faulted(f) => StreamFault(f)
    case Scanned(t, next) =>
      if t.kind == Eof then Stream([t])
      else
        match TokenStream(text, next)
        case Stream(rest) => Stream([t] + rest)
        case StreamFault(f) => StreamFault(f)
  }

  /**
    The prototype's stream is the classic stream's, token for token, and so
    it ends with its only EOF and spells the text back exactly.
   */
  lemma {:induction false} SameStreamAsClassic(text: string, position: nat)
    requires position <= |text|
    ensures match ClassicTokenizer.TokenStream(text, position)
      case Stream(ts, _) => TokenStream(text, position) == Stream(ts)
      case StreamFault(f) => TokenStream(text, position) == StreamFault(NumberFormat(f.text))
    decreases |text| - position
  {
    SameTokensAsClassic(text, position);
    match ScanToken(text, position)
    case Faulted(_) =>
    case Scanned(t, next) =>
      if t.kind != Eof {
        SameStreamAsClassic(text, next);
      }
  }

  /** `Tokenizer`: a cursor over `text`. */
  class Tokenizer {
    const text: string
    var position: nat

    constructor(text: string)
      ensures this.text == text && position == 0
    {
      this.text := text;
      position := 0;
    }

    function Current(): char
      reads this
    {
      ClassicTokenizer.CurrentChar(text, position)
    }

    method Next()
      modifies this
      ensures position == old(position) + 1
    {
      position := position + 1;
    }

    /** The `while (currentChar.isX()) next()` loops: the cursor moves to the end of the run. */
    method ConsumeRun(cls: CharClass)
      requires position <= |text|
      modifies this
      ensures position == RunEnd(text, old(position), cls)
    {
      ghost var start := position;
      while InClass(Current(), cls)
        invariant start <= position <= |text|
        invariant RunEnd(text, position, cls) == RunEnd(text, start, cls)
        decreases |text| - position
      {
        Next();
      }
    }

    /** `nextToken`: the token at the cursor, moving the cursor past it. */
    method NextToken() returns (r: Result<Token, LexFault>)
      requires position <= |text|
      modifies this
      ensures position <= |text|
      ensures match ScanToken(text, old(position))
        case Scanned(t, next) => r == Success(t) && position == next
        case Faulted(f) => r == Failure(f)
    {
      if position >= |text| {
        return Success(Token(Eof, position, [Nul], None));
      }
      var start := position;
      if IsDigit(Current()) {
        ConsumeRun(Digits);
        var numberAsText := text[start..position];
        assert AllDigits(numberAsText);
        var number := DecimalValue(numberAsText);
        if number > MaxInt {
          return Failure(NumberFormat(numberAsText));
        }
        return Success(Token(Number, start, numberAsText, Some(number)));
      } else if IsWhitespace(Current()) {
        ConsumeRun(Spaces);
        return Success(Token(Whitespace, start, text[start..position], None));
      }
      match Current() {
        case '+' =>
          Next();
          return Success(Token(Plus, position - 1, "+", None));
        case '-' =>
          Next();
          return Success(Token(Minus, position - 1, "-", None));
        case '*' =>
          Next();
          return Success(Token(Times, position - 1, "*", None));
        case '/' =>
          Next();
          return Success(Token(Slash, position - 1, "/", None));
        case '(' =>
          Next();
          return Success(Token(OpenParen, position - 1, "(", None));
        case ')' =>
          Next();
          return Success(Token(CloseParen, position - 1, ")", None));
        case _ =>
          Next();
      }
      return Success(Token(BadToken, position - 1, text[position - 1..position], None));
    }
  }
}
