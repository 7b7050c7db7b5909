/**
  The arithmetic pipeline's tokenizer (`arithmeticSyntax/Tokenizer.kt`).

  `ScanToken` states what one `nextToken` call does from a cursor position,
  built from one function per private helper of the Kotlin class; the
  `Tokenizer` class does the same step by step and is proved to agree.
  Unlike the typed tokenizer, every call short of EOF moves the cursor, so
  `TokenStream` always reaches EOF or an exception.
 */
module ArithTokenizer {
  import opened Wrappers
  import opened KotlinInt
  import opened Text
  import opened ArithTokens

  /** The exceptions a `nextToken` call can raise. */
  datatype LexFault =
    /** `String.toInt` on a digit run above `Int.MAX_VALUE`. */
    | NumberFormat(text: string)
    /** `text.substring(position - 1, position)` with the cursor at 0. */
    | SubstringOutOfRange(start: int)

  /** The outcome of one call: the token, the new cursor and the diagnostics added. */
  datatype Scan =
    | Scanned(token: Token, next: nat, diagnostics: seq<Diagnostic>)
    | Faulted(fault: LexFault)

  /** `currentChar`: NUL at or past the end of the text. */
  function CurrentChar(text: string, position: nat): char
  {
    if position >= |text| then Nul else text[position]
  }

  /** `createOperatorToken(type, text)`: a token placed at the cursor, which then moves by one. */
  function OperatorTokenAt(kind: TokenKind, tokenText: string, position: nat, ds: seq<Diagnostic>): (r: Scan)
    ensures r == Scanned(Token(kind, position, tokenText, None), position + 1, ds)
  {
    Scanned(Token(kind, position, tokenText, None), position + 1, ds)
  }

  /** The characters `selectOperatorToken` knows and their kinds. */
  function OperatorKind(c: char): Option<TokenKind>
  {
    match c
    case '+' => Some(Plus)
    case '-' => Some(Minus)
    case '*' => Some(Times)
    case '/' => Some(Slash)
    case '(' => Some(OpenParen)
    case ')' => Some(CloseParen)
    case '^' => Some(ExponentArrow)
    case '%' => Some(Modulo)
    case _ => None
  }

  /**
    `selectOperatorToken`: a known operator character, or a diagnostic and a
    BAD_TOKEN whose text is the character BEFORE the cursor (which faults at 0).
   */
  function SelectOperator(text: string, position: nat): Scan
    requires position < |text|
  {
    var c := text[position];
    if OperatorKind(c).Some? then
      OperatorTokenAt(OperatorKind(c).value, [c], position, [])
    else if position == 0 then
      Faulted(SubstringOutOfRange(-1))
    else
      OperatorTokenAt(BadToken, text[position - 1..position], position, [BadCharacter(c, position)])
  }

  /**
    `createWordToken`: the letter run, lower-cased, is SQR or SQRT; any other
    word is reported and handed to `createOperatorToken`, which places the
    BAD_TOKEN at the end of the word and moves one character further.
   */
  function ScanWord(text: string, start: nat): Scan
    requires start < |text| && IsLetter(text[start])
  {
    var end := RunEnd(text, start, Letters);
    var word := text[start..end];
    if Lowercase(word) == "sqr" then
      Scanned(Token(Sqr, start, "sqr", None), end, [])
    else if Lowercase(word) == "sqrt" then
      Scanned(Token(Sqrt, start, "sqrt", None), end, [])
    else
      OperatorTokenAt(BadToken, word, end, [UnrecognizedWord(word)])
  }

  /** `createWhitespaceSyntaxToken`: the whitespace run as one token. */
  function ScanWhitespace(text: string, start: nat): Scan
    requires start < |text|
  {
    var end := RunEnd(text, start, Spaces);
    Scanned(Token(Whitespace, start, text[start..end], None), end, [])
  }

  /** `createNumberSyntaxToken`: the digit run, its `toInt` value and the canonical-form check. */
  function ScanNumber(text: string, start: nat): Scan
    requires start < |text| && IsDigit(text[start])
  {
    var end := RunEnd(text, start, Digits);
    var digits := text[start..end];
    assert AllDigits(digits);
    var number := DecimalValue(digits);
    if number > MaxInt then
      Faulted(NumberFormat(digits))
    else
      Scanned(Token(Number, start, digits, Some(number)), end,
              if DecimalText(number) != digits then [NumberNotRepresentable(digits)] else [])
  }

  /** One `nextToken` call with the cursor at `position`. */
  function ScanToken(text: string, position: nat): (r: Scan)
    ensures r.Scanned? && r.token.kind == Eof <==> position >= |text|
    ensures position >= |text| ==> r == Scanned(Token(Eof, position, [Nul], None), position, [])
    ensures r.Scanned? && position < |text| ==> position < r.next <= |text| + 1
  {
    if position >= |text| then
      Scanned(Token(Eof, position, [Nul], None), position, [])
    else
      var c := CurrentChar(text, position);
      if IsDigit(c) then ScanNumber(text, position)
      else if IsWhitespace(c) then ScanWhitespace(text, position)
      else if IsLetter(c) then ScanWord(text, position)
      else SelectOperator(text, position)
  }

  /**
    A digit run is consumed maximally into one NUMBER token with its start,
    text and value; the diagnostic is added exactly when the text has a
    leading zero, and `toInt` faults exactly above `Int.MAX_VALUE`.
   */
  lemma NumberToken(text: string, p: nat)
    requires p < |text| && IsDigit(text[p])
    ensures var r := ScanToken(text, p);
      var digits := text[p..RunEnd(text, p, Digits)];
      AllDigits(digits) && |digits| > 0 &&
      (r.Faulted? <==> DecimalValue(digits) > MaxInt) &&
      (r.Scanned? ==>
        r.token == Token(Number, p, digits, Some(DecimalValue(digits))) &&
        (r.next == |text| || !IsDigit(text[r.next])) &&
        (r.diagnostics == [] <==> (|digits| == 1 || digits[0] != '0')) &&
        (r.diagnostics != [] ==> r.diagnostics == [NumberNotRepresentable(digits)]))
  {
    var digits := text[p..RunEnd(text, p, Digits)];
    assert AllDigits(digits);
    CanonicalDigits(digits);
  }

  /** A whitespace run is consumed maximally into one WHITESPACE token. */
  lemma WhitespaceToken(text: string, p: nat)
    requires p < |text| && IsWhitespace(text[p])
    ensures var r := ScanToken(text, p);
      r.Scanned? && r.diagnostics == [] &&
      r.token == Token(Whitespace, p, text[p..r.next], None) &&
      (forall i :: p <= i < r.next ==> IsWhitespace(text[i])) &&
      (r.next == |text| || !IsWhitespace(text[r.next]))
  {
  }

  /**
    `sqr` and `sqrt` are recognised in any case, as lower-case tokens at the
    start of the word. Any other word is reported, becomes a BAD_TOKEN at the
    end of the word, and the character right after the word is skipped.
   */
  lemma WordToken(text: string, p: nat)
    requires p < |text| && IsLetter(text[p])
    ensures var r := ScanToken(text, p);
      var end := RunEnd(text, p, Letters);
      var word := text[p..end];
      r.Scanned? && p < end &&
      (Lowercase(word) == "sqr" ==> r == Scanned(Token(Sqr, p, "sqr", None), end, [])) &&
      (Lowercase(word) == "sqrt" ==> r == Scanned(Token(Sqrt, p, "sqrt", None), end, [])) &&
      (Lowercase(word) != "sqr" && Lowercase(word) != "sqrt" ==>
        r == Scanned(Token(BadToken, end, word, None), end + 1, [UnrecognizedWord(word)]))
  {
  }

  /** Each of `+ - * / ( ) ^ %` is a one-character token at its own index; the cursor moves by one. */
  lemma OperatorToken(text: string, p: nat)
    requires p < |text| && text[p] in "+-*/()^%"
    ensures ScanToken(text, p) == Scanned(Token(OperatorKind(text[p]).value, p, [text[p]], None), p + 1, [])
    ensures OperatorKind(text[p]).value !in {BadToken, Eof, Whitespace, Number, Sqr, Sqrt}
  {
  }

  /**
    Any other character is reported with its position and skipped, but its
    BAD_TOKEN holds the character before it; as the first character of the
    text it makes `substring` fault.
   */
  lemma BadCharacterToken(text: string, p: nat)
    requires p < |text|
    requires !IsDigit(text[p]) && !IsWhitespace(text[p]) && !IsLetter(text[p])
    requires text[p] !in "+-*/()^%"
    ensures p == 0 ==> ScanToken(text, p) == Faulted(SubstringOutOfRange(-1))
    ensures p > 0 ==>
      ScanToken(text, p) == Scanned(Token(BadToken, p, [text[p - 1]], None), p + 1, [BadCharacter(text[p], p)])
  {
    if p > 0 {
      assert text[p - 1..p] == [text[p - 1]];
    }
  }

  /** The tokens of successive `nextToken` calls up to EOF, or the exception that ends them. */
  datatype Stream =
    | Stream(tokens: seq<Token>, diagnostics: seq<Diagnostic>)
    | StreamFault(fault: LexFault)

  function PrependAll(ts: seq<Token>, ds: seq<Diagnostic>, s: Stream): Stream
  {
    match s
    case Stream(rest, more) => Stream(ts + rest, ds + more)
    case _ => s
  }

  lemma PrependAllTwice(ts1: seq<Token>, ds1: seq<Diagnostic>, ts2: seq<Token>, ds2: seq<Diagnostic>, s: Stream)
    ensures PrependAll(ts1, ds1, PrependAll(ts2, ds2, s)) == PrependAll(ts1 + ts2, ds1 + ds2, s)
  {
    if s.Stream? {
      assert ts1 + (ts2 + s.tokens) == (ts1 + ts2) + s.tokens;
      assert ds1 + (ds2 + s.diagnostics) == (ds1 + ds2) + s.diagnostics;
    }
  }

  /** The calls `nextToken` answers from `position` on, stopping after the first EOF. */
  function TokenStream(text: string, position: nat): (s: Stream)
    requires position <= |text| + 1
    decreases |text| + 1 - position
  {
    match ScanToken(text, position)
    case Faulted(f) => StreamFault(f)
    case Scanned(t, next, ds) =>
      if t.kind == Eof then Stream([t], ds)
      else PrependAll([t], ds, TokenStream(text, next))
  }

  /** A token other than EOF heads the stream from the cursor it was scanned at. */
  lemma StreamStep(text: string, position: nat, t: Token, next: nat, ds: seq<Diagnostic>)
    requires position <= |text| + 1
    requires ScanToken(text, position) == Scanned(t, next, ds)
    requires t.kind != Eof
    ensures next <= |text| + 1 && TokenStream(text, position) == PrependAll([t], ds, TokenStream(text, next))
  {
  }

  /**
    A finished stream ends with its only EOF token, placed at the end of the
    text or, after a final unrecognised word, one past it.
   */
  lemma {:induction false} StreamShape(text: string, position: nat)
    requires position <= |text| + 1
    ensures var s := TokenStream(text, position);
      s.Stream? ==>
        |s.tokens| > 0 &&
        s.tokens[|s.tokens| - 1].kind == Eof &&
        |text| <= s.tokens[|s.tokens| - 1].position <= |text| + 1 &&
        s.tokens[|s.tokens| - 1].text == [Nul] &&
        (forall i :: 0 <= i < |s.tokens| - 1 ==> s.tokens[i].kind != Eof)
    decreases |text| + 1 - position
  {
    match ScanToken(text, position)
    case Faulted(f) =>
    case Scanned(t, next, ds) =>
      if t.kind != Eof {
        StreamShape(text, next);
        var s := TokenStream(text, next);
        if s.Stream? {
          assert TokenStream(text, position).tokens == [t] + s.tokens;
        }
      }
  }

  /** The text `ab` is one unrecognised word, and the EOF token lands one past the end of the text. */
  lemma EofPastEndAfterUnknownWord()
    ensures TokenStream("ab", 0)
      == Stream([Token(BadToken, 2, "ab", None), Token(Eof, 3, [Nul], None)], [UnrecognizedWord("ab")])
  {
    assert RunEnd("ab", 0, Letters) == 2;
    assert "ab"[0..2] == "ab";
    assert Lowercase("ab") == "ab";
    assert ScanToken("ab", 0) == Scanned(Token(BadToken, 2, "ab", None), 3, [UnrecognizedWord("ab")]);
  }

  /** `Tokenizer`: a cursor over `text` that appends to its diagnostics as it scans. */
  class Tokenizer {
    const text: string
    var position: nat
    var diagnostics: seq<Diagnostic>

    constructor(text: string)
      ensures this.text == text && position == 0 && diagnostics == []
    {
      this.text := text;
      position := 0;
      diagnostics := [];
    }

    function Current(): char
      reads this
    {
      CurrentChar(text, position)
    }

    method Next()
      modifies this
      ensures position == old(position) + 1 && diagnostics == old(diagnostics)
    {
      position := position + 1;
    }

    /** The `while (currentChar.isX()) next()` loops: the cursor moves to the end of the run. */
    method ConsumeRun(cls: CharClass)
      requires position <= |text|
      modifies this
      ensures position == RunEnd(text, old(position), cls)
      ensures diagnostics == old(diagnostics)
    {
      ghost var start := position;
      while InClass(Current(), cls)
        invariant start <= position <= |text|
        invariant RunEnd(text, position, cls) == RunEnd(text, start, cls)
        invariant diagnostics == old(diagnostics)
        decreases |text| - position
      {
        Next();
      }
    }

    /** `createOperatorToken`: a token at the cursor; the cursor moves by one. */
    method CreateOperatorToken(kind: TokenKind, tokenText: string) returns (t: Token)
      modifies this
      ensures OperatorTokenAt(kind, tokenText, old(position), old(diagnostics)) == Scanned(t, position, diagnostics)
    {
      Next();
      return Token(kind, position - 1, tokenText, None);
    }

    /** `selectOperatorToken`. */
    method SelectOperatorToken() returns (r: Result<Token, LexFault>)
      requires position < |text|
      modifies this
      ensures match SelectOperator(text, old(position))
        case Scanned(t, next, ds) => r == Success(t) && position == next && diagnostics == old(diagnostics) + ds
        case Faulted(f) => r == Failure(f)
    {
      var c := Current();
      var kind := OperatorKind(c);
      if kind.Some? {
        var t := CreateOperatorToken(kind.value, [c]);
        return Success(t);
      }
      diagnostics := diagnostics + [BadCharacter(c, position)];
      if position == 0 {
        return Failure(SubstringOutOfRange(-1));
      }
      var t := CreateOperatorToken(BadToken, text[position - 1..position]);
      return Success(t);
    }

    /** `createWordToken`. */
    method CreateWordToken() returns (t: Token)
      requires position < |text| && IsLetter(text[position])
      modifies this
      ensures |old(diagnostics)| <= |diagnostics| && diagnostics[..|old(diagnostics)|] == old(diagnostics)
      ensures ScanWord(text, old(position)) == Scanned(t, position, diagnostics[|old(diagnostics)|..])
    {
      var start := position;
      ConsumeRun(Letters);
      var wordAsText := text[start..position];
      var lower := Lowercase(wordAsText);
      if lower == "sqr" {
        return Token(Sqr, start, "sqr", None);
      } else if lower == "sqrt" {
        return Token(Sqrt, start, "sqrt", None);
      }
      diagnostics := diagnostics + [UnrecognizedWord(wordAsText)];
      t := CreateOperatorToken(BadToken, wordAsText);
    }

    /** `createWhitespaceSyntaxToken`. */
    method CreateWhitespaceSyntaxToken() returns (t: Token)
      requires position < |text|
      modifies this
      ensures ScanWhitespace(text, old(position)) == Scanned(t, position, [])
      ensures diagnostics == old(diagnostics)
    {
      var start := position;
      ConsumeRun(Spaces);
      return Token(Whitespace, start, text[start..position], None);
    }

    /** `createNumberSyntaxToken`. */
    method CreateNumberSyntaxToken() returns (r: Result<Token, LexFault>)
      requires position < |text| && IsDigit(text[position])
      modifies this
      ensures match ScanNumber(text, old(position))
        case Scanned(t, next, ds) => r == Success(t) && position == next && diagnostics == old(diagnostics) + ds
        case Faulted(f) => r == Failure(f)
    {
      var start := position;
      ConsumeRun(Digits);
      var numberAsText := text[start..position];
      assert AllDigits(numberAsText);
      var number := DecimalValue(numberAsText);
      if number > MaxInt {
        return Failure(NumberFormat(numberAsText));
      }
      if DecimalText(number) != numberAsText {
        diagnostics := diagnostics + [NumberNotRepresentable(numberAsText)];
      }
      return Success(Token(Number, start, numberAsText, Some(number)));
    }

    /** `nextToken`: the token at the cursor, moving the cursor past it. */
    method NextToken() returns (r: Result<Token, LexFault>)
      modifies this
      ensures match ScanToken(text, old(position))
        case Scanned(t, next, ds) => r == Success(t) && position == next && diagnostics == old(diagnostics) + ds
        case Faulted(f) => r == Failure(f)
    {
      if position >= |text| {
        return Success(Token(Eof, position, [Nul], None));
      }
      if IsDigit(Current()) {
        r := CreateNumberSyntaxToken();
      } else if IsWhitespace(Current()) {
        var t := CreateWhitespaceSyntaxToken();
        r := Success(t);
      } else if IsLetter(Current()) {
        ghost var before := diagnostics;
        var t := CreateWordToken();
        assert diagnostics == before + diagnostics[|before|..];
        r := Success(t);
      } else {
        r := SelectOperatorToken();
      }
    }
  }
}
