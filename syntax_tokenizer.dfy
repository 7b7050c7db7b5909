/**
  The typed pipeline's tokenizer (`codeAnalysis/syntax/Tokenizer.kt`).

  `ScanToken` states what one `nextToken` call does from a cursor position;
  the `Tokenizer` class does it step by step over its `position` and
  `diagnostics` fields and is proved to agree with `ScanToken`.
  `TokenStream` is the sequence of calls the parser makes until EOF.
 */
module SyntaxTokenizer {
  import opened Wrappers
  import opened KotlinInt
  import opened Text
  import opened SyntaxTokens
  import opened SyntaxRules

  /** The exceptions a `nextToken` call can raise. */
  datatype LexFault =
    /** `String.toInt` on a digit run above `Int.MAX_VALUE`. */
    | NumberFormat(text: string)
    /** `text.substring(position - 1, position)` with the cursor still at 0. */
    | SubstringOutOfRange(start: int)

  /** The outcome of one `nextToken` call: the token, the new cursor and the diagnostics added. */
  datatype Scan =
    | Scanned(token: Token, next: nat, diagnostics: seq<Diagnostic>)
    | Faulted(fault: LexFault)

  /**
    `peek(offset)`: NUL once `position + offset` is past the end, and otherwise
    the character at `position` itself; the offset only selects between the two.
   */
  function Peek(text: string, position: nat, offset: nat): char
    requires position <= |text|
  {
    if position + offset >= |text| then Nul else text[position]
  }

  /** The one-character operators and the kinds they produce. */
  function OperatorKind(c: char): Option<TokenKind>
  {
    match c
    case '+' => Some(Plus)
    case '-' => Some(Minus)
    case '*' => Some(Times)
    case '/' => Some(Slash)
    case '(' => Some(OpenParen)
    case ')' => Some(CloseParen)
    case '!' => Some(Bang)
    case _ => None
  }

  /** The digit-run branch: the run, its `toInt` value and the canonical-form check. */
  function ScanNumber(text: string, start: nat): Scan
    requires start < |text| && IsDigit(text[start])
  {
    var end := RunEnd(text, start, Digits);
    var digits := text[start..end];
    assert AllDigits(digits);
    var number := DecimalValue(digits);
    if number > MaxInt then
      Faulted(NumberFormat(digits))
    else
      Scanned(Token(Number, start, digits, Some(number)), end,
              if DecimalText(number) != digits then [NumberNotRepresentable(digits)] else [])
  }

  /**
    The closing `return` of `nextToken` with the cursor at `position`: a BAD_TOKEN
    holding the character just before the cursor, which faults at position 0.
   */
  function BadTokenBefore(text: string, position: nat, diagnostics: seq<Diagnostic>): Scan
    requires position <= |text|
  {
    if position == 0 then
      Faulted(SubstringOutOfRange(-1))
    else
      Scanned(Token(BadToken, position - 1, text[position - 1..position], None), position, diagnostics)
  }

  /** One `nextToken` call with the cursor at `position`. */
  function ScanToken(text: string, position: nat): (r: Scan)
    requires position <= |text|
    ensures r.Scanned? ==> position <= r.next <= |text|
    ensures r.Scanned? && r.token.kind == Eof <==> position == |text|
    ensures position == |text| ==> r == Scanned(Token(Eof, position, [Nul], None), position, [])
  {
    if position >= |text| then
      Scanned(Token(Eof, position, [Nul], None), position, [])
    else
      var c := Peek(text, position, 0);
      if IsDigit(c) then
        ScanNumber(text, position)
      else if IsWhitespace(c) then
        var end := RunEnd(text, position, Spaces);
        Scanned(Token(Whitespace, position, text[position..end], None), end, [])
      else if IsLetter(c) then
        var end := RunEnd(text, position, Letters);
        var word := text[position..end];
        Scanned(Token(KeywordKind(word), position, word, None), end, [])
      else if OperatorKind(c).Some? then
        Scanned(Token(OperatorKind(c).value, position, [c], None), position + 1, [])
      else if c == '&' then
        if Peek(text, position, 1) == '&' then
          Scanned(Token(AmpersandDouble, position, "&&", None), position + 2, [])
        else
          BadTokenBefore(text, position, [])
      else if c == '|' then
        if Peek(text, position, 1) == '|' then
          Scanned(Token(PipeDouble, position, "||", None), position + 2, [])
        else
          BadTokenBefore(text, position, [])
      else
        BadTokenBefore(text, position + 1, [BadCharacter(c, position)])
  }

  /**
    A digit run is consumed maximally into one NUMBER token carrying its start,
    its text and its value; the diagnostic is added exactly when the text has a
    leading zero, and `toInt` faults exactly when the value exceeds `Int.MAX_VALUE`.
   */
  lemma NumberToken(text: string, p: nat)
    requires p < |text| && IsDigit(text[p])
    ensures var r := ScanToken(text, p);
      var digits := text[p..RunEnd(text, p, Digits)];
      AllDigits(digits) && |digits| > 0 &&
      (r.Faulted? <==> DecimalValue(digits) > MaxInt) &&
      (r.Scanned? ==>
        r.token == Token(Number, p, digits, Some(DecimalValue(digits))) &&
        p < r.next && (r.next == |text| || !IsDigit(text[r.next])) &&
        (r.diagnostics == [] <==> (|digits| == 1 || digits[0] != '0')) &&
        (r.diagnostics != [] ==> r.diagnostics == [NumberNotRepresentable(digits)]))
  {
    var digits := text[p..RunEnd(text, p, Digits)];
    assert AllDigits(digits);
    CanonicalDigits(digits);
  }

  /** A whitespace run is consumed maximally into one WHITESPACE token with no value. */
  lemma WhitespaceToken(text: string, p: nat)
    requires p < |text| && IsWhitespace(text[p])
    ensures var r := ScanToken(text, p);
      r.Scanned? && r.diagnostics == [] && p < r.next &&
      r.token == Token(Whitespace, p, text[p..r.next], None) &&
      (forall i :: p <= i < r.next ==> IsWhitespace(text[i])) &&
      (r.next == |text| || !IsWhitespace(text[r.next]))
  {
  }

  /** A letter run becomes TRUE_KEYWORD, FALSE_KEYWORD or IDENTIFIER, never with a value. */
  lemma WordToken(text: string, p: nat)
    requires p < |text| && IsLetter(text[p])
    ensures var r := ScanToken(text, p);
      r.Scanned? && r.diagnostics == [] && p < r.next &&
      r.token.position == p && r.token.text == text[p..r.next] && r.token.value == None &&
      (r.token.kind == TrueKeyword <==> r.token.text == "true") &&
      (r.token.kind == FalseKeyword <==> r.token.text == "false") &&
      (r.token.kind == Identifier <==> r.token.text != "true" && r.token.text != "false") &&
      (r.next == |text| || !IsLetter(text[r.next]))
  {
  }

  /** Each of `+ - * / ( ) !` is a one-character token at its own index; the cursor moves by one. */
  lemma OperatorToken(text: string, p: nat)
    requires p < |text| && text[p] in "+-*/()!"
    ensures var r := ScanToken(text, p);
      r.Scanned? && r.next == p + 1 && r.diagnostics == [] &&
      r.token.position == p && r.token.text == [text[p]] && r.token.value == None &&
      OperatorKind(text[p]) == Some(r.token.kind) && r.token.kind != BadToken && r.token.kind != Eof
  {
  }

  /** Any other character but `&` and `|` is reported, skipped, and held in a BAD_TOKEN. */
  lemma BadCharacterToken(text: string, p: nat)
    requires p < |text|
    requires !IsDigit(text[p]) && !IsWhitespace(text[p]) && !IsLetter(text[p])
    requires text[p] !in "+-*/()!&|"
    ensures ScanToken(text, p)
      == Scanned(Token(BadToken, p, [text[p]], None), p + 1, [BadCharacter(text[p], p)])
  {
  }

  /**
    Because `peek` ignores its offset, a non-final `&` or `|` always forms a
    two-character `&&`/`||` token, whatever follows it. A final one produces a
    BAD_TOKEN for the character before it without moving the cursor and without
    a diagnostic, or faults when it is the whole text.
   */
  lemma AmpersandPipeToken(text: string, p: nat)
    requires p < |text| && (text[p] == '&' || text[p] == '|')
    ensures var r := ScanToken(text, p);
      (p + 1 < |text| ==>
        r == Scanned(Token(if text[p] == '&' then AmpersandDouble else PipeDouble, p,
                           [text[p], text[p]], None), p + 2, [])) &&
      (p + 1 == |text| && p > 0 ==>
        r == Scanned(Token(BadToken, p - 1, [text[p - 1]], None), p, [])) &&
      (p + 1 == |text| && p == 0 ==> r == Faulted(SubstringOutOfRange(-1)))
  {
    if p + 1 == |text| && p > 0 {
      assert text[p - 1..p] == [text[p - 1]];
    }
    if p + 1 < |text| {
      assert Peek(text, p, 1) == text[p];
      if text[p] == '&' {
        assert "&&" == [text[p], text[p]];
      } else {
        assert "||" == [text[p], text[p]];
      }
    }
  }

  /** A call makes no progress, short of EOF, exactly at a final `&` or `|` that is not the whole text. */
  lemma NoProgressExactly(text: string, p: nat)
    requires p <= |text|
    ensures var r := ScanToken(text, p);
      (r.Scanned? && r.next == p && r.token.kind != Eof)
      <==> (0 < p == |text| - 1 && (text[p] == '&' || text[p] == '|'))
  {
    if p < |text| && !IsDigit(text[p]) && !IsWhitespace(text[p]) && !IsLetter(text[p]) {
      if text[p] == '&' || text[p] == '|' {
        AmpersandPipeToken(text, p);
      }
    } else if p < |text| && IsDigit(text[p]) {
      NumberToken(text, p);
    }
  }

  /** The tokens of successive `nextToken` calls up to EOF, or why there is no such list. */
  datatype Stream =
    | Stream(tokens: seq<Token>, diagnostics: seq<Diagnostic>)
    | StreamFault(fault: LexFault)
    /** The cursor stopped moving at `position` before EOF: the calls never reach EOF. */
    | Stuck(position: nat)

  function PrependAll(ts: seq<Token>, ds: seq<Diagnostic>, s: Stream): Stream
  {
    match s
    case Stream(rest, more) => Stream(ts + rest, ds + more)
    case _ => s
  }

  lemma PrependAllTwice(ts1: seq<Token>, ds1: seq<Diagnostic>, ts2: seq<Token>, ds2: seq<Diagnostic>, s: Stream)
    ensures PrependAll(ts1, ds1, PrependAll(ts2, ds2, s)) == PrependAll(ts1 + ts2, ds1 + ds2, s)
  {
    if s.Stream? {
      assert ts1 + (ts2 + s.tokens) == (ts1 + ts2) + s.tokens;
      assert ds1 + (ds2 + s.diagnostics) == (ds1 + ds2) + s.diagnostics;
    }
  }

  /** The calls `nextToken` answers from `position` on, stopping after the first EOF. */
  function TokenStream(text: string, position: nat): (s: Stream)
    requires position <= |text|
    decreases |text| - position
  {
    match ScanToken(text, position)
    case Faulted(f) => StreamFault(f)
    case Scanned(t, next, ds) =>
      if t.kind == Eof then Stream([t], ds)
      else if next == position then Stuck(position)
      else PrependAll([t], ds, TokenStream(text, next))
  }

  /** A token other than EOF that moves the cursor heads the stream from the cursor. */
  lemma StreamStep(text: string, position: nat, t: Token, next: nat, ds: seq<Diagnostic>)
    requires position <= |text| && next <= |text|
    requires ScanToken(text, position) == Scanned(t, next, ds)
    requires t.kind != Eof && next != position
    ensures TokenStream(text, position) == PrependAll([t], ds, TokenStream(text, next))
  {
  }

  /**
    A finished stream ends with its only EOF token, and every token lies inside
    the text in order of position.
   */
  lemma {:induction false} StreamShape(text: string, position: nat)
    requires position <= |text|
    ensures var s := TokenStream(text, position);
      s.Stream? ==>
        |s.tokens| > 0 && s.tokens[|s.tokens| - 1] == Token(Eof, |text|, [Nul], None) &&
        (forall i :: 0 <= i < |s.tokens| - 1 ==> s.tokens[i].kind != Eof) &&
        (forall i :: 0 <= i < |s.tokens| ==> position <= s.tokens[i].position <= |text|)
    decreases |text| - position
  {
    match ScanToken(text, position)
    case Faulted(f) =>
    case Scanned(t, next, ds) =>
      if t.kind != Eof && next != position {
        StreamShape(text, next);
        var s := TokenStream(text, next);
        if s.Stream? {
          assert TokenStream(text, position).tokens == [t] + s.tokens;
          assert t.position >= position by {
            NoProgressExactly(text, position);
            ScanPositionBound(text, position);
          }
        }
      }
  }

  /** A token is placed at or after the cursor it was scanned from, except the BAD_TOKEN of a final `&`/`|`. */
  lemma ScanPositionBound(text: string, p: nat)
    requires p <= |text|
    ensures var r := ScanToken(text, p);
      r.Scanned? ==> (r.token.position >= p || r.next == p) && r.token.position <= |text|
  {
  }

  /** A stuck stream is stuck where a call returns a token other than EOF without moving. */
  lemma {:induction false} StuckWithoutProgress(text: string, position: nat)
    requires position <= |text|
    ensures var s := TokenStream(text, position);
      s.Stuck? ==>
        s.position <= |text| &&
        ScanToken(text, s.position).Scanned? && ScanToken(text, s.position).next == s.position &&
        ScanToken(text, s.position).token.kind != Eof
    decreases |text| - position
  {
    match ScanToken(text, position)
    case Faulted(f) =>
    case Scanned(t, next, ds) =>
      if t.kind != Eof && next != position {
        StreamStep(text, position, t, next, ds);
        StuckWithoutProgress(text, next);
      }
  }

  /**
    When the stream is stuck, it is stuck at a final `&` or `|`: the scan from that
    position returns the same BAD_TOKEN and leaves cursor and diagnostics as they
    were, so every later call repeats it and EOF is never returned.
   */
  lemma StuckAtFinalOperator(text: string, position: nat)
    requires position <= |text|
    ensures var s := TokenStream(text, position);
      s.Stuck? ==>
        0 < s.position == |text| - 1 && (text[s.position] == '&' || text[s.position] == '|') &&
        ScanToken(text, s.position) == Scanned(Token(BadToken, s.position - 1, [text[s.position - 1]], None), s.position, [])
  {
    var s := TokenStream(text, position);
    if s.Stuck? {
      StuckWithoutProgress(text, position);
      NoProgressExactly(text, s.position);
      AmpersandPipeToken(text, s.position);
    }
  }

  /** `Tokenizer`: a cursor over `text` that appends to its diagnostics as it scans. */
  class Tokenizer {
    const text: string
    var position: nat
    var diagnostics: seq<Diagnostic>

    constructor(text: string)
      ensures this.text == text && position == 0 && diagnostics == []
    {
      this.text := text;
      position := 0;
      diagnostics := [];
    }

    function Peek(offset: nat): char
      reads this
      requires position <= |text|
    {
      if position + offset >= |text| then Nul else text[position]
    }

    function CurrentChar(): char
      reads this
      requires position <= |text|
    {
      Peek(0)
    }

    function LookaheadChar(): char
      reads this
      requires position <= |text|
    {
      Peek(1)
    }

    method Next()
      requires position < |text|
      modifies this
      ensures position == old(position) + 1 && diagnostics == old(diagnostics)
    {
      position := position + 1;
    }

    /** The `while (currentChar.isX()) next()` loops: the cursor moves to the end of the run. */
    method ConsumeRun(cls: CharClass)
      requires position <= |text|
      modifies this
      ensures position == RunEnd(text, old(position), cls)
      ensures diagnostics == old(diagnostics)
    {
      ghost var start := position;
      while InClass(CurrentChar(), cls)
        invariant start <= position <= |text|
        invariant RunEnd(text, position, cls) == RunEnd(text, start, cls)
        invariant diagnostics == old(diagnostics)
        decreases |text| - position
      {
        Next();
      }
    }

    /** `nextToken`: the token at the cursor, moving the cursor past it. */
    method NextToken() returns (r: Result<Token, LexFault>)
      requires position <= |text|
      modifies this
      ensures position <= |text|
      ensures var s := ScanToken(text, old(position));
        match s
        case Scanned(t, next, ds) => r == Success(t) && position == next && diagnostics == old(diagnostics) + ds
        case Faulted(f) => r == Failure(f)
    {
      if position >= |text| {
        return Success(Token(Eof, position, [Nul], None));
      }
      var start := position;
      if IsDigit(CurrentChar()) {
        r := NextNumber();
      } else if IsWhitespace(CurrentChar()) {
        ConsumeRun(Spaces);
        return Success(Token(Whitespace, start, text[start..position], None));
      } else if IsLetter(CurrentChar()) {
        ConsumeRun(Letters);
        var word := text[start..position];
        return Success(Token(KeywordKind(word), start, word, None));
      } else {
        r := NextPunctuation();
      }
    }

    /** The digit branch of `nextToken`: a maximal digit run, converted by `toInt`. */
    method NextNumber() returns (r: Result<Token, LexFault>)
      requires position < |text| && IsDigit(CurrentChar())
      modifies this
      ensures position <= |text|
      ensures var s := ScanToken(text, old(position));
        match s
        case Scanned(t, next, ds) => r == Success(t) && position == next && diagnostics == old(diagnostics) + ds
        case Faulted(f) => r == Failure(f)
    {
      var start := position;
      ConsumeRun(Digits);
      var numberAsText := text[start..position];
      assert AllDigits(numberAsText);
      var number := DecimalValue(numberAsText);
      if number > MaxInt {
        return Failure(NumberFormat(numberAsText));
      }
      if DecimalText(number) != numberAsText {
        diagnostics := diagnostics + [NumberNotRepresentable(numberAsText)];
      }
      return Success(Token(Number, start, numberAsText, Some(number)));
    }

    /**
      The `when (currentChar)` branch of `nextToken`: the one-character
      operators, `&&`, `||` and bad characters.
     */
    method NextPunctuation() returns (r: Result<Token, LexFault>)
      requires position < |text|
      requires !IsDigit(CurrentChar()) && !IsWhitespace(CurrentChar()) && !IsLetter(CurrentChar())
      modifies this
      ensures position <= |text|
      ensures var s := ScanToken(text, old(position));
        match s
        case Scanned(t, next, ds) => r == Success(t) && position == next && diagnostics == old(diagnostics) + ds
        case Faulted(f) => r == Failure(f)
    {
      var c := CurrentChar();
      assert c == text[position];
      var single := OperatorKind(c);
      if single.Some? {
        Next();
        return Success(Token(single.value, position - 1, [c], None));
      } else if c == '&' || c == '|' {
        if LookaheadChar() == c {
          Next();
          Next();
          return Success(Token(if c == '&' then AmpersandDouble else PipeDouble, position - 2, [c, c], None));
        }
      } else {
        diagnostics := diagnostics + [BadCharacter(c, position)];
        Next();
      }
      if position == 0 {
        return Failure(SubstringOutOfRange(-1));
      }
      return Success(Token(BadToken, position - 1, text[position - 1..position], None));
    }
  }
}
