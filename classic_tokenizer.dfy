/**
  The classic pipeline's tokenizer (`codeAnalysis/Tokenizer.kt`): numbers,
  whitespace and the six one-character operators; every other character,
  letters included, is a one-character BAD_TOKEN.

  `ScanToken` states one `nextToken` call, `TokenStream` the calls up to EOF,
  and the `Tokenizer` class is proved to agree with `ScanToken`.
 */
module ClassicTokenizer {
  import opened Wrappers
  import opened KotlinInt
  import opened Text
  import opened ClassicTokens

  /** The one exception `nextToken` can raise: `String.toInt` on a digit run above `Int.MAX_VALUE`. */
  datatype LexFault = NumberFormat(text: string)

  /** The outcome of one `nextToken` call: the token, the new cursor and the diagnostics added. */
  datatype Scan =
    | Scanned(token: Token, next: nat, diagnostics: seq<Diagnostic>)
    | Faulted(fault: LexFault)

  /** `currentChar`: NUL at or past the end of the text. */
  function CurrentChar(text: string, position: nat): char
  {
    if position >= |text| then Nul else text[position]
  }

  /** The one-character operators and the kinds they produce. */
  function OperatorKind(c: char): (k: Option<TokenKind>)
    ensures k.Some? <==> c in "+-*/()"
  {
    match c
    case '+' => Some(Plus)
    case '-' => Some(Minus)
    case '*' => Some(Times)
    case '/' => Some(Slash)
    case '(' => Some(OpenParen)
    case ')' => Some(CloseParen)
    case _ => None
  }

  /** The digit-run branch: the run, its `toInt` value and the canonical-form check. */
  function ScanNumber(text: string, start: nat): Scan
    requires start < |text| && IsDigit(text[start])
  {
    var end := RunEnd(text, start, Digits);
    var digits := text[start..end];
    assert AllDigits(digits);
    var number := DecimalValue(digits);
    if number > MaxInt then
      Faulted(NumberFormat(digits))
    else
      Scanned(Token(Number, start, digits, Some(number)), end,
              if DecimalText(number) != digits then [NumberNotRepresentable(digits)] else [])
  }

  /** One `nextToken` call with the cursor at `position`; short of EOF it always moves the cursor. */
  function ScanToken(text: string, position: nat): (r: Scan)
    requires position <= |text|
    ensures r.Scanned? ==> position <= r.next <= |text|
    ensures r.Scanned? && r.token.kind == Eof <==> position == |text|
    ensures position == |text| ==> r == Scanned(Token(Eof, position, [Nul], None), position, [])
    ensures r.Scanned? && position < |text| ==> position < r.next
  {
    if position >= |text| then
      Scanned(Token(Eof, position, [Nul], None), position, [])
    else
      var c := CurrentChar(text, position);
      if IsDigit(c) then
        ScanNumber(text, position)
      else if IsWhitespace(c) then
        var end := RunEnd(text, position, Spaces);
        Scanned(Token(Whitespace, position, text[position..end], None), end, [])
      else if OperatorKind(c).Some? then
        Scanned(Token(OperatorKind(c).value, position, [c], None), position + 1, [])
      else
        // The diagnostic is added and the cursor moved; the BAD_TOKEN is then cut from
        // `position - 1`, which is the character just read.
        Scanned(Token(BadToken, position, text[position..position + 1], None), position + 1,
                [BadCharacter(c, position)])
  }

  /**
    A digit run is consumed maximally into one NUMBER token carrying its start,
    its text and its value; the diagnostic is added exactly when the text has a
    leading zero, and `toInt` faults exactly when the value exceeds `Int.MAX_VALUE`.
   */
  lemma NumberToken(text: string, p: nat)
    requires p < |text| && IsDigit(text[p])
    ensures var r := ScanToken(text, p);
      var digits := text[p..RunEnd(text, p, Digits)];
      AllDigits(digits) && |digits| > 0 &&
      (r.Faulted? <==> DecimalValue(digits) > MaxInt) &&
      (r.Scanned? ==>
        r.token == Token(Number, p, digits, Some(DecimalValue(digits))) &&
        (r.next == |text| || !IsDigit(text[r.next])) &&
        (r.diagnostics == [] <==> (|digits| == 1 || digits[0] != '0')) &&
        (r.diagnostics != [] ==> r.diagnostics == [NumberNotRepresentable(digits)]))
  {
    var digits := text[p..RunEnd(text, p, Digits)];
    assert AllDigits(digits);
    CanonicalDigits(digits);
  }

  /** A whitespace run is consumed maximally into one WHITESPACE token. */
  lemma WhitespaceToken(text: string, p: nat)
    requires p < |text| && IsWhitespace(text[p])
    ensures var r := ScanToken(text, p);
      r.Scanned? && r.diagnostics == [] &&
      r.token == Token(Whitespace, p, text[p..r.next], None) &&
      (forall i :: p <= i < r.next ==> IsWhitespace(text[i])) &&
      (r.next == |text| || !IsWhitespace(text[r.next]))
  {
  }

  /** Each of `+ - * / ( )` is a one-character token at its own index; the cursor moves by one. */
  lemma OperatorToken(text: string, p: nat)
    requires p < |text| && text[p] in "+-*/()"
    ensures ScanToken(text, p)
      == Scanned(Token(OperatorKind(text[p]).value, p, [text[p]], None), p + 1, [])
  {
  }

  /** Any other character, a letter included, is reported, skipped and held in a one-character BAD_TOKEN. */
  lemma BadCharacterToken(text: string, p: nat)
    requires p < |text| && !IsDigit(text[p]) && !IsWhitespace(text[p]) && text[p] !in "+-*/()"
    ensures ScanToken(text, p)
      == Scanned(Token(BadToken, p, [text[p]], None), p + 1, [BadCharacter(text[p], p)])
  {
    assert text[p..p + 1] == [text[p]];
  }

  /** Short of EOF, a token's text is exactly the slice of the text its call consumed. */
  lemma ScanCoversConsumed(text: string, p: nat)
    requires p < |text|
    ensures var r := ScanToken(text, p);
      r.Scanned? ==> r.token.position == p && r.token.text == text[p..r.next]
  {
    var c := text[p];
    if OperatorKind(c).Some? && !IsDigit(c) && !IsWhitespace(c) {
      assert text[p..p + 1] == [c];
    }
  }

  /** The tokens of successive `nextToken` calls up to EOF, or the exception that ends them. */
  datatype Stream =
    | Stream(tokens: seq<Token>, diagnostics: seq<Diagnostic>)
    | StreamFault(fault: LexFault)

  function PrependAll(ts: seq<Token>, ds: seq<Diagnostic>, s: Stream): Stream
  {
    match s
    case Stream(rest, more) => Stream(ts + rest, ds + more)
    case _ => s
  }

  lemma PrependAllTwice(ts1: seq<Token>, ds1: seq<Diagnostic>, ts2: seq<Token>, ds2: seq<Diagnostic>, s: Stream)
    ensures PrependAll(ts1, ds1, PrependAll(ts2, ds2, s)) == PrependAll(ts1 + ts2, ds1 + ds2, s)
  {
    if s.Stream? {
      assert ts1 + (ts2 + s.tokens) == (ts1 + ts2) + s.tokens;
      assert ds1 + (ds2 + s.diagnostics) == (ds1 + ds2) + s.diagnostics;
    }
  }

  /** The calls `nextToken` answers from `position` on, stopping after the first EOF. */
  function TokenStream(text: string, position: nat): Stream
    requires position <= |text|
    decreases |text| - position
  {
    match ScanToken(text, position)
    case Faulted(f) => StreamFault(f)
    case Scanned(t, next, ds) =>
      if t.kind == Eof then Stream([t], ds)
      else PrependAll([t], ds, TokenStream(text, next))
  }

  /** The texts of `ts`, concatenated in order. */
  function Texts(ts: seq<Token>): string
  {
    if ts == [] then "" else ts[0].text + Texts(ts[1..])
  }

  /** A token other than EOF heads the stream from the cursor it was scanned at. */
  lemma StreamStep(text: string, position: nat, t: Token, next: nat, ds: seq<Diagnostic>)
    requires position <= |text|
    requires ScanToken(text, position) == Scanned(t, next, ds)
    requires t.kind != Eof
    ensures next <= |text| && TokenStream(text, position) == PrependAll([t], ds, TokenStream(text, next))
  {
  }

  /** A finished stream ends with its only EOF token, at the end of the text. */
  lemma {:induction false} StreamShape(text: string, position: nat)
    requires position <= |text|
    ensures var s := TokenStream(text, position);
      s.Stream? ==>
        |s.tokens| > 0 && s.tokens[|s.tokens| - 1] == Token(Eof, |text|, [Nul], None) &&
        (forall i :: 0 <= i < |s.tokens| - 1 ==> s.tokens[i].kind != Eof)
    decreases |text| - position
  {
    match ScanToken(text, position)
    case Faulted(_) =>
    case Scanned(t, next, ds) =>
      if t.kind != Eof {
        StreamShape(text, next);
        var rest := TokenStream(text, next);
        if rest.Stream? {
          assert TokenStream(text, position).tokens == [t] + rest.tokens;
        }
      }
  }

  /**
    The texts of the tokens before EOF spell the text back exactly: no
    character is lost or repeated.
   */
  lemma {:induction false} StreamIsLossless(text: string, position: nat)
    requires position <= |text|
    ensures var s := TokenStream(text, position);
      s.Stream? ==> |s.tokens| > 0 && Texts(s.tokens[..|s.tokens| - 1]) == text[position..]
    decreases |text| - position
  {
    match ScanToken(text, position)
    case Faulted(_) =>
    case Scanned(t, next, ds) =>
      if t.kind != Eof {
        StreamIsLossless(text, next);
        ScanCoversConsumed(text, position);
        var rest := TokenStream(text, next);
        if rest.Stream? {
          LosslessStep(text, position, next, t, rest.tokens);
          assert TokenStream(text, position).tokens == [t] + rest.tokens;
        }
      }
  }

  /** One scanned token in front of a lossless rest of the stream. */
  lemma LosslessStep(text: string, position: nat, next: nat, t: Token, rest: seq<Token>)
    requires position <= next <= |text| && |rest| > 0
    requires t.text == text[position..next] && Texts(rest[..|rest| - 1]) == text[next..]
    ensures var ts := [t] + rest; Texts(ts[..|ts| - 1]) == text[position..]
  {
    var ts := [t] + rest;
    assert ts[..|ts| - 1] == [t] + rest[..|rest| - 1];
    assert ([t] + rest[..|rest| - 1])[1..] == rest[..|rest| - 1];
    assert text[position..] == text[position..next] + text[next..];
  }

  /** `Tokenizer`: a cursor over `text` that appends to its diagnostics as it scans. */
  class Tokenizer {
    const text: string
    var position: nat
    var diagnostics: seq<Diagnostic>

    constructor(text: string)
      ensures this.text == text && position == 0 && diagnostics == []
    {
      this.text := text;
      position := 0;
      diagnostics := [];
    }

    function Current(): char
      reads this
    {
      CurrentChar(text, position)
    }

    method Next()
      modifies this
      ensures position == old(position) + 1 && diagnostics == old(diagnostics)
    {
      position := position + 1;
    }

    /** The `while (currentChar.isX()) next()` loops: the cursor moves to the end of the run. */
    method ConsumeRun(cls: CharClass)
      requires position <= |text|
      modifies this
      ensures position == RunEnd(text, old(position), cls)
      ensures diagnostics == old(diagnostics)
    {
      ghost var start := position;
      while InClass(Current(), cls)
        invariant start <= position <= |text|
        invariant RunEnd(text, position, cls) == RunEnd(text, start, cls)
        invariant diagnostics == old(diagnostics)
        decreases |text| - position
      {
        Next();
      }
    }

    /** `nextToken`: the token at the cursor, moving the cursor past it. */
    method NextToken() returns (r: Result<Token, LexFault>)
      requires position <= |text|
      modifies this
      ensures position <= |text|
      ensures match ScanToken(text, old(position))
        case Scanned(t, next, ds) => r == Success(t) && position == next && diagnostics == old(diagnostics) + ds
        case Faulted(f) => r == Failure(f)
    {
      if position >= |text| {
        return Success(Token(Eof, position, [Nul], None));
      }
      var start := position;
      if IsDigit(Current()) {
        r := NextNumber();
      } else if IsWhitespace(Current()) {
        ConsumeRun(Spaces);
        return Success(Token(Whitespace, start, text[start..position], None));
      } else {
        r := NextPunctuation();
      }
    }

    /** The digit branch of `nextToken`: a maximal digit run, converted by `toInt`. */
    method NextNumber() returns (r: Result<Token, LexFault>)
      requires position < |text| && IsDigit(Current())
      modifies this
      ensures position <= |text|
      ensures match ScanToken(text, old(position))
        case Scanned(t, next, ds) => r == Success(t) && position == next && diagnostics == old(diagnostics) + ds
        case Faulted(f) => r == Failure(f)
    {
      var start := position;
      ConsumeRun(Digits);
      var numberAsText := text[start..position];
      assert AllDigits(numberAsText);
      var number := DecimalValue(numberAsText);
      if number > MaxInt {
        return Failure(NumberFormat(numberAsText));
      }
      if DecimalText(number) != numberAsText {
        diagnostics := diagnostics + [NumberNotRepresentable(numberAsText)];
      }
      return Success(Token(Number, start, numberAsText, Some(number)));
    }

    /** The `else if (currentChar == …)` chain of `nextToken`: the one-character operators and bad characters. */
    method NextPunctuation() returns (r: Result<Token, LexFault>)
      requires position < |text| && !IsDigit(Current()) && !IsWhitespace(Current())
      modifies this
      ensures position <= |text|
      ensures match ScanToken(text, old(position))
        case Scanned(t, next, ds) => r == Success(t) && position == next && diagnostics == old(diagnostics) + ds
        case Faulted(f) => r == Failure(f)
    {
      var c := Current();
      assert c == text[position];
      var single := OperatorKind(c);
      if single.Some? {
        Next();
        return Success(Token(single.value, position - 1, [c], None));
      }
      diagnostics := diagnostics + [BadCharacter(c, position)];
      Next();
      return Success(Token(BadToken, position - 1, text[position - 1..position], None));
    }
  }
}
