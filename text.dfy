/**
  Character classes and decimal digit strings shared by every tokenizer.

  Kotlin's `isDigit`, `isWhitespace` and `isLetter` are taken on the ASCII range:
  digits `0`-`9`, the letters `a`-`z` and `A`-`Z`, and as whitespace the space,
  the controls `\t`..`\r` and the separators U+001C..U+001F.
 */
module Text {

  /** `Char.MIN_VALUE`, which the tokenizers read past the end of the text. */
  const Nul: char := '\0'

  predicate IsDigit(c: char)
  {
    '0' <= c <= '9'
  }

  predicate IsWhitespace(c: char)
  {
    c == ' ' || '\t' <= c <= '\r' || '\U{1C}' <= c <= '\U{1F}'
  }

  predicate IsLetter(c: char)
  {
    'a' <= c <= 'z' || 'A' <= c <= 'Z'
  }

  /** `Char.lowercaseChar` on the ASCII letters; every other character is kept. */
  function ToLower(c: char): (r: char)
    ensures IsLetter(c) ==> IsLetter(r) && 'a' <= r <= 'z'
    ensures 'A' <= c <= 'Z' ==> r == (c as int - 'A' as int + 'a' as int) as char
    ensures !('A' <= c <= 'Z') ==> r == c
  {
    if 'A' <= c <= 'Z' then (c as int - 'A' as int + 'a' as int) as char else c
  }

  /** `String.lowercase()`. */
  function Lowercase(s: string): (r: string)
    ensures |r| == |s|
    ensures forall i :: 0 <= i < |s| ==> r[i] == ToLower(s[i])
  {
    if s == [] then [] else [ToLower(s[0])] + Lowercase(s[1..])
  }

  /** The three maximal-munch classes of the tokenizers. */
  datatype CharClass = Digits | Spaces | Letters

  predicate InClass(c: char, cls: CharClass)
  {
    match cls
    case Digits => IsDigit(c)
    case Spaces => IsWhitespace(c)
    case Letters => IsLetter(c)
  }

  lemma NulInNoClass(cls: CharClass)
    ensures !InClass(Nul, cls)
  {
  }

  /**
    Where a `while (currentChar.isX()) next()` loop started at `start` stops:
    the end of the longest run of class `cls` beginning there.
   */
  function RunEnd(text: string, start: nat, cls: CharClass): (end: nat)
    requires start <= |text|
    ensures start <= end <= |text|
    ensures forall i :: start <= i < end ==> InClass(text[i], cls)
    ensures end == |text| || !InClass(text[end], cls)
    decreases |text| - start
  {
    if start < |text| && InClass(text[start], cls) then RunEnd(text, start + 1, cls) else start
  }

  function DigitValue(c: char): (d: nat)
    requires IsDigit(c)
    ensures d < 10
  {
    c as int - '0' as int
  }

  function DigitChar(d: nat): (c: char)
    requires d < 10
    ensures IsDigit(c) && DigitValue(c) == d
  {
    ('0' as int + d) as char
  }

  predicate AllDigits(s: string)
  {
    forall i :: 0 <= i < |s| ==> IsDigit(s[i])
  }

  /** The number a digit string denotes, leading zeros included (`String.toInt` before its range check). */
  function DecimalValue(s: string): nat
    requires AllDigits(s)
  {
    if s == [] then 0 else DecimalValue(s[..|s| - 1]) * 10 + DigitValue(s[|s| - 1])
  }

  /** `Int.toString()` on a non-negative number: its digits without leading zeros. */
  function DecimalText(n: nat): (s: string)
    ensures AllDigits(s) && |s| > 0
    ensures DecimalValue(s) == n
    ensures s[0] == '0' <==> n == 0
    ensures n == 0 ==> |s| == 1
  {
    if n < 10 then
      [DigitChar(n)]
    else
      var s := DecimalText(n / 10) + [DigitChar(n % 10)];
      assert s[..|s| - 1] == DecimalText(n / 10);
      s
  }

  lemma {:induction false} LeadingNonZeroPositive(s: string)
    requires AllDigits(s) && |s| > 0 && s[0] != '0'
    ensures DecimalValue(s) >= 1
    decreases |s|
  {
    if |s| > 1 {
      LeadingNonZeroPositive(s[..|s| - 1]);
    }
  }

  /**
    A digit string is the canonical rendering of its own value exactly when it
    has no leading zero (or is a single digit): the check behind the
    "can't be represented" diagnostic of the tokenizers.
   */
  lemma {:induction false} CanonicalDigits(s: string)
    requires AllDigits(s) && |s| > 0
    ensures DecimalText(DecimalValue(s)) == s <==> (|s| == 1 || s[0] != '0')
    decreases |s|
  {
    var v := DecimalValue(s);
    if |s| == 1 {
      assert s[..0] == [];
      assert v == DigitValue(s[0]) < 10;
      assert DecimalText(v) == [DigitChar(v)];
    } else if s[0] == '0' {
      var t := DecimalText(v);
      assert t[0] == '0' ==> |t| == 1;
    } else {
      var init := s[..|s| - 1];
      LeadingNonZeroPositive(init);
      CanonicalDigits(init);
      var d := DigitValue(s[|s| - 1]);
      assert v == DecimalValue(init) * 10 + d;
      assert v / 10 == DecimalValue(init) && v % 10 == d;
      assert DecimalText(v) == DecimalText(DecimalValue(init)) + [DigitChar(d)];
      assert DigitChar(d) == s[|s| - 1];
      assert init + [s[|s| - 1]] == s;
    }
  }
}
