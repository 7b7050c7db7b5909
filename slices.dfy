/**
  Facts about slices and prefix-growing sequences that every parser model
  uses when it relates a tree's leaves to the tokens it consumed.
 */
module Slices {

  /** A list that only grows, and that ends where it began, kept unchanged throughout. */
  lemma Unchanged<T>(ds: seq<T>, mid: seq<T>, last: seq<T>)
    requires |ds| <= |mid| && mid[..|ds|] == ds
    requires |mid| <= |last| && last[..|mid|] == mid
    requires last == ds
    ensures mid == ds
  {
  }

  /** `s[i..k]` split at `j`. */
  lemma SliceSplit<T>(s: seq<T>, i: nat, j: nat, k: nat)
    requires i <= j <= k <= |s|
    ensures s[i..k] == s[i..j] + s[j..k]
  {
  }

  /**
    One round of an operator loop: a prefix, the operator at `pos`, an operand
    covering `s[pos + 1..mid]` and then `s[mid..end]` are the prefix followed by `s[pos..end]`.
   */
  lemma FoldSplice<T>(s: seq<T>, pos: nat, mid: nat, end: nat, prefix: seq<T>, operand: seq<T>, whole: seq<T>)
    requires pos < mid <= end <= |s|
    requires operand == s[pos + 1..mid]
    requires whole == prefix + [s[pos]] + operand + s[mid..end]
    ensures whole == prefix + s[pos..end]
  {
    SliceSplit(s, pos, pos + 1, mid);
    SliceSplit(s, pos, mid, end);
    assert s[pos..pos + 1] == [s[pos]];
  }

  /** An opening element at `pos`, the elements up to `close`, and the closing element at `close`. */
  lemma ParenSplice<T>(s: seq<T>, pos: nat, close: nat, inner: seq<T>, whole: seq<T>)
    requires pos < close < |s|
    requires inner == s[pos + 1..close]
    requires whole == [s[pos]] + inner + [s[close]]
    ensures whole == s[pos..close + 1]
  {
    SliceSplit(s, pos, pos + 1, close);
    SliceSplit(s, pos, close, close + 1);
    assert s[pos..pos + 1] == [s[pos]];
    assert s[close..close + 1] == [s[close]];
  }
}
