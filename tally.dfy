/** Weighted counts over a sequence: how many planes are in a given kind of phase. */
module Tally {

  /** The sum of `w` over the elements of `s`. */
  function Sum<T>(s: seq<T>, w: T -> int): int
  {
    if s == [] then 0 else w(s[0]) + Sum(s[1..], w)
  }

  /** Replacing one element changes the sum by the difference of the two weights. */
  lemma {:induction false} SumUpdate<T>(s: seq<T>, i: nat, x: T, w: T -> int)
    requires i < |s|
    ensures Sum(s[i := x], w) == Sum(s, w) - w(s[i]) + w(x)
  {
    if i == 0 {
      assert s[i := x][1..] == s[1..];
    } else {
      assert s[i := x][1..] == s[1..][i - 1 := x];
      SumUpdate(s[1..], i - 1, x, w);
    }
  }

  /** A sum of weights that are all zero is zero. */
  lemma {:induction false} SumOfZeros<T>(s: seq<T>, w: T -> int)
    requires forall k :: 0 <= k < |s| ==> w(s[k]) == 0
    ensures Sum(s, w) == 0
  {
    if s != [] {
      assert forall k :: 0 <= k < |s[1..]| ==> s[1..][k] == s[k + 1];
      SumOfZeros(s[1..], w);
    }
  }

  /** A sum of 0/1 weights lies between zero and the length of the sequence. */
  lemma {:induction false} SumOfFlagsBounded<T>(s: seq<T>, w: T -> int)
    requires forall x :: w(x) == 0 || w(x) == 1
    ensures 0 <= Sum(s, w) <= |s|
  {
    if s != [] {
      SumOfFlagsBounded(s[1..], w);
    }
  }

  /** A sum of 0/1 weights is zero exactly when every element weighs zero. */
  lemma {:induction false} SumOfFlagsZero<T>(s: seq<T>, w: T -> int, k: nat)
    requires forall x :: w(x) == 0 || w(x) == 1
    requires k < |s|
    ensures Sum(s, w) == 0 ==> w(s[k]) == 0
  {
    SumOfFlagsBounded(s[1..], w);
    if k > 0 {
      SumOfFlagsZero(s[1..], w, k - 1);
    }
  }

  /** An element of weight one makes a 0/1 sum positive. */
  lemma SumOfFlagsPositive<T>(s: seq<T>, w: T -> int, k: nat)
    requires forall x :: w(x) == 0 || w(x) == 1
    requires k < |s| && w(s[k]) == 1
    ensures Sum(s, w) >= 1
  {
    SumOfFlagsZero(s, w, k);
    SumOfFlagsBounded(s, w);
  }
}
