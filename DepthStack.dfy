/**
 * The depth stacks both analyzers keep: a list of 0/1 costs whose sum is the
 * current nesting depth.
 */
module DepthStack {

  /** Python's `sum` on a list of integers. */
  function Sum(s: seq<int>): int {
    if s == [] then 0 else Sum(s[..|s| - 1]) + s[|s| - 1]
  }

  /** Every entry is a cost of 0 or 1. */
  predicate Bits(s: seq<int>) {
    forall k | 0 <= k < |s| :: s[k] == 0 || s[k] == 1
  }

  lemma SumAppend(s: seq<int>, x: int)
    ensures Sum(s + [x]) == Sum(s) + x
  {
    assert (s + [x])[..|s|] == s;
  }

  lemma BitsAppend(s: seq<int>, x: int)
    requires Bits(s) && (x == 0 || x == 1)
    ensures Bits(s + [x])
  {
  }

  lemma BitsPrefix(s: seq<int>, n: nat)
    requires Bits(s) && n <= |s|
    ensures Bits(s[..n])
  {
  }

  /** A stack of 0/1 costs sums to at least 0 and at most its height. */
  lemma {:induction false} SumBits(s: seq<int>)
    requires Bits(s)
    ensures 0 <= Sum(s) <= |s|
  {
    if s != [] {
      SumBits(s[..|s| - 1]);
    }
  }

  /** Popping the top entry of a 0/1 stack lowers its sum by that entry, so by 0 or 1. */
  lemma SumPop(s: seq<int>)
    requires Bits(s) && s != []
    ensures Sum(s[..|s| - 1]) == Sum(s) - s[|s| - 1]
    ensures Bits(s[..|s| - 1])
    ensures Sum(s) - 1 <= Sum(s[..|s| - 1]) <= Sum(s)
  {
  }
}
