/**
 * The label rule that both analyzers apply to their final `(has_sort,
 * max_depth)`: sort dominance up to depth one, then constant, linear and
 * polynomial labels by depth. The two analyzers differ only in the reason text
 * they attach, so each keeps its own reason and shares this label.
 */
module Complexity {
  import opened Text

  /** The label chosen by the first matching rule. */
  function Label(hasSort: bool, maxDepth: nat): string {
    if hasSort && maxDepth <= 1 then "O(N log N)"
    else if maxDepth == 0 then "O(1)"
    else if maxDepth == 1 then "O(N)"
    else "O(N^" + NatToString(maxDepth) + ")"
  }

  /** The polynomial labels `O(N^k)`, which begin with `O(N^`. */
  predicate IsPolynomial(tag: string) {
    |tag| > 4 && tag[..4] == "O(N^"
  }

  /**
   * Each label names exactly the inputs its rule covers: the first-match
   * rules read as a partition of all `(has_sort, max_depth)` pairs.
   */
  lemma LabelRule(hasSort: bool, maxDepth: nat)
    ensures Label(hasSort, maxDepth) == "O(N log N)" <==> hasSort && maxDepth <= 1
    ensures Label(hasSort, maxDepth) == "O(1)" <==> !hasSort && maxDepth == 0
    ensures Label(hasSort, maxDepth) == "O(N)" <==> !hasSort && maxDepth == 1
    ensures IsPolynomial(Label(hasSort, maxDepth)) <==> maxDepth >= 2
  {
    var tag := Label(hasSort, maxDepth);
    if maxDepth >= 2 {
      assert tag[3] == '^';
      assert tag[..4] == "O(N^";
    } else if |tag| > 4 {
      assert tag == "O(N log N)";
      assert tag[..4][3] == ' ';
    }
  }

  /**
   * Outside sort dominance the label determines the depth: two depths that
   * get the same constant, linear or polynomial label are equal.
   */
  lemma LabelDeterminesDepth(hasSort1: bool, maxDepth1: nat, hasSort2: bool, maxDepth2: nat)
    requires Label(hasSort1, maxDepth1) == Label(hasSort2, maxDepth2)
    requires Label(hasSort1, maxDepth1) != "O(N log N)"
    ensures maxDepth1 == maxDepth2
  {
    LabelRule(hasSort1, maxDepth1);
    LabelRule(hasSort2, maxDepth2);
    if maxDepth1 >= 2 && maxDepth2 >= 2 {
      var d1, d2 := NatToString(maxDepth1), NatToString(maxDepth2);
      var tag := Label(hasSort1, maxDepth1);
      assert tag == "O(N^" + d1 + ")" == "O(N^" + d2 + ")";
      assert |d1| == |d2|;
      assert d1 == tag[4..4 + |d1|] == d2;
      NatToStringInjective(maxDepth1, maxDepth2);
    }
  }
}
