/**
 * `ComplexityAnalyzer.analyze`: walk the parsed tree with the depth stack,
 * then turn `(has_sort, max_depth)` into a label and a reason. The label rule
 * is the one the token analyzer uses; only the reasons differ.
 */
module Analyzer {
  import opened Wrappers
  import opened Text
  import opened Complexity
  import opened DepthStack
  import opened AnalyzerNodes
  import opened AnalyzerWalk

  /** The final result: sort dominance up to depth one, then the depth decides. */
  function Synthesize(hasSort: bool, maxDepth: nat): (r: (string, string))
    ensures r.0 == Label(hasSort, maxDepth)
    ensures hasSort && maxDepth <= 1 ==> r.1 == "Sorting (.sort) dominates linear operations"
    ensures !hasSort && maxDepth == 0 ==> r.1 == "Constant time operations"
    ensures !hasSort && maxDepth == 1 ==> r.1 == "Single loop or linear operation detected"
    ensures maxDepth >= 2 ==>
      r.1 == "Nested loops/operations detected (Depth " + NatToString(maxDepth) + ")"
  {
    if hasSort && maxDepth <= 1 then ("O(N log N)", "Sorting (.sort) dominates linear operations")
    else if maxDepth == 0 then ("O(1)", "Constant time operations")
    else if maxDepth == 1 then ("O(N)", "Single loop or linear operation detected")
    else ("O(N^" + NatToString(maxDepth) + ")", "Nested loops/operations detected (Depth " + NatToString(maxDepth) + ")")
  }

  /** What `analyze` returns for the encoded `code` whose parse tree is `root`. */
  function Analysis(code: seq<Byte>, root: Node, pats: Patterns): (string, string) {
    var r := Run(Start(root), Context(code, pats));
    Synthesize(r.hasSort, r.maxDepth)
  }

  /**
   * What a whole walk finds: `has_sort` is set exactly when the tree has a
   * `.sort` call, and `max_depth` is 0 exactly when no node pushes 1 and is
   * never more than the number of nodes that do.
   */
  lemma WalkFindings(root: Node, ctx: Context)
    ensures var r := Run(Start(root), ctx);
      && (r.hasSort <==> Weight(root, SortCalls, ctx) > 0)
      && r.maxDepth <= Weight(root, CostlyNodes, ctx)
      && (r.maxDepth == 0 <==> Weight(root, CostlyNodes, ctx) == 0)
      && Bits(r.depthStack)
  {
    var w := Start(root);
    RunSort(w, ctx);
    RunDepth(w, ctx);
    FirstVisitsMatchTree(root, SortCalls, ctx);
    FirstVisitsMatchTree(root, CostlyNodes, ctx);
  }

  /**
   * The labels in terms of the tree: `O(1)` exactly when there is neither a
   * cost-1 node nor a `.sort` call, `O(N log N)` exactly when there is a
   * `.sort` call and the depth stays at most 1, `O(N)` only with at least
   * one cost-1 node and no sort, and `O(N^k)` only with at least `k` cost-1
   * nodes.
   */
  lemma AnalysisLabels(code: seq<Byte>, root: Node, pats: Patterns)
    ensures var ctx := Context(code, pats);
      var tag := Analysis(code, root, pats).0;
      var costly, sorts := Weight(root, CostlyNodes, ctx), Weight(root, SortCalls, ctx);
      var depth := Run(Start(root), ctx).maxDepth;
      && (tag == "O(1)" <==> costly == 0 && sorts == 0)
      && (tag == "O(N log N)" <==> sorts > 0 && depth <= 1)
      && (tag == "O(N)" ==> sorts == 0 && costly >= 1)
      && (IsPolynomial(tag) ==> 2 <= depth <= costly)
  {
    var ctx := Context(code, pats);
    var r := Run(Start(root), ctx);
    WalkFindings(root, ctx);
    LabelRule(r.hasSort, r.maxDepth);
  }

  /**
   * The cursor moves of one iteration, after the first-visit update: to the
   * first child, else to the next sibling, else up to the parent, else done.
   */
  method Navigate(cursor: seq<Frame>, visitedChildren: bool, depthStack: seq<int>, ghost v: Walk)
    returns (next: seq<Frame>, nextVisited: bool, nextStack: seq<int>, done: bool)
    requires ValidCursor(cursor)
    requires v.cursor == cursor && v.visitedChildren == visitedChildren && v.depthStack == depthStack
    ensures Move(v) == v.(cursor := next, visitedChildren := nextVisited, depthStack := nextStack,
                          halted := v.halted || done)
  {
    var node := Current(cursor);
    var nodeType := node.kind;
    next, nextVisited, nextStack, done := cursor, visitedChildren, depthStack, false;
    if !visitedChildren && node.children != [] {
      next := ToFirstChild(cursor);
      nextVisited := false;
      assert Descends(v) && !PopsOnMove(v) && !Stops(v);
    } else if HasNextSibling(cursor) {
      next := ToNextSibling(cursor);
      nextVisited := false;
      if nodeType in PopKinds && nextStack != [] {
        nextStack := nextStack[..|nextStack| - 1];
      }
      assert PopsOnMove(v) == (nodeType in PopKinds) && !Stops(v);
    } else if |cursor| > 1 {
      next := ToParent(cursor);
      nextVisited := true;
      var parentType := Current(next).kind;
      if parentType in PopKinds && nextStack != [] {
        nextStack := nextStack[..|nextStack| - 1];
      }
      assert PopsOnMove(v) == (parentType in PopKinds) && !Stops(v);
    } else {
      done := true;
      assert Stops(v) && !PopsOnMove(v);
    }
    assert NextCursor(v) == next;
    assert nextStack == PopIf(PopsOnMove(v), depthStack);
  }

  /**
   * The first visit of `node`: note a `.sort` call, push the node's cost if
   * it has one, and raise `max_depth` to the sum of the stack.
   */
  method VisitNode(node: Node, depthStack: seq<int>, maxDepth: nat, hasSort: bool, ctx: Context, ghost w: Walk)
    returns (nextStack: seq<int>, nextMax: nat, nextSort: bool)
    requires ValidCursor(w.cursor) && Current(w.cursor) == node
    requires w.depthStack == depthStack && w.maxDepth == maxDepth && w.hasSort == hasSort
    ensures Visit(w, NodeCost(node, ctx), SortsIn(node, ctx))
      == w.(depthStack := nextStack, maxDepth := nextMax, hasSort := nextSort)
  {
    var cost, sorts := Classify(node, ctx);
    nextSort := hasSort;
    if sorts {
      nextSort := true;
    }
    nextStack := depthStack;
    if cost.Some? {
      nextStack := nextStack + [cost.value];
    }
    var currentDepth := Sum(nextStack);
    nextMax := maxDepth;
    if currentDepth > nextMax {
      nextMax := currentDepth;
    }
  }

  /** The walking loop of `analyze`: the final `max_depth` and `has_sort`. */
  method WalkTree(root: Node, ctx: Context) returns (maxDepth: nat, hasSort: bool)
    ensures maxDepth == Run(Start(root), ctx).maxDepth
    ensures hasSort == Run(Start(root), ctx).hasSort
  {
    var cursor := [Frame([root], 0)];
    maxDepth := 0;
    var depthStack: seq<int> := [];
    var visitedChildren := false;
    hasSort := false;

    while true
      invariant ValidCursor(cursor)
      invariant Run(Walk(cursor, visitedChildren, depthStack, maxDepth, hasSort, false), ctx) == Run(Start(root), ctx)
      decreases Pending(Walk(cursor, visitedChildren, depthStack, maxDepth, hasSort, false), AllNodes, ctx),
        |cursor|, if visitedChildren then 1 else 0
    {
      ghost var w := Walk(cursor, visitedChildren, depthStack, maxDepth, hasSort, false);
      StepDecreases(w, ctx);
      var node := Current(cursor);

      if !visitedChildren {
        depthStack, maxDepth, hasSort := VisitNode(node, depthStack, maxDepth, hasSort, ctx, w);
      }
      ghost var v := Walk(cursor, visitedChildren, depthStack, maxDepth, hasSort, false);
      assert Step(w, ctx) == Move(v);

      var done;
      cursor, visitedChildren, depthStack, done := Navigate(cursor, visitedChildren, depthStack, v);
      if done {
        break;
      }
    }
  }

  /** `ComplexityAnalyzer.analyze` on a tree the parser produced for `code`. */
  method Analyze(code: seq<Byte>, root: Node, pats: Patterns) returns (tag: string, reason: string)
    ensures (tag, reason) == Analysis(code, root, pats)
    ensures tag == "O(1)" <==>
      Weight(root, CostlyNodes, Context(code, pats)) == 0 && Weight(root, SortCalls, Context(code, pats)) == 0
  {
    var maxDepth, hasSort := WalkTree(root, Context(code, pats));
    AnalysisLabels(code, root, pats);

    if hasSort && maxDepth <= 1 {
      return "O(N log N)", "Sorting (.sort) dominates linear operations";
    }
    if maxDepth == 0 {
      return "O(1)", "Constant time operations";
    } else if maxDepth == 1 {
      return "O(N)", "Single loop or linear operation detected";
    } else {
      return "O(N^" + NatToString(maxDepth) + ")", "Nested loops/operations detected (Depth " + NatToString(maxDepth) + ")";
    }
  }

  // ---------------------------------------------------------------------------
  // The pop rule as written.

  /**
   * A call that pushed nothing still pops when the cursor moves on to its
   * sibling: a leaf `call_expression` that is not linear removes an entry
   * some other node pushed.
   */
  lemma PlainCallPopsAnyway(w: Walk, ctx: Context)
    requires ValidCursor(w.cursor) && !w.halted && !w.visitedChildren
    requires Current(w.cursor).kind == "call_expression" && Current(w.cursor).children == []
    requires NodeCost(Current(w.cursor), ctx) == None
    requires HasNextSibling(w.cursor) && w.depthStack != []
    ensures Step(w, ctx).depthStack == w.depthStack[..|w.depthStack| - 1]
  {
    AdvanceEffects(w, None, SortsIn(Current(w.cursor), ctx));
  }

  /**
   * A node of a listed kind is popped for twice on the way out of it: once
   * when the cursor climbs into it from its last child, here one whose own
   * children were already walked, and once more when it moves on from it to
   * its next sibling.
   */
  lemma ListedKindPoppedTwice(w: Walk, ctx: Context)
    requires ValidCursor(w.cursor) && !w.halted && w.visitedChildren
    requires |w.cursor| > 1 && !HasNextSibling(w.cursor)
    requires Current(ToParent(w.cursor)).kind in PopKinds && HasNextSibling(ToParent(w.cursor))
    requires |w.depthStack| >= 2
    ensures Step(w, ctx).visitedChildren && !Step(w, ctx).halted
    ensures Step(Step(w, ctx), ctx).depthStack == w.depthStack[..|w.depthStack| - 2]
  {
    var node := Current(w.cursor);
    AdvanceEffects(w, NodeCost(node, ctx), SortsIn(node, ctx));
    AdvanceMoves(w, NodeCost(node, ctx), SortsIn(node, ctx));
    var up := Step(w, ctx);
    assert up.cursor == ToParent(w.cursor);
    var parent := Current(up.cursor);
    AdvanceEffects(up, NodeCost(parent, ctx), SortsIn(parent, ctx));
    assert w.depthStack[..|w.depthStack| - 1][..|w.depthStack| - 2] == w.depthStack[..|w.depthStack| - 2];
  }

  /** Four of the block kinds push 0 but are never popped for. */
  lemma UnpoppedBlocks()
    ensures BlockKinds - PopKinds == {"method_definition", "else_clause", "try_statement", "catch_clause"}
    ensures LoopKinds <= PopKinds
  {
  }
}
