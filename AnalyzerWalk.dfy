/**
 * The syntax-tree analyzer's traversal: a tree cursor walked in pre-order
 * with a `visited_children` flag, pushing a node's cost on its first visit,
 * popping when the cursor leaves certain kinds of node, and recording the
 * deepest stack sum and whether a `.sort` call was seen.
 *
 * `Step` is one iteration of the walking loop and `Run` iterates it until the
 * cursor can move no further; the lemmas count what a whole walk sees.
 */
module AnalyzerWalk {
  import opened Wrappers
  import opened DepthStack
  import opened AnalyzerNodes

  /** One level of the cursor: the node sits at `siblings[index]`. */
  datatype Frame = Frame(siblings: seq<Node>, index: nat)

  /** Each frame's position exists, and each frame holds the children of the one below it. */
  predicate ValidCursor(c: seq<Frame>) {
    && |c| >= 1
    && (forall k | 0 <= k < |c| :: c[k].index < |c[k].siblings|)
    && (forall k | 1 <= k < |c| :: c[k].siblings == c[k - 1].siblings[c[k - 1].index].children)
  }

  function Current(c: seq<Frame>): Node
    requires ValidCursor(c)
  {
    var f := c[|c| - 1];
    f.siblings[f.index]
  }

  predicate HasNextSibling(c: seq<Frame>)
    requires ValidCursor(c)
  {
    c[|c| - 1].index + 1 < |c[|c| - 1].siblings|
  }

  /** `goto_first_child`, for a current node with children. */
  function ToFirstChild(c: seq<Frame>): (r: seq<Frame>)
    requires ValidCursor(c) && Current(c).children != []
    ensures ValidCursor(r) && Current(r) == Current(c).children[0]
  {
    c + [Frame(Current(c).children, 0)]
  }

  /** `goto_next_sibling`, for a current node that has one. */
  function ToNextSibling(c: seq<Frame>): (r: seq<Frame>)
    requires ValidCursor(c) && HasNextSibling(c)
    ensures ValidCursor(r) && |r| == |c|
    ensures Current(r) == c[|c| - 1].siblings[c[|c| - 1].index + 1]
  {
    var f := c[|c| - 1];
    c[..|c| - 1] + [Frame(f.siblings, f.index + 1)]
  }

  /** `goto_parent`, for a cursor below the root. */
  function ToParent(c: seq<Frame>): (r: seq<Frame>)
    requires ValidCursor(c) && |c| > 1
    ensures ValidCursor(r) && |r| == |c| - 1
    ensures Current(c) in Current(r).children
  {
    c[..|c| - 1]
  }

  /** The loop's variables between two iterations; `halted` records the final `break`. */
  datatype Walk = Walk(
    cursor: seq<Frame>,
    visitedChildren: bool,
    depthStack: seq<int>,
    maxDepth: nat,
    hasSort: bool,
    halted: bool)

  function Start(root: Node): (w: Walk)
    ensures ValidCursor(w.cursor) && Current(w.cursor) == root
  {
    Walk([Frame([root], 0)], false, [], 0, false, false)
  }

  /**
   * The guarded `depth_stack.pop()`: the result is a prefix of the stack,
   * one entry shorter exactly when a pop is asked for and there is an entry
   * to take, and the whole stack otherwise, so an empty stack is never popped.
   */
  function PopIf(pop: bool, s: seq<int>): (r: seq<int>)
    ensures |r| == if pop && s != [] then |s| - 1 else |s|
    ensures r == s[..|r|]
  {
    if pop && s != [] then s[..|s| - 1] else s
  }

  /** The first-visit part of an iteration: push the node's cost, note a sort, update the maximum. */
  function Visit(w: Walk, cost: Option<int>, sorts: bool): (r: Walk)
    ensures r.cursor == w.cursor && r.visitedChildren == w.visitedChildren && r.halted == w.halted
  {
    var stack := if cost.Some? then w.depthStack + [cost.value] else w.depthStack;
    var currentDepth := Sum(stack);
    w.(depthStack := stack,
       hasSort := w.hasSort || sorts,
       maxDepth := if w.maxDepth >= currentDepth then w.maxDepth else currentDepth)
  }

  /** The iteration descends to the first child. */
  predicate Descends(w: Walk)
    requires ValidCursor(w.cursor)
  {
    !w.visitedChildren && Current(w.cursor).children != []
  }

  /** The iteration stops: no child to descend to, no next sibling, no parent. */
  predicate Stops(w: Walk)
    requires ValidCursor(w.cursor)
  {
    !Descends(w) && !HasNextSibling(w.cursor) && |w.cursor| == 1
  }

  /** Where navigation takes the cursor: first child, else next sibling, else parent, else nowhere. */
  function NextCursor(w: Walk): (r: seq<Frame>)
    requires ValidCursor(w.cursor)
    ensures ValidCursor(r)
  {
    if Descends(w) then ToFirstChild(w.cursor)
    else if HasNextSibling(w.cursor) then ToNextSibling(w.cursor)
    else if |w.cursor| > 1 then ToParent(w.cursor)
    else w.cursor
  }

  /**
   * Whether navigation pops: never on descent; on a move right when the
   * node left has a listed kind; on a climb when the parent reached has one.
   */
  predicate PopsOnMove(w: Walk)
    requires ValidCursor(w.cursor)
  {
    if Descends(w) then false
    else if HasNextSibling(w.cursor) then Current(w.cursor).kind in PopKinds
    else |w.cursor| > 1 && Current(ToParent(w.cursor)).kind in PopKinds
  }

  /**
   * The navigation part of an iteration: descend, else move right popping
   * for the node left, else climb popping for the parent reached, else stop.
   * The flag is cleared by a descent or a move right and set by a climb.
   */
  function Move(w: Walk): (r: Walk)
    requires ValidCursor(w.cursor)
    ensures ValidCursor(r.cursor)
  {
    w.(cursor := NextCursor(w),
       visitedChildren :=
         if Descends(w) || HasNextSibling(w.cursor) then false
         else if |w.cursor| > 1 then true
         else w.visitedChildren,
       depthStack := PopIf(PopsOnMove(w), w.depthStack),
       halted := w.halted || Stops(w))
  }

  /** One iteration of the walking loop, given the classification of the current node. */
  function Advance(w: Walk, cost: Option<int>, sorts: bool): (r: Walk)
    requires ValidCursor(w.cursor)
    ensures ValidCursor(r.cursor)
  {
    Move(if !w.visitedChildren then Visit(w, cost, sorts) else w)
  }

  /** One iteration of the walking loop: classify the current node, then move on. */
  function Step(w: Walk, ctx: Context): (r: Walk)
    requires ValidCursor(w.cursor)
    ensures ValidCursor(r.cursor)
  {
    var node := Current(w.cursor);
    Advance(w, NodeCost(node, ctx), SortsIn(node, ctx))
  }

  // ---------------------------------------------------------------------------
  // What is still ahead of the cursor.

  /** The counted nodes in the siblings to the right of every frame. */
  function RightOf(c: seq<Frame>, t: Tally, ctx: Context): nat
    requires forall k | 0 <= k < |c| :: c[k].index < |c[k].siblings|
  {
    if c == [] then 0
    else
      var f := c[|c| - 1];
      RightOf(c[..|c| - 1], t, ctx) + WeightSeq(f.siblings[f.index + 1..], t, ctx)
  }

  /** The counted nodes the walk has yet to visit for the first time. */
  function Pending(w: Walk, t: Tally, ctx: Context): nat
    requires ValidCursor(w.cursor)
  {
    (if w.visitedChildren then 0 else Weight(Current(w.cursor), t, ctx)) + RightOf(w.cursor, t, ctx)
  }

  /** The mark of the node an iteration visits for the first time, and 0 when it only passes back through. */
  function FirstMark(w: Walk, t: Tally, ctx: Context): nat
    requires ValidCursor(w.cursor)
  {
    if w.visitedChildren then 0 else Mark(Current(w.cursor), t, ctx)
  }

  lemma WeightSeqSplit(ns: seq<Node>, i: nat, t: Tally, ctx: Context)
    requires i < |ns|
    ensures WeightSeq(ns[i..], t, ctx) == Weight(ns[i], t, ctx) + WeightSeq(ns[i + 1..], t, ctx)
  {
    assert ns[i..][1..] == ns[i + 1..];
  }

  lemma RightOfAppend(c: seq<Frame>, f: Frame, t: Tally, ctx: Context)
    requires forall k | 0 <= k < |c| :: c[k].index < |c[k].siblings|
    requires f.index < |f.siblings|
    ensures RightOf(c + [f], t, ctx) == RightOf(c, t, ctx) + WeightSeq(f.siblings[f.index + 1..], t, ctx)
  {
    assert (c + [f])[..|c|] == c;
  }

  /** Descending to the first child moves the current node's children into view. */
  lemma PendingToFirstChild(c: seq<Frame>, t: Tally, ctx: Context)
    requires ValidCursor(c) && Current(c).children != []
    ensures Weight(Current(c), t, ctx) + RightOf(c, t, ctx)
      == Mark(Current(c), t, ctx) + Weight(Current(ToFirstChild(c)), t, ctx) + RightOf(ToFirstChild(c), t, ctx)
  {
    var children := Current(c).children;
    RightOfAppend(c, Frame(children, 0), t, ctx);
    WeightSeqSplit(children, 0, t, ctx);
    assert children[0..] == children;
  }

  /** Moving right takes the next sibling out of the right-hand count. */
  lemma PendingToNextSibling(c: seq<Frame>, t: Tally, ctx: Context)
    requires ValidCursor(c) && HasNextSibling(c)
    ensures RightOf(c, t, ctx) == Weight(Current(ToNextSibling(c)), t, ctx) + RightOf(ToNextSibling(c), t, ctx)
  {
    var f := c[|c| - 1];
    var init := c[..|c| - 1];
    var g := Frame(f.siblings, f.index + 1);
    assert c == init + [f];
    assert ToNextSibling(c) == init + [g];
    RightOfAppend(init, f, t, ctx);
    RightOfAppend(init, g, t, ctx);
    WeightSeqSplit(f.siblings, f.index + 1, t, ctx);
  }

  /** The last sibling has nothing to its right, so climbing or stopping loses nothing. */
  lemma PendingAtLastSibling(c: seq<Frame>, t: Tally, ctx: Context)
    requires ValidCursor(c) && !HasNextSibling(c)
    ensures |c| > 1 ==> RightOf(c, t, ctx) == RightOf(ToParent(c), t, ctx)
    ensures |c| == 1 ==> RightOf(c, t, ctx) == 0
  {
    var f := c[|c| - 1];
    var init := c[..|c| - 1];
    assert c == init + [f];
    RightOfAppend(init, f, t, ctx);
    assert f.siblings[f.index + 1..] == [];
  }

  /** Where an iteration moves the cursor, whatever it does to the stack. */
  lemma AdvanceMoves(w: Walk, cost: Option<int>, sorts: bool)
    requires ValidCursor(w.cursor) && !w.halted
    ensures var r := Advance(w, cost, sorts); var node := Current(w.cursor);
      if !w.visitedChildren && node.children != [] then
        r.cursor == ToFirstChild(w.cursor) && !r.visitedChildren && !r.halted
      else if HasNextSibling(w.cursor) then
        r.cursor == ToNextSibling(w.cursor) && !r.visitedChildren && !r.halted
      else if |w.cursor| > 1 then
        r.cursor == ToParent(w.cursor) && r.visitedChildren && !r.halted
      else
        r.cursor == w.cursor && r.halted
  {
  }

  /**
   * Each iteration's first visit takes its node off the pending count:
   * what is pending afterwards plus what was visited equals what was
   * pending before, and a halting iteration leaves nothing pending.
   */
  lemma StepPending(w: Walk, t: Tally, ctx: Context)
    requires ValidCursor(w.cursor) && !w.halted
    ensures var r := Step(w, ctx);
      if r.halted then Pending(w, t, ctx) == FirstMark(w, t, ctx)
      else Pending(r, t, ctx) + FirstMark(w, t, ctx) == Pending(w, t, ctx)
  {
    var node := Current(w.cursor);
    AdvancePending(w, NodeCost(node, ctx), SortsIn(node, ctx), t, ctx);
  }

  /** `StepPending` for any classification of the current node. */
  lemma AdvancePending(w: Walk, cost: Option<int>, sorts: bool, t: Tally, ctx: Context)
    requires ValidCursor(w.cursor) && !w.halted
    ensures var r := Advance(w, cost, sorts);
      if r.halted then Pending(w, t, ctx) == FirstMark(w, t, ctx)
      else Pending(r, t, ctx) + FirstMark(w, t, ctx) == Pending(w, t, ctx)
  {
    var v := if !w.visitedChildren then Visit(w, cost, sorts) else w;
    assert v.cursor == w.cursor && v.visitedChildren == w.visitedChildren && !v.halted;
    MovePending(v, t, ctx);
  }

  /** The pending count across the navigation part of an iteration. */
  lemma MovePending(v: Walk, t: Tally, ctx: Context)
    requires ValidCursor(v.cursor) && !v.halted
    ensures var r := Move(v);
      if r.halted then Pending(v, t, ctx) == FirstMark(v, t, ctx)
      else Pending(r, t, ctx) + FirstMark(v, t, ctx) == Pending(v, t, ctx)
  {
    if Descends(v) {
      PendingOnDescent(v, t, ctx);
    } else if HasNextSibling(v.cursor) {
      PendingOnMoveRight(v, t, ctx);
    } else {
      PendingOnClimbOrStop(v, t, ctx);
    }
  }

  lemma PendingOnDescent(v: Walk, t: Tally, ctx: Context)
    requires ValidCursor(v.cursor) && !v.halted && Descends(v)
    ensures !Move(v).halted && Pending(Move(v), t, ctx) + FirstMark(v, t, ctx) == Pending(v, t, ctx)
  {
    var r := Move(v);
    assert r.cursor == ToFirstChild(v.cursor) && !r.visitedChildren && !r.halted;
    PendingToFirstChild(v.cursor, t, ctx);
  }

  lemma PendingOnMoveRight(v: Walk, t: Tally, ctx: Context)
    requires ValidCursor(v.cursor) && !v.halted && !Descends(v) && HasNextSibling(v.cursor)
    ensures !Move(v).halted && Pending(Move(v), t, ctx) + FirstMark(v, t, ctx) == Pending(v, t, ctx)
  {
    var r := Move(v);
    var node := Current(v.cursor);
    assert r.cursor == ToNextSibling(v.cursor) && !r.visitedChildren && !r.halted;
    assert !v.visitedChildren ==> Weight(node, t, ctx) == Mark(node, t, ctx);
    PendingToNextSibling(v.cursor, t, ctx);
  }

  lemma PendingOnClimbOrStop(v: Walk, t: Tally, ctx: Context)
    requires ValidCursor(v.cursor) && !v.halted && !Descends(v) && !HasNextSibling(v.cursor)
    ensures var r := Move(v);
      if r.halted then Pending(v, t, ctx) == FirstMark(v, t, ctx)
      else Pending(r, t, ctx) + FirstMark(v, t, ctx) == Pending(v, t, ctx)
  {
    var r := Move(v);
    var node := Current(v.cursor);
    assert !v.visitedChildren ==> Weight(node, t, ctx) == Mark(node, t, ctx);
    PendingAtLastSibling(v.cursor, t, ctx);
    if |v.cursor| > 1 {
      assert r.cursor == ToParent(v.cursor) && r.visitedChildren && !r.halted;
    } else {
      assert r.halted;
    }
  }

  /** The walk's termination measure: pending nodes, then cursor depth, then the flag. */
  lemma StepDecreases(w: Walk, ctx: Context)
    requires ValidCursor(w.cursor) && !w.halted
    ensures var r := Step(w, ctx);
      r.halted
      || Pending(r, AllNodes, ctx) < Pending(w, AllNodes, ctx)
      || (Pending(r, AllNodes, ctx) == Pending(w, AllNodes, ctx) && |r.cursor| < |w.cursor|)
      || (Pending(r, AllNodes, ctx) == Pending(w, AllNodes, ctx) && |r.cursor| == |w.cursor|
          && w.visitedChildren && !r.visitedChildren)
  {
    StepPending(w, AllNodes, ctx);
  }

  /** The walk from `w` to its final `break`. */
  function Run(w: Walk, ctx: Context): (r: Walk)
    requires ValidCursor(w.cursor)
    ensures ValidCursor(r.cursor)
    decreases if w.halted then 0 else 1, Pending(w, AllNodes, ctx), |w.cursor|, if w.visitedChildren then 1 else 0
  {
    if w.halted then w
    else
      StepDecreases(w, ctx);
      Run(Step(w, ctx), ctx)
  }

  /** How many counted nodes the walk from `w` visits for the first time. */
  function Visits(w: Walk, t: Tally, ctx: Context): nat
    requires ValidCursor(w.cursor)
    decreases if w.halted then 0 else 1, Pending(w, AllNodes, ctx), |w.cursor|, if w.visitedChildren then 1 else 0
  {
    if w.halted then 0
    else
      StepDecreases(w, ctx);
      FirstMark(w, t, ctx) + Visits(Step(w, ctx), t, ctx)
  }

  // ---------------------------------------------------------------------------
  // What one iteration does to the stack, the maximum and the sort flag.

  /** The stack after the first-visit push, before any pop. */
  function Pushed(w: Walk, cost: Option<int>): seq<int> {
    if !w.visitedChildren && cost.Some? then w.depthStack + [cost.value] else w.depthStack
  }

  function Max(a: int, b: int): int {
    if a >= b then a else b
  }

  /**
   * One iteration pushes at most one entry, and only on a first visit;
   * descending never pops; moving right pops when the node left behind has a
   * listed kind; climbing pops when the parent arrived at has one; every pop
   * is skipped on an empty stack. `max_depth` takes the stack sum after the
   * push, and `has_sort` only ever turns on.
   */
  lemma AdvanceEffects(w: Walk, cost: Option<int>, sorts: bool)
    requires ValidCursor(w.cursor) && !w.halted
    ensures var r := Advance(w, cost, sorts); var node := Current(w.cursor); var p := Pushed(w, cost);
      && (w.visitedChildren ==> p == w.depthStack)
      && (!w.visitedChildren && node.children != [] ==> r.depthStack == p)
      && (!(!w.visitedChildren && node.children != []) && HasNextSibling(w.cursor) ==>
            r.depthStack == PopIf(node.kind in PopKinds, p))
      && (!(!w.visitedChildren && node.children != []) && !HasNextSibling(w.cursor) && |w.cursor| > 1 ==>
            r.depthStack == PopIf(Current(ToParent(w.cursor)).kind in PopKinds, p))
      && (!(!w.visitedChildren && node.children != []) && !HasNextSibling(w.cursor) && |w.cursor| == 1 ==>
            r.depthStack == p)
      && r.maxDepth == (if w.visitedChildren then w.maxDepth else Max(w.maxDepth, Sum(p)))
      && r.hasSort == (w.hasSort || (!w.visitedChildren && sorts))
  {
  }

  lemma AdvanceStack(w: Walk, cost: Option<int>, sorts: bool)
    requires ValidCursor(w.cursor)
    ensures Advance(w, cost, sorts).depthStack == PopIf(PopsOnMove(w), Pushed(w, cost))
    ensures Advance(w, cost, sorts).maxDepth ==
      if w.visitedChildren then w.maxDepth else Max(w.maxDepth, Sum(Pushed(w, cost)))
  {
  }

  /** A pop that may happen keeps a 0/1 stack and lowers its sum by at most 1. */
  lemma PopIfBits(pop: bool, s: seq<int>)
    requires Bits(s)
    ensures Bits(PopIf(pop, s))
    ensures Sum(s) - 1 <= Sum(PopIf(pop, s)) <= Sum(s)
  {
    if pop && s != [] {
      SumPop(s);
    }
  }

  /** The push of a 0/1 cost keeps a 0/1 stack and raises its sum by the cost. */
  lemma PushedBits(w: Walk, cost: Option<int>)
    requires Bits(w.depthStack)
    requires cost.Some? ==> cost.value == 0 || cost.value == 1
    ensures Bits(Pushed(w, cost))
    ensures Sum(Pushed(w, cost)) == Sum(w.depthStack) + (if !w.visitedChildren && cost == Some(1) then 1 else 0)
  {
    if !w.visitedChildren && cost.Some? {
      SumAppend(w.depthStack, cost.value);
      BitsAppend(w.depthStack, cost.value);
    }
  }

  /**
   * The depth bookkeeping of one iteration on plain values: a push raising
   * the sum by `m`, a pop that may follow, and the maximum taken after the push.
   */
  lemma DepthBookkeeping(s: seq<int>, p: seq<int>, pop: bool, m: nat, visited: bool, oldMax: nat, newMax: nat)
    requires Bits(s) && Bits(p) && Sum(p) == Sum(s) + m
    requires m > 0 ==> !visited
    requires newMax == if visited then oldMax else Max(oldMax, Sum(p))
    ensures Bits(PopIf(pop, p))
    ensures Sum(PopIf(pop, p)) <= Sum(s) + m
    ensures oldMax <= newMax <= Max(oldMax, Sum(s) + m)
    ensures m > 0 ==> newMax >= 1
  {
    PopIfBits(pop, p);
    SumBits(s);
  }

  /**
   * For a 0/1 cost: the push raises the sum by 1 exactly for a cost of 1 on
   * a first visit, and the pop that may follow lowers it by at most 1.
   */
  lemma AdvanceDepth(w: Walk, cost: Option<int>, sorts: bool, m: nat)
    requires ValidCursor(w.cursor) && !w.halted && Bits(w.depthStack)
    requires cost.Some? ==> cost.value == 0 || cost.value == 1
    requires m == if !w.visitedChildren && cost == Some(1) then 1 else 0
    ensures var r := Advance(w, cost, sorts);
      && Bits(r.depthStack)
      && Sum(r.depthStack) <= Sum(w.depthStack) + m
      && w.maxDepth <= r.maxDepth <= Max(w.maxDepth, Sum(w.depthStack) + m)
      && (m > 0 ==> r.maxDepth >= 1)
  {
    var r := Advance(w, cost, sorts);
    var p := Pushed(w, cost);
    AdvanceStack(w, cost, sorts);
    PushedBits(w, cost);
    DepthBookkeeping(w.depthStack, p, PopsOnMove(w), m, w.visitedChildren, w.maxDepth, r.maxDepth);
    assert r.depthStack == PopIf(PopsOnMove(w), p);
  }

  /** One iteration's effect on the depth, in terms of the cost-1 node it visits. */
  lemma StepDepth(w: Walk, ctx: Context)
    requires ValidCursor(w.cursor) && !w.halted && Bits(w.depthStack)
    ensures var r := Step(w, ctx); var m := FirstMark(w, CostlyNodes, ctx);
      && Bits(r.depthStack)
      && Sum(r.depthStack) <= Sum(w.depthStack) + m
      && w.maxDepth <= r.maxDepth <= Max(w.maxDepth, Sum(w.depthStack) + m)
      && (m > 0 ==> r.maxDepth >= 1)
  {
    var node := Current(w.cursor);
    var cost, sorts := NodeCost(node, ctx), SortsIn(node, ctx);
    assert Step(w, ctx) == Advance(w, cost, sorts);
    AdvanceDepth(w, cost, sorts, FirstMark(w, CostlyNodes, ctx));
  }

  /** `has_sort` only ever turns on, and an iteration turns it on by a first visit of a `.sort` call. */
  lemma AdvanceSort(w: Walk, cost: Option<int>, sorts: bool)
    requires ValidCursor(w.cursor)
    ensures Advance(w, cost, sorts).hasSort == (w.hasSort || (!w.visitedChildren && sorts))
  {
  }

  /** `AdvanceSort` for the classification of the current node. */
  lemma StepSort(w: Walk, ctx: Context)
    requires ValidCursor(w.cursor)
    ensures Step(w, ctx).hasSort == (w.hasSort || FirstMark(w, SortCalls, ctx) > 0)
  {
    var node := Current(w.cursor);
    var cost, sorts := NodeCost(node, ctx), SortsIn(node, ctx);
    assert Step(w, ctx) == Advance(w, cost, sorts);
    AdvanceSort(w, cost, sorts);
  }

  /** `has_sort` ends up set exactly when it was set already or the walk visits a `.sort` call. */
  lemma {:induction false} RunSort(w: Walk, ctx: Context)
    requires ValidCursor(w.cursor)
    ensures Run(w, ctx).hasSort <==> w.hasSort || Visits(w, SortCalls, ctx) > 0
    decreases if w.halted then 0 else 1, Pending(w, AllNodes, ctx), |w.cursor|, if w.visitedChildren then 1 else 0
  {
    if !w.halted {
      var next := Step(w, ctx);
      StepDecreases(w, ctx);
      StepSort(w, ctx);
      RunSort(next, ctx);
      assert Run(w, ctx) == Run(next, ctx);
      assert Visits(w, SortCalls, ctx) == FirstMark(w, SortCalls, ctx) + Visits(next, SortCalls, ctx);
    }
  }

  /**
   * Over the rest of a walk `max_depth` never decreases, exceeds neither its
   * old value nor the current stack sum plus the number of cost-1 nodes still
   * to be visited, and is at least 1 once such a node is visited; the stack
   * keeps only 0/1 entries.
   */
  lemma {:induction false} RunDepth(w: Walk, ctx: Context)
    requires ValidCursor(w.cursor) && Bits(w.depthStack)
    ensures var r := Run(w, ctx);
      && Bits(r.depthStack)
      && w.maxDepth <= r.maxDepth
      && (r.maxDepth <= w.maxDepth || r.maxDepth <= Sum(w.depthStack) + Visits(w, CostlyNodes, ctx))
      && (Visits(w, CostlyNodes, ctx) > 0 ==> r.maxDepth >= 1)
    decreases if w.halted then 0 else 1, Pending(w, AllNodes, ctx), |w.cursor|, if w.visitedChildren then 1 else 0
  {
    if !w.halted {
      var next := Step(w, ctx);
      StepDecreases(w, ctx);
      StepDepth(w, ctx);
      RunDepth(next, ctx);
      assert Run(w, ctx) == Run(next, ctx);
      assert Visits(w, CostlyNodes, ctx) == FirstMark(w, CostlyNodes, ctx) + Visits(next, CostlyNodes, ctx);
    }
  }

  /** A walk that has not stopped visits for the first time exactly the counted nodes still pending. */
  lemma {:induction false} VisitsArePending(w: Walk, t: Tally, ctx: Context)
    requires ValidCursor(w.cursor) && !w.halted
    ensures Visits(w, t, ctx) == Pending(w, t, ctx)
    decreases Pending(w, AllNodes, ctx), |w.cursor|, if w.visitedChildren then 1 else 0
  {
    StepDecreases(w, ctx);
    StepPending(w, t, ctx);
    if !Step(w, ctx).halted {
      VisitsArePending(Step(w, ctx), t, ctx);
    }
  }

  /** For any tally, the walk from the root visits for the first time as many counted nodes as the tree has. */
  lemma FirstVisitsMatchTree(root: Node, t: Tally, ctx: Context)
    ensures Visits(Start(root), t, ctx) == Weight(root, t, ctx)
  {
    var w := Start(root);
    VisitsArePending(w, t, ctx);
    RightOfAppend([], Frame([root], 0), t, ctx);
    assert [] + [Frame([root], 0)] == w.cursor;
    assert [root][1..] == [];
  }

  /**
   * Node by node: the walk from the root visits `m` for the first time
   * exactly as often as `m` occurs in the tree, so at least once when it is in
   * the tree and never when it is not; a node that occurs once is visited for
   * the first time exactly once.
   */
  lemma EachNodeVisited(root: Node, m: Node, ctx: Context)
    ensures Visits(Start(root), Copies(m), ctx) == Weight(root, Copies(m), ctx)
    ensures Visits(Start(root), Copies(m), ctx) > 0 <==> InTree(root, m)
  {
    FirstVisitsMatchTree(root, Copies(m), ctx);
    CopiesInTree(root, m, ctx);
  }
}
