/**
 * The syntax-tree analyzer's view of one node: the cost it pushes on its
 * first visit and whether it is a `.sort` call. The parser's tree is an
 * input; its nodes carry a kind and a byte range into the encoded code.
 */
module AnalyzerNodes {
  import opened Wrappers
  import opened Text

  /** A parsed node: its grammar kind, its byte range `[start, end)` and its children in order. */
  datatype Node = Node(kind: string, start: nat, end: nat, children: seq<Node>)

  /**
   * The regular expressions the classification applies, as predicates on
   * the bytes they are applied to:
   * `constantBound` — a comparison with a literal bound, or `range(<digits>)`, in a loop header;
   * `namesConstructor(text, name)` — `new`, whitespace, then `name`, starting at a word boundary;
   * `hasArguments` — a parenthesised argument list with non-blank content.
   */
  datatype Patterns = Patterns(
    constantBound: seq<Byte> -> bool,
    namesConstructor: (seq<Byte>, seq<Byte>) -> bool,
    hasArguments: seq<Byte> -> bool)

  /** The encoded code and the patterns every node is judged by. */
  datatype Context = Context(code: seq<Byte>, pats: Patterns)

  function Min(a: int, b: int): int {
    if a <= b then a else b
  }

  /** Python's `b[lo:hi]` for non-negative bounds: both ends clamp to the length. */
  function Slice(b: seq<Byte>, lo: nat, hi: nat): (r: seq<Byte>)
    ensures |r| == if Min(hi, |b|) <= lo then 0 else Min(hi, |b|) - lo
    ensures forall k | 0 <= k < |r| :: r[k] == b[lo + k]
  {
    var top := Min(hi, |b|);
    if top <= lo then [] else b[lo..top]
  }

  const HeaderLimit := 150
  const SnippetLimit := 50

  /** The first bytes of a loop, where its header is looked for. */
  function HeaderWindow(n: Node, ctx: Context): seq<Byte> {
    Slice(ctx.code, n.start, Min(n.end, n.start + HeaderLimit))
  }

  /** The first bytes of a call, where method names are looked for. */
  function CallSnippet(n: Node, ctx: Context): seq<Byte> {
    Slice(ctx.code, n.start, Min(n.end, n.start + SnippetLimit))
  }

  function NodeText(n: Node, ctx: Context): seq<Byte> {
    Slice(ctx.code, n.start, n.end)
  }

  const LoopKinds: set<string> := {"for_statement", "while_statement", "do_statement"}

  const BlockKinds: set<string> := {
    "function_definition", "arrow_function", "method_definition",
    "if_statement", "else_clause", "try_statement", "catch_clause",
    "class_definition"}

  /** The kinds whose departure pops the depth stack. */
  const PopKinds: set<string> := {
    "for_statement", "while_statement", "do_statement", "call_expression", "new_expression",
    "function_definition", "arrow_function", "if_statement", "class_definition"}

  const Iterators: seq<seq<Byte>> := [
    AsciiBytes(".map"), AsciiBytes(".filter"), AsciiBytes(".forEach"), AsciiBytes(".reduce"),
    AsciiBytes(".includes"), AsciiBytes(".indexOf"), AsciiBytes(".find"), AsciiBytes(".some"),
    AsciiBytes(".every")]

  const Mutators: seq<seq<Byte>> := [
    AsciiBytes(".slice"), AsciiBytes(".splice"), AsciiBytes(".concat"), AsciiBytes(".shift"),
    AsciiBytes(".unshift"), AsciiBytes(".split"), AsciiBytes(".join"), AsciiBytes(".flat"),
    AsciiBytes(".reverse")]

  const Statics: seq<seq<Byte>> := [
    AsciiBytes("Array.from"), AsciiBytes("Object.keys"), AsciiBytes("Object.values"),
    AsciiBytes("Object.entries")]

  const Constructors: seq<seq<Byte>> := [
    AsciiBytes("Set"), AsciiBytes("Map"), AsciiBytes("List"), AsciiBytes("Dict")]

  const LinearOps: seq<seq<Byte>> := Iterators + Mutators

  const DotSort: seq<Byte> := AsciiBytes(".sort")

  /** Some entry of `ops` occurs in `text`. */
  predicate ContainsAny(text: seq<Byte>, ops: seq<seq<Byte>>) {
    exists k | 0 <= k < |ops| :: Contains(text, ops[k])
  }

  /** A call is linear when its snippet names a linear method, or failing that a static one. */
  predicate LinearCall(n: Node, ctx: Context) {
    var snippet := CallSnippet(n, ctx);
    ContainsAny(snippet, LinearOps) || ContainsAny(snippet, Statics)
  }

  /** A construction is linear when it names a target class and passes it arguments. */
  predicate LinearConstruction(n: Node, ctx: Context) {
    var text := NodeText(n, ctx);
    (exists k | 0 <= k < |Constructors| :: ctx.pats.namesConstructor(text, Constructors[k]))
    && ctx.pats.hasArguments(text)
  }

  predicate IsLinear(n: Node, ctx: Context) {
    if n.kind == "call_expression" then LinearCall(n, ctx)
    else if n.kind == "new_expression" then LinearConstruction(n, ctx)
    else false
  }

  /** A `.sort` in a call's snippet. */
  predicate SortsIn(n: Node, ctx: Context) {
    n.kind == "call_expression" && Contains(CallSnippet(n, ctx), DotSort)
  }

  /**
   * What a node pushes on its first visit: a loop 0 when its header shows a
   * constant bound and 1 otherwise, a linear call or construction 1, a block
   * container 0, and any other node nothing.
   */
  function NodeCost(n: Node, ctx: Context): (r: Option<int>)
    ensures r.Some? ==> r.value == 0 || r.value == 1
  {
    if n.kind in LoopKinds then
      Some(if ctx.pats.constantBound(HeaderWindow(n, ctx)) then 0 else 1)
    else if IsLinear(n, ctx) then Some(1)
    else if n.kind in BlockKinds then Some(0)
    else None
  }

  /**
   * When a node pushes at all, and when it pushes 1: a loop always pushes,
   * 1 unless its header shows a constant bound; a linear call or
   * construction pushes 1; a block container pushes 0.
   */
  lemma NodeCostCases(n: Node, ctx: Context)
    ensures NodeCost(n, ctx).Some? <==> n.kind in LoopKinds || IsLinear(n, ctx) || n.kind in BlockKinds
    ensures NodeCost(n, ctx) == Some(1) <==>
      || (n.kind in LoopKinds && !ctx.pats.constantBound(HeaderWindow(n, ctx)))
      || IsLinear(n, ctx)
  {
  }

  /** `for op in ops: if op in text: found = True; break`. */
  method FindAny(text: seq<Byte>, ops: seq<seq<Byte>>) returns (found: bool)
    ensures found <==> ContainsAny(text, ops)
  {
    found := false;
    var i := 0;
    while i < |ops|
      invariant 0 <= i <= |ops|
      invariant !found
      invariant forall k | 0 <= k < i :: !Contains(text, ops[k])
    {
      if Contains(text, ops[i]) {
        found := true;
        return;
      }
      i := i + 1;
    }
  }

  /** `for constr in constructors: if <constr is named>: ...; break`. */
  method FindConstructor(text: seq<Byte>, pats: Patterns) returns (found: bool)
    ensures found <==> exists k | 0 <= k < |Constructors| :: pats.namesConstructor(text, Constructors[k])
  {
    found := false;
    var i := 0;
    while i < |Constructors|
      invariant 0 <= i <= |Constructors|
      invariant !found
      invariant forall k | 0 <= k < i :: !pats.namesConstructor(text, Constructors[k])
    {
      if pats.namesConstructor(text, Constructors[i]) {
        found := true;
        return;
      }
      i := i + 1;
    }
  }

  /** The first-visit classification: the cost to push, and whether the node is a `.sort` call. */
  method Classify(node: Node, ctx: Context) returns (cost: Option<int>, sorts: bool)
    ensures cost == NodeCost(node, ctx)
    ensures sorts == SortsIn(node, ctx)
  {
    var nodeType := node.kind;
    var isLoop := nodeType in LoopKinds;
    var isConstantLoop := false;
    if isLoop {
      var headerEnd := Min(node.end, node.start + HeaderLimit);
      var headerText := Slice(ctx.code, node.start, headerEnd);
      if ctx.pats.constantBound(headerText) {
        isConstantLoop := true;
      }
    }

    var isLinearMethod := false;
    sorts := false;
    if nodeType == "call_expression" {
      var snippetEnd := Min(node.end, node.start + SnippetLimit);
      var nodeText := Slice(ctx.code, node.start, snippetEnd);
      if Contains(nodeText, DotSort) {
        sorts := true;
      }
      isLinearMethod := FindAny(nodeText, LinearOps);
      if !isLinearMethod {
        isLinearMethod := FindAny(nodeText, Statics);
      }
    } else if nodeType == "new_expression" {
      var nodeText := Slice(ctx.code, node.start, node.end);
      var isTargetConstructor := FindConstructor(nodeText, ctx.pats);
      if isTargetConstructor {
        if ctx.pats.hasArguments(nodeText) {
          isLinearMethod := true;
        }
      }
    }

    var isBlock := nodeType in BlockKinds;

    if isLoop {
      if isConstantLoop {
        cost := Some(0);
      } else {
        cost := Some(1);
      }
    } else if isLinearMethod {
      cost := Some(1);
    } else if isBlock {
      cost := Some(0);
    } else {
      cost := None;
    }
  }

  /**
   * The header window and the call snippet are the first at most 150 and 50
   * bytes of the node's text.
   */
  lemma WindowsArePrefixes(n: Node, ctx: Context)
    ensures var text := NodeText(n, ctx);
      && |HeaderWindow(n, ctx)| <= HeaderLimit && HeaderWindow(n, ctx) <= text
      && |CallSnippet(n, ctx)| <= SnippetLimit && CallSnippet(n, ctx) <= text
  {
    var text := NodeText(n, ctx);
    var h, c := HeaderWindow(n, ctx), CallSnippet(n, ctx);
    assert |h| <= |text| && forall k | 0 <= k < |h| :: h[k] == text[k];
    assert h == text[..|h|];
    assert |c| <= |text| && forall k | 0 <= k < |c| :: c[k] == text[k];
    assert c == text[..|c|];
  }

  /**
   * A `.sort` call pushes nothing by itself: a call whose snippet names no
   * linear or static method pushes nothing, whatever the sort test says.
   */
  lemma SortAloneDoesNotPush(n: Node, ctx: Context)
    requires n.kind == "call_expression"
    requires !ContainsAny(CallSnippet(n, ctx), LinearOps) && !ContainsAny(CallSnippet(n, ctx), Statics)
    ensures NodeCost(n, ctx) == None
    ensures SortsIn(n, ctx) <==> Contains(CallSnippet(n, ctx), DotSort)
  {
  }

  /**
   * A construction without arguments, such as `new Set()`, pushes nothing,
   * and neither does one that names no target class.
   */
  lemma ConstructionWithoutArguments(n: Node, ctx: Context)
    requires n.kind == "new_expression"
    requires !ctx.pats.hasArguments(NodeText(n, ctx))
      || forall k | 0 <= k < |Constructors| :: !ctx.pats.namesConstructor(NodeText(n, ctx), Constructors[k])
    ensures NodeCost(n, ctx) == None
    ensures !SortsIn(n, ctx)
  {
  }

  // ---------------------------------------------------------------------------
  // Counting nodes of a tree.

  /** What to count: every node, the nodes that push 1, the `.sort` calls, or the occurrences of one node. */
  datatype Tally = AllNodes | CostlyNodes | SortCalls | Copies(target: Node)

  function Mark(n: Node, t: Tally, ctx: Context): (r: nat)
    ensures r <= 1
  {
    match t
    case AllNodes => 1
    case CostlyNodes => if NodeCost(n, ctx) == Some(1) then 1 else 0
    case SortCalls => if SortsIn(n, ctx) then 1 else 0
    case Copies(target) => if n == target then 1 else 0
  }

  /** How many nodes of the subtree at `n` the tally counts. */
  function Weight(n: Node, t: Tally, ctx: Context): nat
    decreases n
  {
    Mark(n, t, ctx) + WeightSeq(n.children, t, ctx)
  }

  function WeightSeq(ns: seq<Node>, t: Tally, ctx: Context): nat
    decreases ns
  {
    if ns == [] then 0 else Weight(ns[0], t, ctx) + WeightSeq(ns[1..], t, ctx)
  }

  /** `m` is the node `n` or a node below it. */
  predicate InTree(n: Node, m: Node)
    decreases n
  {
    n == m || exists k | 0 <= k < |n.children| :: InTree(n.children[k], m)
  }

  /** A subtree holds a copy of `m` exactly when `m` is in it. */
  lemma {:induction false} CopiesInTree(n: Node, m: Node, ctx: Context)
    ensures Weight(n, Copies(m), ctx) > 0 <==> InTree(n, m)
    decreases n, 1
  {
    CopiesInForest(n.children, m, ctx);
  }

  /** A run of siblings holds a copy of `m` exactly when one of their subtrees has `m`. */
  lemma {:induction false} CopiesInForest(ns: seq<Node>, m: Node, ctx: Context)
    ensures WeightSeq(ns, Copies(m), ctx) > 0 <==> exists k | 0 <= k < |ns| :: InTree(ns[k], m)
    decreases ns, 0
  {
    if ns != [] {
      CopiesInTree(ns[0], m, ctx);
      CopiesInForest(ns[1..], m, ctx);
      forall k | 1 <= k < |ns| ensures ns[1..][k - 1] == ns[k] { }
    }
  }
}
