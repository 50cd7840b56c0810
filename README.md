# Big-O analyzer, modelled in Dafny

This project models the three pieces of logic in which the big-oh-analyzer service
decides a Big-O label for a snippet of JavaScript:

- **The loop-boundedness resolver** (`BoundaryResolver`). It computes the three-valued
  truthiness of a condition expression: always truthy, always falsy or unknown. It also
  decides whether a loop condition has a constant trip count. Both are structural
  recursions over the condition's syntax tree, which is modelled as a datatype.
- **The token-stream depth machine** (`Services`). This is the analyzer behind the HTTP
  endpoint. It is a brace-matching state machine over the tokens found in the code:
  loop keywords, `{`, `}` and linear-operation calls. Its state is the brace stack,
  `current_depth`, `max_depth`, the pending-loop flag and the recorded cause. A final
  rule turns `(has_sort, max_depth, primary_cause)` into a label and a reason.
  `AnalyzeTimeComplexity` is the imperative loop. It is proved equal to a fold (`Run`)
  of the one-token function `Step`, and the properties are proved about that fold.
- **The syntax-tree walker** (`AnalyzerNodes`, `AnalyzerWalk`, `Analyzer`). This is
  `ComplexityAnalyzer.analyze`. It walks the parse tree with a cursor and a
  `visited_children` flag. On a node's first visit it pushes that node's cost on a
  depth stack, and it pops when the cursor leaves certain kinds of node. It records the
  deepest stack sum and whether a `.sort` call was seen.
  - The per-node classification is the method `Classify`, proved equal to the function
    `NodeCost`.
  - The walking loop is the method `WalkTree`, proved equal to `Run`, which iterates
    the one-iteration function `Step` until the cursor can move no further.
  - The lemmas count what a whole walk sees. Each node is visited for the first time
    as often as it occurs in the tree, and the first visits match the tree's counts of
    all nodes, cost-1 nodes and sort calls. So `has_sort` and `max_depth` are tied to
    counts over the tree.
  - The pop rule is modelled as written, including its asymmetries. The model does not
    claim that the stack mirrors the chain of ancestors.

Shared pieces:

- `Complexity` holds the label rule that both analyzers apply.
- `DepthStack` holds the 0/1 depth stack and its sum.
- `Text` holds the string operations the code relies on:
  - Python's `in` on strings and bytes;
  - `replace('\n', ' ')`;
  - `split('(')[0]`;
  - `strip()`;
  - the decimal rendering inside f-strings.

Inputs and parameters:

- The parser is not modelled. The analyzers take its output as input: a token
  sequence for `Services`, a tree of `Node(kind, start, end, children)` with byte
  ranges into the encoded code for the walker, and a condition tree for the resolver.
- The three regular expressions of the walker are function-valued parameters (`Patterns`):
  - the constant-bound header test;
  - the `new <Class>` test;
  - the non-blank argument test.
- The substring tests on the 50-byte call snippet are modelled concretely.

Three facts about the code shape the model:

- In analyzer.py a `call_expression` whose snippet contains `.sort` is still tested
  against the linear and static names (analyzer.py:89-104), so it can push 1.
- `.sort` is the only operation recognised as carrying a log factor.
- The walk is a cursor loop with explicit pushes and pops, and the model keeps it one.

## Model

| member | source | states |
|---|---|---|
| BoundaryResolver.Truthiness | boundary_resolver.py:15-41 | definition of `get_truthiness`; characterised by LiteralTruthiness, CollectionLiterals, WrapTruthiness and RuntimeExprIsUnbounded |
| BoundaryResolver.IsBounded | boundary_resolver.py:43-135 | definition of `is_bounded_condition` with the intended recursive call at line 110; characterised by MemberBoundedness, AndRule, OrRule, OperatorRule, OtherNodeRules, WrapBoundedness, ConstantExprIsBounded and RuntimeExprIsUnbounded |
| BoundaryResolver.IsBoundedAsWritten | boundary_resolver.py:43-135 | definition of the resolver as written, raising at line 110; characterised by AsWrittenAgreesWhenItReturns and AsWrittenRaisesOnComparison |
| Services.HasSort | services.py:4-7 | definition; characterised by HasSortIffInCode and SortCallFound |
| Services.CleanName | services.py:50 | definition; characterised by the PrefixBefore and Strip contracts and ShiftName |
| Services.CauseText | services.py:34-71 | definition of the six cause texts; characterised by LinearCauseSuffix and CauseTextInitial |
| Services.Step | services.py:38-82 | definition of one loop iteration; characterised by StepEffects, StepConsistent, StepMonotone and StepCauseAgrees |
| Services.Run | services.py:36-82 | definition of the loop as a fold; characterised by RunConsistent, RunMonotone, MaxDepthIsPeak and RunCauseAgrees |
| Services.ScanTokens | services.py:28-82 | the imperative token loop ends with the `max_depth` and `primary_cause` of `Run` |
| Services.Analysis | services.py:3-96 | definition; characterised by AnalysisReason and AnalyzeTimeComplexity |
| Complexity.Label | services.py:87-96 | definition of the label rule, also that of analyzer.py:183-192; characterised by LabelRule and LabelDeterminesDepth |
| AnalyzerNodes.HeaderWindow | analyzer.py:75-76 | definition; characterised by WindowsArePrefixes |
| AnalyzerNodes.CallSnippet | analyzer.py:86-87 | definition; characterised by WindowsArePrefixes |
| AnalyzerNodes.LinearCall | analyzer.py:83-104 | definition; characterised by FindAny and Classify |
| AnalyzerNodes.LinearConstruction | analyzer.py:108-127 | definition; characterised by FindConstructor, Classify and ConstructionWithoutArguments |
| AnalyzerNodes.IsLinear | analyzer.py:81-127 | definition; characterised by NodeCost and Classify |
| AnalyzerNodes.SortsIn | analyzer.py:89-91 | definition; characterised by SortAloneDoesNotPush and WalkFindings |
| AnalyzerWalk.Start | analyzer.py:23-28 | the walk starts with the cursor on the root |
| AnalyzerWalk.Visit | analyzer.py:136-151 | a first visit leaves the cursor and the flag alone; characterised by AdvanceEffects |
| AnalyzerWalk.Advance | analyzer.py:68-171 | one iteration keeps the cursor valid; characterised by AdvanceMoves, AdvanceEffects and AdvanceDepth |
| AnalyzerWalk.Step | analyzer.py:62-171 | one iteration keeps the cursor valid; characterised by StepPending, StepDepth and StepDecreases |
| AnalyzerWalk.Run | analyzer.py:62-171 | the walk to its `break` keeps the cursor valid; characterised by RunSort, RunDepth and FirstVisitsMatchTree |
| Analyzer.Analysis | analyzer.py:15-192 | definition; characterised by AnalysisLabels and Analyze |
| Text.Contains | services.py:7 | definition of Python's `pat in s` and of a metacharacter-free `re.search`, also used at analyzer.py:90-102; characterised by ContainsTransfer, FindAny and HasSortIffInCode |
| DepthStack.Sum | analyzer.py:150 | definition of `sum(depth_stack)`; characterised by SumAppend, SumPop and SumBits |
| Text.IsSpace | services.py:50 | definition of `str.isspace` behind `strip()`; characterised through the Strip contract |
| AnalyzerWalk.PopsOnMove | analyzer.py:153-169 | definition of when navigation pops: never on descent, for the node left on a move right, for the parent reached on a climb; characterised by AdvanceEffects |
| Text.ReplaceNewlines | services.py:4 | the stream has the code's length, every newline becomes a space, every other character is kept, and no newline remains |
| Text.PrefixBefore | services.py:50 | the result is the longest prefix without the separator: it is a prefix, holds no separator, and is followed by the separator when shorter than the input |
| Text.PrefixBeforeFirst | services.py:50 | splitting `s + sep + rest` at the first `sep` gives back `s` whenever `s` has no `sep` |
| Text.Strip | services.py:50 | the result is the infix left after removing the leading and trailing whitespace, and it neither starts nor ends with whitespace |
| Text.StripNoSpace | services.py:50 | a text without whitespace strips to itself |
| Text.NatToString | services.py:71 | the rendering of a depth is a non-empty string of decimal digits without a leading zero |
| Text.DecimalRoundTrip | analyzer.py:192 | reading the rendered digits of a depth back gives the depth |
| Text.NatToStringInjective | analyzer.py:192 | distinct depths render to distinct texts |
| Text.ContainsTransfer | services.py:4-7 | changing only characters that are not in the pattern, with replacements also not in it, keeps whether the pattern occurs |
| Complexity.LabelRule | services.py:87-96 | each label holds exactly on its rule's inputs: `O(N log N)` iff sort and depth ≤ 1, `O(1)` iff no sort and depth 0, `O(N)` iff no sort and depth 1, `O(N^k)` iff depth ≥ 2 |
| Complexity.LabelDeterminesDepth | analyzer.py:187-192 | outside sort dominance, two runs with the same label have the same `max_depth` |
| DepthStack.SumBits | services.py:59-60 | a stack of 0/1 entries sums to a value between 0 and its height |
| DepthStack.SumPop | analyzer.py:161 | popping a 0/1 stack lowers its sum by the popped entry, so by at most 1, and keeps the entries 0/1 |
| DepthStack.SumAppend | analyzer.py:150 | pushing `x` raises the sum by `x` |
| BoundaryResolver.AsWrittenAgreesWhenItReturns | boundary_resolver.py:43-135 | wherever the resolver as written returns instead of raising, it returns the corrected resolver's answer |
| BoundaryResolver.AsWrittenRaisesOnComparison | boundary_resolver.py:109-110 | a comparison whose left operand is not bounded raises as written, while the corrected resolver answers by the right operand |
| BoundaryResolver.IdentifierComparisonRaises | boundary_resolver.py:110 | `i < 10` raises as written but is bounded in the corrected resolver; `i < n` raises as written and is unbounded in the corrected resolver |
| BoundaryResolver.WrapTruthiness | boundary_resolver.py:20-21 | under any stack of parentheses and prefix operators, truthiness is unknown once a prefix operator other than `!` appears, and otherwise is the inner value flipped once per `!` |
| BoundaryResolver.WrapBoundedness | boundary_resolver.py:47-51 | parentheses and every prefix operator are transparent for boundedness |
| BoundaryResolver.ConstantExprIsBounded | boundary_resolver.py:53-124 | every expression built from literals and whitelisted constants by arithmetic, comparisons, assignments and conditionals is bounded |
| BoundaryResolver.RuntimeExprIsUnbounded | boundary_resolver.py:15-135 | every expression built only from runtime values has unknown truthiness and is unbounded |
| BoundaryResolver.KnownConstantsArePureGlobals | boundary_resolver.py:13 | every whitelisted constant's object is one of the pure globals |
| BoundaryResolver.LiteralTruthiness | boundary_resolver.py:23-32 | `true` and regex are truthy; `false`, `null` and `undefined` are falsy; a number is falsy iff `0`/`0n`; a string iff `''`/`""`; a boolean node is unknown; every literal is bounded |
| BoundaryResolver.CollectionLiterals | boundary_resolver.py:23-24 | arrays and objects are truthy but not bounded |
| BoundaryResolver.MemberBoundedness | boundary_resolver.py:58-74 | a member access is bounded iff it is a whitelisted `Math` or `Number` constant; `Object` and `Array` members never are |
| BoundaryResolver.AndRule | boundary_resolver.py:90-95 | a definitely falsy side makes `&&` bounded; otherwise a truthy left defers to the right; otherwise both sides must be bounded |
| BoundaryResolver.OrRule | boundary_resolver.py:97-100 | `\|\|` is bounded iff neither side is definitely truthy and both are bounded, so the rule is symmetric |
| BoundaryResolver.OperatorRule | boundary_resolver.py:102-110 | a call operand makes the result unbounded; arithmetic needs both sides bounded and a comparison either side; other operators are unbounded |
| BoundaryResolver.OtherNodeRules | boundary_resolver.py:44-135 | a definite ternary condition selects the branch checked, an unknown one needs both; an assignment is judged by its right side; absent nodes, optional chains, nullish coalescing, calls and other kinds are unbounded |
| BoundaryResolver.ListedConstantComparisons | boundary_resolver.py:142-148 | the listed comparisons against literals are bounded |
| BoundaryResolver.ListedVariableComparisons | boundary_resolver.py:145-149 | the listed comparisons between variables, alone or combined, are unbounded |
| BoundaryResolver.ListedMixedCombination | boundary_resolver.py:150 | a disjunction with an unbounded conjunction on one side is unbounded, as listed |
| BoundaryResolver.ListedArithmeticBounds | boundary_resolver.py:152-154 | the listed arithmetic cases agree with their comments |
| BoundaryResolver.ListedPrefixesAndLiterals | boundary_resolver.py:155-161 | the listed prefix and literal cases agree with their comments |
| BoundaryResolver.ListedMembersAndCalls | boundary_resolver.py:162-166 | the listed member, call, `null` and `undefined` cases agree with their comments |
| BoundaryResolver.ListedShortCircuits | boundary_resolver.py:167-170 | the listed short-circuit cases agree with their comments |
| BoundaryResolver.ListedFalsyAndTruthy | boundary_resolver.py:173-177 | the listed whitelist and falsy/truthy-literal cases agree with their comments |
| BoundaryResolver.ListedParentheses | boundary_resolver.py:178-180 | the listed parenthesis and literal-branch cases agree with their comments |
| BoundaryResolver.ListedConditionals | boundary_resolver.py:182-183 | a definite ternary condition lets a call sit in the branch not taken |
| BoundaryResolver.ListedConditionsAcceptedOnceCorrected | boundary_resolver.py:151-181 | three listed conditions commented False are accepted as bounded by the corrected resolver |
| BoundaryResolver.ListedConditionsRaiseAsWritten | boundary_resolver.py:151-181 | as written, each of those three conditions raises AttributeError at line 110 |
| Services.Verdict | services.py:87-96 | the label is the shared label rule; sort dominance gives the sorting reason, depth 0 without sort the no-loops reason, and from depth 1 on, outside sort dominance, the reason is the recorded cause's text |
| Services.AnalyzeTimeComplexity | services.py:3-96 | the returned label and reason are those of the token fold `Run` followed by the final rule |
| Services.StepConsistent | services.py:57-82 | one token keeps `current_depth == sum(stack)`, 0/1 entries and `current_depth ≤ max_depth` |
| Services.RunConsistent | services.py:36-82 | after any tokens, `current_depth == sum(stack)`, every entry is 0 or 1, and `0 ≤ current_depth ≤ min(len(stack), max_depth)` |
| Services.StepEffects | services.py:40-82 | a loop keyword only sets the flag; `{` after one pushes 1, adds 1 and clears it; another `{` pushes 0 and changes nothing else; `}` pops and subtracts, or changes nothing on an empty stack; a linear op leaves stack, depth and flag alone, raises `max_depth` to at least `current_depth + 1`, and names the cleaned token, inside a loop iff `current_depth > 0`, when it changes the cause |
| Services.StepMonotone | services.py:45-76 | `max_depth` never decreases, and the cause changes only when it strictly increases |
| Services.RunMonotone | services.py:36-82 | `max_depth` after a prefix of the tokens is at most its final value |
| Services.MaxDepthIsPeak | services.py:36-82 | the final `max_depth` equals the highest depth any token reaches, counting a linear op as one deeper |
| Services.LinearCauseSuffix | services.py:51-54 | a linear-operation reason ends in `' inside a loop` iff the operation was inside a loop |
| Services.CauseTextInitial | services.py:34-71 | only the initial cause renders as the initial text |
| Services.StepCauseAgrees | services.py:44-76 | one token keeps the cause in step with the depth: the initial cause iff depth 0, a loop nest names the depth, and a linear op is inside a loop iff depth ≥ 2 |
| Services.RunCauseAgrees | services.py:34-82 | after any tokens, the cause is the initial one iff `max_depth == 0`, a loop-nest cause carries `max_depth`, and a linear-operation cause is inside a loop iff `max_depth ≥ 2` |
| Services.AnalysisReason | services.py:87-96 | `O(1)` comes with the no-loops reason; past depth 0 outside sort dominance the reason is the cause reached |
| Services.HasSortIffInCode | services.py:4-7 | `has_sort` holds iff `.sort(` occurs in the original code, since the newline rewrite touches no character of the pattern |
| Services.RunFromAppend | services.py:36 | the front fold of `ts + [t]` is one more step after the fold of `ts` |
| Services.RunIsRunFrom | services.py:36 | the last-element fold and the front fold from the start state agree |
| Services.RunFromConcat | services.py:36 | folding two token runs one after the other is folding their concatenation |
| Services.RunOfFour | services.py:36 | four tokens are four steps from the start state |
| Services.RunAppend | services.py:36 | one more token is one more step |
| Services.LoopNestEffect | services.py:40-82 | `k` loops opened and closed in sequence leave stack, depth and flag as found, and raise `max_depth` to the deepest level with a loop-nest cause when that level is new |
| Services.LoopNestAnalysis | services.py:57-96 | `k` nested loops give `max_depth == k`, label `O(N)` or `O(N^k)` with the loop-nest reason, and with a sort `O(N log N)` only for `k == 1` |
| Services.ListedLoopNests | test_complexity.py:16-33 | nested loops give `O(N^2)` with "Nested Loop detected"; triple loops give `O(N^3)` |
| Services.SortCallFound | services.py:4-7 | a `.sort(` anywhere in the code, whatever surrounds it, sets `has_sort` |
| Services.SortBesideLoops | services.py:87-96 | with `has_sort`, `k` nested loops give `O(N log N)` with the sorting reason for `k ≤ 1` and `O(N^k)` with the loop-nest reason from `k = 2` on |
| Services.ListedBareSort | test_complexity.py:38 | the test's bare sort call, with no tokens, gives `O(N log N)` |
| Services.ListedSortOneLoop | test_complexity.py:84-87 | the test's code with a sort before one loop gives `O(N log N)`, `has_sort` read off the code itself |
| Services.ListedSortTwoLoops | test_complexity.py:92-97 | the test's code with a sort before two nested loops gives `O(N^2)` with "Nested Loop detected" |
| Services.LinearOpInsideLoop | services.py:44-82 | a linear op inside one loop leaves depth 2 and names the cleaned token as found inside a loop |
| Services.ShiftName | services.py:50 | the cleaned name of `.shift(` is `.shift` |
| Services.ShiftInsideLoop | test_complexity.py:99-103 | `arr.shift()` inside a loop gives `O(N^2)` with "Linear operation '.shift' inside a loop" |
| AnalyzerNodes.Slice | analyzer.py:75-112 | Python's clamped `b[lo:hi]`: the length is `min(hi, len) - lo` or 0, and every byte is the one at offset `lo` |
| Text.AsciiBytes | analyzer.py:33-56 | the byte names in the lists have the characters' codes |
| AnalyzerNodes.NodeCost | analyzer.py:69-147 | a node pushes 0 or 1 and pushes something iff it is a loop, a linear call or construction, or a block; it pushes 1 iff it is a loop without a constant-bound header or is linear |
| AnalyzerNodes.FindAny | analyzer.py:94-104 | the linear/static loop finds a name iff one of the names occurs in the snippet |
| AnalyzerNodes.FindConstructor | analyzer.py:115-120 | the constructor loop finds a name iff the pattern matches one of the class names |
| AnalyzerNodes.Classify | analyzer.py:68-147 | the first-visit checks yield the node's `NodeCost` and whether it is a `.sort` call |
| AnalyzerNodes.WindowsArePrefixes | analyzer.py:75-87 | the header window and the call snippet are prefixes of the node's text of at most 150 and 50 bytes |
| AnalyzerNodes.SortAloneDoesNotPush | analyzer.py:89-144 | a call naming no linear or static method pushes nothing, whether or not its snippet contains `.sort` |
| AnalyzerNodes.ConstructionWithoutArguments | analyzer.py:108-127 | a `new` without non-blank arguments, or naming no target class, pushes nothing and is never a sort |
| AnalyzerNodes.Mark | analyzer.py:68-147 | a node counts at most once in any tally |
| AnalyzerWalk.ToFirstChild | analyzer.py:154 | descending lands on the first child |
| AnalyzerWalk.ToNextSibling | analyzer.py:156 | moving right keeps the depth and lands on the next sibling |
| AnalyzerWalk.ToParent | analyzer.py:163 | climbing lands on a node whose children hold the one left |
| AnalyzerWalk.PopIf | analyzer.py:159-169 | the guarded pop leaves a prefix of the stack, one entry shorter exactly when a pop is asked for and the stack is not empty, so an empty stack is never popped |
| AnalyzerWalk.Move | analyzer.py:153-171 | navigation keeps the cursor valid |
| AnalyzerWalk.AdvanceMoves | analyzer.py:153-171 | an iteration descends, else moves right, else climbs with the flag set, else stops |
| AnalyzerWalk.AdvanceEffects | analyzer.py:136-169 | an iteration pushes at most one entry and only on a first visit; descending never pops; moving right pops for the node left; climbing pops for the parent reached; `max_depth` becomes the maximum of its old value and the sum after the push; `has_sort` only turns on |
| AnalyzerWalk.AdvanceDepth | analyzer.py:136-169 | for a 0/1 cost the stack keeps 0/1 entries, its sum rises by at most the cost-1 push, and `max_depth` rises only to the sum after that push |
| AnalyzerWalk.StepDepth | analyzer.py:62-171 | one iteration's depth bounds in terms of whether it visits a cost-1 node |
| AnalyzerWalk.StepPending | analyzer.py:62-171 | each iteration takes its first-visited node off the count of nodes still to be visited, and the final one leaves nothing |
| AnalyzerWalk.StepDecreases | analyzer.py:62-171 | each iteration stops or lowers the pending count, the cursor depth or the flag, so the walk terminates |
| AnalyzerWalk.RunSort | analyzer.py:90-91 | `has_sort` ends set iff it was set or the rest of the walk visits a `.sort` call |
| AnalyzerWalk.RunDepth | analyzer.py:136-169 | over the rest of a walk `max_depth` never decreases and rises at most to the stack sum plus the cost-1 nodes still to visit; it reaches 1 once one is visited; the stack stays 0/1 |
| AnalyzerWalk.VisitsArePending | analyzer.py:62-171 | a running walk visits for the first time exactly the nodes still pending |
| AnalyzerWalk.FirstVisitsMatchTree | analyzer.py:62-171 | for every tally, the first visits of the walk from the root match the tree's count of all nodes, cost-1 nodes or sort calls |
| AnalyzerWalk.EachNodeVisited | analyzer.py:62-171 | the walk visits each node for the first time exactly as often as it occurs in the tree, so at least once iff it is in the tree |
| Analyzer.Synthesize | analyzer.py:183-192 | the label is the shared label rule; sort dominance gives the sorting reason, depth 0 "Constant time operations", depth 1 the single-loop reason, and from depth 2 on the reason carries the depth |
| Analyzer.WalkFindings | analyzer.py:59-171 | after the walk, `has_sort` holds iff the tree has a `.sort` call, `max_depth` is 0 iff no node pushes 1, and it never exceeds the number of nodes that push 1 |
| Analyzer.AnalysisLabels | analyzer.py:59-192 | `O(1)` iff no node pushes 1 and there is no sort; `O(N log N)` iff there is a sort and the depth is at most 1; `O(N)` needs a cost-1 node and no sort; `O(N^k)` needs at least `k` cost-1 nodes |
| Analyzer.VisitNode | analyzer.py:68-151 | a first visit updates stack, maximum and sort flag as `Visit` on the node's classification |
| Analyzer.Navigate | analyzer.py:153-171 | the cursor moves and pops of an iteration are those of `Move` |
| Analyzer.WalkTree | analyzer.py:26-171 | the loop's final `max_depth` and `has_sort` are those of `Run` from the root |
| Analyzer.Analyze | analyzer.py:15-192 | the result is `Synthesize` of the walk's findings, and it is `O(1)` iff the tree has no cost-1 node and no sort |
| Analyzer.PlainCallPopsAnyway | analyzer.py:156-161 | a leaf call that pushed nothing still pops an entry when the cursor moves to its sibling |
| Analyzer.ListedKindPoppedTwice | analyzer.py:156-169 | a listed-kind node is popped for twice when the cursor leaves it: on climbing into it from a last child whose own children were already walked, and again on moving to its next sibling |
| Analyzer.UnpoppedBlocks | analyzer.py:130-169 | `method_definition`, `else_clause`, `try_statement` and `catch_clause` push 0 but are never popped for, while every loop kind is |

## Left out

- Parsing is not modelled. Tree-sitter language loading, the parser and the cursor
  creation are a foreign library. The walker and the resolver take the tree as input,
  and `Services` takes the tokenizer's matches as a token sequence.
- The tokenizer regular expressions of services.py are not modelled. A `LinearOp` token
  stands for any group-4 match, with its text.
- The three regular expressions of analyzer.py are parameters (`Patterns`), not
  definitions: the constant-bound header test, the `new <Class>` test and the
  non-blank argument test. The header test is applied to the header bytes. The
  UTF-8 decoding with ignored errors that precedes it is folded into the parameter.
- `.sort(` detection in services.py is a regular expression without metacharacters, so
  it is modelled as a plain substring test on the rewritten stream.
- The exception handler at analyzer.py:173-175, which returns
  `("O(1)", "Error analyzing complexity")`, is not modelled. Nothing in the model can
  raise: slicing clamps, the cursor is valid by construction, and the pops are guarded.
- The `node is None` exit at analyzer.py:64 is not modelled, because the modelled
  cursor always has a node.
- The cursor is a value (a path of frames) rather than a foreign object updated in
  place. Its moves mirror `goto_first_child`, `goto_next_sibling` and `goto_parent`.
- `primary_cause` in services.py is a string. The model records it as a `Cause`
  value, and `CauseText` renders the same six texts.
- `Strip` follows Python's `str.isspace` on a fixed list of code points. That list is
  this model's reading of the Unicode whitespace set, not a derivation from it.
- The HTTP and FastAPI glue (routes.py, main.py, models.py) and its 5000-character
  check are not modelled.
- The printing test drive at boundary_resolver.py:137-200 is not modelled. Its listed
  expectations are stated as lemmas instead.
- The comments at boundary_resolver.py:151, 174 and 181 expect False. With the call at
  line 110 corrected, the resolver yields True for all three; as written, each raises
  AttributeError at line 110. `ListedConditionsAcceptedOnceCorrected` and
  `ListedConditionsRaiseAsWritten` state the two answers.
- The loop cases of test_complexity.py are stated against the token machine only. The
  tree walker's header pattern sees the initializer `= 0;` of `for (let i = 0; …)`, so
  such loops push 0 there.
- test_complexity.py imports a name from main.py that does not exist; the tests are
  read as statements about the behaviour, not as runnable code.
- The `language` argument of `analyze` only selects a grammar. The walker is the same
  for both languages, so the argument is not modelled.

## Findings

| source | as written | input that shows it | evidently intended | confidence | as-written member | corrected member |
|---|---|---|---|---|---|---|
| boundary_resolver.py:110 | a comparison calls `self.condition(right)`, which the class does not define, so it raises AttributeError whenever the left operand is not bounded | `i < 10` (listed first, at boundary_resolver.py:142, expected True) and `i < n` (boundary_resolver.py:145, expected False) | `self.is_bounded_condition(right)` | high; not executed | BoundaryResolver.IdentifierComparisonRaises | BoundaryResolver.OperatorRule |
