/**
 * The token-stream analyzer that serves the HTTP endpoint: a brace-matching
 * state machine over the tokens found in the code (loop keywords, `{`, `}`
 * and linear-operation calls), followed by the label rule.
 *
 * The tokens are taken as input: they stand for the matches, in order, of the
 * tokenizer pattern on the code after its newlines are replaced by spaces.
 */
module Services {
  import opened Text
  import opened Complexity
  import opened DepthStack

  /** One match of the tokenizer: which group matched, and for a linear operation its text. */
  datatype Token = LoopKeyword | OpenBrace | CloseBrace | LinearOp(text: string)

  /**
   * Why the current `max_depth` was reached. The machine records the cause
   * as a value and `CauseText` renders it; each constructor is one of the
   * texts the loop assigns to `primary_cause`.
   */
  datatype Cause = NothingFound | LinearOperation(name: string, insideLoop: bool) | LoopNest(depth: nat)

  function CauseText(c: Cause): string {
    match c
    case NothingFound => "Constant time operations"
    case LinearOperation(name, insideLoop) =>
      "Linear operation '" + name + (if insideLoop then "' inside a loop" else "'")
    case LoopNest(depth) =>
      if depth == 1 then "Single Loop detected"
      else if depth == 2 then "Nested Loop detected"
      else "Deeply Nested Loops (Depth " + NatToString(depth) + ")"
  }

  /** The machine's variables between two tokens. */
  datatype Machine = Machine(
    stack: seq<int>,
    currentDepth: int,
    maxDepth: nat,
    loopPending: bool,
    primaryCause: Cause)

  const Start := Machine([], 0, 0, false, NothingFound)

  /** `.sort(` occurs in the code once its newlines are spaces. */
  predicate HasSort(code: string) {
    Contains(ReplaceNewlines(code), ".sort(")
  }

  /** The name reported for a linear-operation token: the stripped text before its first `(`. */
  function CleanName(token: string): string {
    Strip(PrefixBefore(token, '('))
  }

  /** One iteration of the token loop. */
  function Step(m: Machine, t: Token): Machine {
    match t
    case LoopKeyword => m.(loopPending := true)
    case LinearOp(text) =>
      if m.currentDepth + 1 > m.maxDepth then
        m.(maxDepth := m.currentDepth + 1, primaryCause := LinearOperation(CleanName(text), m.currentDepth > 0))
      else m
    case OpenBrace =>
      var afterOpen :=
        if m.loopPending then
          var entered := m.(stack := m.stack + [1], currentDepth := m.currentDepth + 1, loopPending := false);
          if entered.currentDepth > entered.maxDepth then
            entered.(maxDepth := entered.currentDepth, primaryCause := LoopNest(entered.currentDepth))
          else entered
        else m.(stack := m.stack + [0]);
      if afterOpen.currentDepth > afterOpen.maxDepth then afterOpen.(maxDepth := afterOpen.currentDepth) else afterOpen
    case CloseBrace =>
      if |m.stack| > 0 then
        m.(stack := m.stack[..|m.stack| - 1], currentDepth := m.currentDepth - m.stack[|m.stack| - 1])
      else m
  }

  /** The machine after the tokens `ts`, one `Step` per token from `Start`. */
  function Run(ts: seq<Token>): Machine {
    if ts == [] then Start else Step(Run(ts[..|ts| - 1]), ts[|ts| - 1])
  }

  /** The final rule: sort dominance, then the depth decides; past depth 0 the reason is the recorded cause. */
  function Verdict(hasSort: bool, maxDepth: nat, cause: Cause): (r: (string, string))
    ensures r.0 == Label(hasSort, maxDepth)
    ensures hasSort && maxDepth <= 1 ==> r.1 == "Sorting (.sort) dominates linear operations"
    ensures !hasSort && maxDepth == 0 ==> r.1 == "No loops or linear methods found"
    ensures maxDepth >= 1 && !(hasSort && maxDepth <= 1) ==> r.1 == CauseText(cause)
  {
    if hasSort && maxDepth <= 1 then ("O(N log N)", "Sorting (.sort) dominates linear operations")
    else if maxDepth == 0 then ("O(1)", "No loops or linear methods found")
    else if maxDepth == 1 then ("O(N)", CauseText(cause))
    else ("O(N^" + NatToString(maxDepth) + ")", CauseText(cause))
  }

  /** What the analyzer returns for `code` whose tokenizer matches are `tokens`. */
  function Analysis(code: string, tokens: seq<Token>): (string, string) {
    var m := Run(tokens);
    Verdict(HasSort(code), m.maxDepth, m.primaryCause)
  }

  /** The token loop: the final `max_depth` and `primary_cause`. */
  method ScanTokens(tokens: seq<Token>) returns (maxDepth: nat, primaryCause: Cause)
    ensures maxDepth == Run(tokens).maxDepth && primaryCause == Run(tokens).primaryCause
  {
    maxDepth := 0;
    var currentDepth := 0;
    var stack: seq<int> := [];
    var isLoopPending := false;
    primaryCause := NothingFound;

    for i := 0 to |tokens|
      invariant Machine(stack, currentDepth, maxDepth, isLoopPending, primaryCause) == Run(tokens[..i])
    {
      assert tokens[..i + 1][..i] == tokens[..i];
      assert Run(tokens[..i + 1]) == Step(Run(tokens[..i]), tokens[i]);
      match tokens[i]
      case LoopKeyword =>
        isLoopPending := true;
      case LinearOp(tokenText) =>
        var tempDepth := currentDepth + 1;
        if tempDepth > maxDepth {
          maxDepth := tempDepth;
          var cleanName := Strip(PrefixBefore(tokenText, '('));
          if currentDepth > 0 {
            primaryCause := LinearOperation(cleanName, true);
          } else {
            primaryCause := LinearOperation(cleanName, false);
          }
        }
      case OpenBrace =>
        if isLoopPending {
          stack := stack + [1];
          currentDepth := currentDepth + 1;
          isLoopPending := false;
          if currentDepth > maxDepth {
            maxDepth := currentDepth;
            primaryCause := LoopNest(maxDepth);
          }
        } else {
          stack := stack + [0];
        }
        if currentDepth > maxDepth {
          maxDepth := currentDepth;
        }
      case CloseBrace =>
        if |stack| > 0 {
          var val := stack[|stack| - 1];
          stack := stack[..|stack| - 1];
          currentDepth := currentDepth - val;
        }
    }
    assert tokens[..|tokens|] == tokens;
  }

  method AnalyzeTimeComplexity(code: string, tokens: seq<Token>) returns (tag: string, reason: string)
    ensures (tag, reason) == Analysis(code, tokens)
  {
    var stream := ReplaceNewlines(code);
    var hasSort := Contains(stream, ".sort(");
    var maxDepth, primaryCause := ScanTokens(tokens);

    if hasSort && maxDepth <= 1 {
      return "O(N log N)", "Sorting (.sort) dominates linear operations";
    }
    if maxDepth == 0 {
      return "O(1)", "No loops or linear methods found";
    } else if maxDepth == 1 {
      return "O(N)", CauseText(primaryCause);
    } else {
      return "O(N^" + NatToString(maxDepth) + ")", CauseText(primaryCause);
    }
  }

  // ---------------------------------------------------------------------------
  // Properties of the machine.

  /** The machine's standing invariant. */
  predicate Consistent(m: Machine) {
    && m.currentDepth == Sum(m.stack)
    && Bits(m.stack)
    && 0 <= m.currentDepth <= |m.stack|
    && m.currentDepth <= m.maxDepth
  }

  /** Every step keeps the invariant. */
  lemma StepConsistent(m: Machine, t: Token)
    requires Consistent(m)
    ensures Consistent(Step(m, t))
  {
    match t
    case OpenBrace => OpenConsistent(m);
    case CloseBrace => CloseConsistent(m);
    case _ =>
  }

  /** An opening brace pushes 1 for a pending loop and 0 otherwise, raising `max_depth` to match. */
  lemma OpenConsistent(m: Machine)
    requires Consistent(m)
    ensures Consistent(Step(m, OpenBrace))
  {
    var m' := Step(m, OpenBrace);
    var b := if m.loopPending then 1 else 0;
    assert m'.stack == m.stack + [b] && m'.currentDepth == m.currentDepth + b;
    SumAppend(m.stack, b);
    BitsAppend(m.stack, b);
    SumBits(m'.stack);
  }

  /** A closing brace pops the top entry and takes it off `current_depth`. */
  lemma CloseConsistent(m: Machine)
    requires Consistent(m)
    ensures Consistent(Step(m, CloseBrace))
  {
    var m' := Step(m, CloseBrace);
    if |m.stack| > 0 {
      var top := m.stack[|m.stack| - 1];
      assert m'.stack == m.stack[..|m.stack| - 1] && m'.currentDepth == m.currentDepth - top;
      assert m.stack == m'.stack + [top];
      SumAppend(m'.stack, top);
      BitsPrefix(m.stack, |m'.stack|);
      SumBits(m'.stack);
    }
  }

  /** `current_depth` is the sum of the stack, whose entries are 0 or 1, and never exceeds `max_depth`. */
  lemma {:induction false} RunConsistent(ts: seq<Token>)
    ensures Consistent(Run(ts))
  {
    if ts != [] {
      RunConsistent(ts[..|ts| - 1]);
      StepConsistent(Run(ts[..|ts| - 1]), ts[|ts| - 1]);
    }
  }

  /** What each kind of token does to the machine. */
  lemma StepEffects(m: Machine, t: Token)
    requires Consistent(m)
    ensures t == LoopKeyword ==> Step(m, t) == m.(loopPending := true)
    ensures t == OpenBrace && m.loopPending ==>
      var m' := Step(m, t);
      m'.stack == m.stack + [1] && m'.currentDepth == m.currentDepth + 1 && !m'.loopPending
    ensures t == OpenBrace && !m.loopPending ==>
      Step(m, t) == m.(stack := m.stack + [0])
    ensures t == CloseBrace && m.stack == [] ==> Step(m, t) == m
    ensures t == CloseBrace && m.stack != [] ==>
      Step(m, t) == m.(stack := m.stack[..|m.stack| - 1], currentDepth := m.currentDepth - m.stack[|m.stack| - 1])
    ensures t.LinearOp? ==>
      var m' := Step(m, t);
      m'.stack == m.stack && m'.currentDepth == m.currentDepth && m'.loopPending == m.loopPending
      && m'.maxDepth >= m.currentDepth + 1
      && (m'.primaryCause != m.primaryCause ==>
            m'.primaryCause == LinearOperation(CleanName(t.text), m.currentDepth > 0))
    ensures t != OpenBrace ==> Step(m, t).loopPending == (m.loopPending || t == LoopKeyword)
  {
  }

  /** `max_depth` never decreases, and the reported cause changes only when it strictly increases. */
  lemma StepMonotone(m: Machine, t: Token)
    ensures Step(m, t).maxDepth >= m.maxDepth
    ensures Step(m, t).primaryCause != m.primaryCause ==> Step(m, t).maxDepth > m.maxDepth
  {
  }

  /** The linear-operation text says "inside a loop" exactly when the operation was found inside one. */
  lemma LinearCauseSuffix(name: string, insideLoop: bool)
    ensures EndsWith(CauseText(LinearOperation(name, insideLoop)), "' inside a loop") <==> insideLoop
  {
    var c := CauseText(LinearOperation(name, insideLoop));
    var suffix := "' inside a loop";
    if insideLoop {
      assert c == ("Linear operation '" + name) + suffix;
      assert c[|c| - |suffix|..] == suffix;
    } else {
      assert c == ("Linear operation '" + name) + "'";
      assert c[|c| - 1] == '\'';
      if |suffix| <= |c| {
        assert c[|c| - |suffix|..][|suffix| - 1] == c[|c| - 1];
      }
    }
  }

  /** Only the initial cause renders as the initial text: every found cause starts with another letter. */
  lemma CauseTextInitial(c: Cause)
    ensures CauseText(c) == CauseText(NothingFound) <==> c == NothingFound
  {
    var t := CauseText(c);
    match c
    case NothingFound =>
    case LinearOperation(_, _) => assert t[0] == 'L';
    case LoopNest(depth) =>
      if depth == 1 { assert t[0] == 'S'; }
      else if depth == 2 { assert t[0] == 'N'; }
      else { assert t[0] == 'D'; }
  }

  predicate EndsWith(s: string, suffix: string) {
    |suffix| <= |s| && s[|s| - |suffix|..] == suffix
  }

  /** A token prefix's run is never ahead of the whole run. */
  lemma {:induction false} RunMonotone(ts: seq<Token>, k: nat)
    requires k <= |ts|
    ensures Run(ts[..k]).maxDepth <= Run(ts).maxDepth
  {
    if k < |ts| {
      assert ts[..|ts| - 1][..k] == ts[..k];
      RunMonotone(ts[..|ts| - 1], k);
      StepMonotone(Run(ts[..|ts| - 1]), ts[|ts| - 1]);
    } else {
      assert ts[..k] == ts;
    }
  }

  /**
   * The depth a token reaches: a linear operation one level below the
   * current depth, any other token the current depth it leaves behind.
   */
  function Reach(ts: seq<Token>, i: nat): int
    requires i < |ts|
  {
    if ts[i].LinearOp? then Run(ts[..i]).currentDepth + 1 else Run(ts[..i + 1]).currentDepth
  }

  /** The deepest point any token of `ts` reaches, and 0 for no tokens. */
  function Peak(ts: seq<Token>): int {
    if ts == [] then 0
    else
      var before := Peak(ts[..|ts| - 1]);
      var here := Reach(ts, |ts| - 1);
      if here > before then here else before
  }

  /** `max_depth` is exactly the deepest point reached. */
  lemma {:induction false} MaxDepthIsPeak(ts: seq<Token>)
    ensures Run(ts).maxDepth == Peak(ts)
  {
    if ts != [] {
      var init := ts[..|ts| - 1];
      MaxDepthIsPeak(init);
      RunConsistent(init);
      assert ts[..|ts| - 1 + 1] == ts;
    }
  }

  /**
   * The recorded cause agrees with `max_depth`: nothing is found exactly at
   * depth 0, a loop nest names the maximum depth itself, and a linear
   * operation is reported inside a loop exactly when it made the depth 2 or more.
   */
  predicate CauseAgrees(m: Machine) {
    && (m.primaryCause == NothingFound <==> m.maxDepth == 0)
    && (m.primaryCause.LoopNest? ==> m.primaryCause.depth == m.maxDepth)
    && (m.primaryCause.LinearOperation? ==> (m.primaryCause.insideLoop <==> m.maxDepth >= 2))
  }

  lemma StepCauseAgrees(m: Machine, t: Token)
    requires Consistent(m) && CauseAgrees(m)
    ensures CauseAgrees(Step(m, t))
  {
  }

  lemma {:induction false} RunCauseAgrees(ts: seq<Token>)
    ensures CauseAgrees(Run(ts))
  {
    if ts != [] {
      RunCauseAgrees(ts[..|ts| - 1]);
      RunConsistent(ts[..|ts| - 1]);
      StepCauseAgrees(Run(ts[..|ts| - 1]), ts[|ts| - 1]);
    }
  }

  /**
   * Past sort dominance the reason is consistent with the label: constant
   * code gets the fixed text, otherwise the text of a found cause, and a
   * loop nest it names has exactly the label's depth.
   */
  lemma AnalysisReason(code: string, tokens: seq<Token>)
    ensures var m := Run(tokens);
      && (Analysis(code, tokens).0 == "O(1)" ==> Analysis(code, tokens).1 == "No loops or linear methods found")
      && (Analysis(code, tokens).0 != "O(1)" && Analysis(code, tokens).0 != "O(N log N)" ==>
            && Analysis(code, tokens).1 == CauseText(m.primaryCause)
            && m.primaryCause != NothingFound
            && (m.primaryCause.LoopNest? ==> m.primaryCause.depth == m.maxDepth))
  {
    var m := Run(tokens);
    RunCauseAgrees(tokens);
    LabelRule(HasSort(code), m.maxDepth);
  }

  /** Replacing newlines by spaces neither creates nor hides an occurrence of `.sort(`. */
  lemma HasSortIffInCode(code: string)
    ensures HasSort(code) <==> Contains(code, ".sort(")
  {
    ContainsTransfer(ReplaceNewlines(code), code, ".sort(");
  }

  // ---------------------------------------------------------------------------
  // The repository's test expectations, as token streams.

  /** The machine after `ts` when started in `m`, consuming tokens from the front. */
  function RunFrom(m: Machine, ts: seq<Token>): Machine
    decreases |ts|
  {
    if ts == [] then m else RunFrom(Step(m, ts[0]), ts[1..])
  }

  lemma {:induction false} RunFromAppend(m: Machine, ts: seq<Token>, t: Token)
    ensures RunFrom(m, ts + [t]) == Step(RunFrom(m, ts), t)
    decreases |ts|
  {
    if ts != [] {
      assert (ts + [t])[1..] == ts[1..] + [t];
      RunFromAppend(Step(m, ts[0]), ts[1..], t);
    }
  }

  /** Both readings of the token loop agree. */
  lemma {:induction false} RunIsRunFrom(ts: seq<Token>)
    ensures Run(ts) == RunFrom(Start, ts)
  {
    if ts != [] {
      var init := ts[..|ts| - 1];
      RunIsRunFrom(init);
      RunFromAppend(Start, init, ts[|ts| - 1]);
      assert init + [ts[|ts| - 1]] == ts;
    }
  }

  lemma {:induction false} RunFromConcat(m: Machine, ts: seq<Token>, us: seq<Token>)
    ensures RunFrom(m, ts + us) == RunFrom(RunFrom(m, ts), us)
    decreases |ts|
  {
    if ts != [] {
      assert (ts + us)[1..] == ts[1..] + us;
      RunFromConcat(Step(m, ts[0]), ts[1..], us);
    } else {
      assert ts + us == us;
    }
  }

  lemma RunOfFour(a: Token, b: Token, c: Token, d: Token)
    ensures Run([a, b, c, d]) == Step(Step(Step(Step(Start, a), b), c), d)
  {
    var t1: seq<Token> := [a];
    var t2 := t1 + [b];
    var t3 := t2 + [c];
    RunAppend([], a);
    assert [] + [a] == t1;
    RunAppend(t1, b);
    RunAppend(t2, c);
    RunAppend(t3, d);
    assert t3 + [d] == [a, b, c, d];
  }

  lemma RunAppend(ts: seq<Token>, t: Token)
    ensures Run(ts + [t]) == Step(Run(ts), t)
  {
    assert (ts + [t])[..|ts|] == ts;
  }

  /** `k` properly nested loops with empty bodies: `for ... { for ... { ... } }`. */
  function LoopNestTokens(k: nat): seq<Token> {
    if k == 0 then [] else [LoopKeyword, OpenBrace] + LoopNestTokens(k - 1) + [CloseBrace]
  }

  /**
   * Outside a pending loop, `k` nested loops reach `k` levels below the
   * current depth and leave stack and depth as they were; when they go past
   * the old maximum, the loop nest of that depth becomes the cause.
   */
  lemma {:induction false} LoopNestEffect(m: Machine, k: nat)
    requires !m.loopPending && m.currentDepth <= m.maxDepth
    ensures var deepest := m.currentDepth + k;
      RunFrom(m, LoopNestTokens(k)) ==
        if deepest > m.maxDepth then m.(maxDepth := deepest, primaryCause := LoopNest(deepest)) else m
    decreases k
  {
    if k > 0 {
      var entered := Step(Step(m, LoopKeyword), OpenBrace);
      assert entered.stack == m.stack + [1] && entered.currentDepth == m.currentDepth + 1 && !entered.loopPending;
      calc {
        RunFrom(m, LoopNestTokens(k));
        { RunFromConcat(m, [LoopKeyword, OpenBrace], LoopNestTokens(k - 1) + [CloseBrace]);
          assert LoopNestTokens(k) == [LoopKeyword, OpenBrace] + (LoopNestTokens(k - 1) + [CloseBrace]); }
        RunFrom(RunFrom(m, [LoopKeyword, OpenBrace]), LoopNestTokens(k - 1) + [CloseBrace]);
        { assert [LoopKeyword, OpenBrace][1..] == [OpenBrace]; }
        RunFrom(entered, LoopNestTokens(k - 1) + [CloseBrace]);
        { RunFromAppend(entered, LoopNestTokens(k - 1), CloseBrace); }
        Step(RunFrom(entered, LoopNestTokens(k - 1)), CloseBrace);
      }
      LoopNestEffect(entered, k - 1);
      var inner := RunFrom(entered, LoopNestTokens(k - 1));
      assert inner.stack == m.stack + [1] && inner.currentDepth == m.currentDepth + 1;
      assert (m.stack + [1])[..|m.stack|] == m.stack;
      assert inner.maxDepth == if m.currentDepth + k > m.maxDepth then m.currentDepth + k else m.maxDepth;
      if m.currentDepth + k > m.maxDepth {
        assert inner.primaryCause == LoopNest(m.currentDepth + k);
      } else {
        assert inner.primaryCause == m.primaryCause;
      }
      assert inner.stack[|inner.stack| - 1] == 1 && !inner.loopPending;
      var out := Step(inner, CloseBrace);
      assert out.stack == m.stack && out.currentDepth == m.currentDepth && !out.loopPending;
    }
  }

  /** `k` nested loops on their own give `O(N^k)` (`O(N)` for one), with the loop nest as the reason. */
  lemma LoopNestAnalysis(k: nat)
    requires k >= 1
    ensures Run(LoopNestTokens(k)) == Machine([], 0, k, false, LoopNest(k))
    ensures Verdict(false, k, LoopNest(k)).0 == if k == 1 then "O(N)" else "O(N^" + NatToString(k) + ")"
    ensures Verdict(false, k, LoopNest(k)).1 == CauseText(LoopNest(k))
    ensures Verdict(true, k, LoopNest(k)).0 == if k == 1 then "O(N log N)" else "O(N^" + NatToString(k) + ")"
  {
    RunIsRunFrom(LoopNestTokens(k));
    LoopNestEffect(Start, k);
    assert NatToString(1) == "1";
  }

  /** The repository's expectations for loop nests without a sort: two loops are `O(N^2)`, three `O(N^3)`. */
  lemma ListedLoopNests()
    ensures Run(LoopNestTokens(2)).maxDepth == 2 && Run(LoopNestTokens(2)).primaryCause == LoopNest(2)
    ensures Verdict(false, 2, LoopNest(2)) == ("O(N^2)", "Nested Loop detected")
    ensures Run(LoopNestTokens(3)).maxDepth == 3 && Run(LoopNestTokens(3)).primaryCause == LoopNest(3)
    ensures Verdict(false, 3, LoopNest(3)) == ("O(N^3)", "Deeply Nested Loops (Depth 3)")
  {
    LoopNestAnalysis(1);
    LoopNestAnalysis(2);
    LoopNestAnalysis(3);
    assert NatToString(2) == "2";
    assert NatToString(3) == "3";
    assert "O(N^" + "2" + ")" == "O(N^2)";
    assert "O(N^" + "3" + ")" == "O(N^3)";
    assert "Deeply Nested Loops (Depth " + "3" + ")" == "Deeply Nested Loops (Depth 3)";
  }

  /** A `.sort(` written anywhere in the code is found, whatever surrounds it. */
  lemma SortCallFound(pre: string, post: string)
    ensures HasSort(pre + ".sort(" + post)
  {
    var code := pre + ".sort(" + post;
    HasSortIffInCode(code);
    assert code[|pre|..|pre| + 6] == ".sort(";
    assert OccursAt(code, ".sort(", |pre|);
  }

  /**
   * With a `.sort(` in the code, `k` nested loops give `O(N log N)` up to one
   * loop and `O(N^k)` with the loop-nest reason from two on.
   */
  lemma SortBesideLoops(code: string, k: nat)
    requires HasSort(code)
    ensures k <= 1 ==> Analysis(code, LoopNestTokens(k)) == ("O(N log N)", "Sorting (.sort) dominates linear operations")
    ensures k >= 2 ==> Analysis(code, LoopNestTokens(k)) == ("O(N^" + NatToString(k) + ")", CauseText(LoopNest(k)))
  {
    if k == 0 {
      assert Run(LoopNestTokens(0)) == Start;
    } else {
      LoopNestAnalysis(k);
    }
  }

  /** The repository's bare sort, `nums.sort((a,b) => a - b);`, with no tokens: `O(N log N)`. */
  lemma ListedBareSort(code: string)
    requires code == "nums.sort((a,b) => a - b);"
    ensures Analysis(code, []) == ("O(N log N)", "Sorting (.sort) dominates linear operations")
  {
    assert code == "nums" + ".sort(" + "(a,b) => a - b);";
    SortCallFound("nums", "(a,b) => a - b);");
    SortBesideLoops(code, 0);
  }

  /** The repository's sort before one loop, whose tokens are one loop: the sort dominates. */
  lemma ListedSortOneLoop(code: string)
    requires code == "\n    nums" + ".sort(" + ");\n    for(let i=0; i<n; i++) {}\n    "
    ensures Analysis(code, LoopNestTokens(1)) == ("O(N log N)", "Sorting (.sort) dominates linear operations")
  {
    SortCallFound("\n    nums", ");\n    for(let i=0; i<n; i++) {}\n    ");
    SortBesideLoops(code, 1);
  }

  /** The repository's sort before two nested loops, whose tokens are that nest: `O(N^2)`. */
  lemma ListedSortTwoLoops(code: string)
    requires code == "\n    nums" + ".sort(" + ");\n    for(let i=0; i<n; i++) {\n        for(let j=0; j<n; j++) {}\n    }\n    "
    ensures Analysis(code, LoopNestTokens(2)) == ("O(N^2)", "Nested Loop detected")
  {
    SortCallFound("\n    nums", ");\n    for(let i=0; i<n; i++) {\n        for(let j=0; j<n; j++) {}\n    }\n    ");
    SortBesideLoops(code, 2);
    assert NatToString(2) == "2";
    assert "O(N^" + "2" + ")" == "O(N^2)";
  }

  /** A linear operation as the only statement of a loop: depth 2, reported by name as inside a loop. */
  lemma LinearOpInsideLoop(text: string)
    ensures Run([LoopKeyword, OpenBrace, LinearOp(text), CloseBrace])
      == Machine([], 0, 2, false, LinearOperation(CleanName(text), true))
  {
    RunOfFour(LoopKeyword, OpenBrace, LinearOp(text), CloseBrace);
    var m2 := Step(Step(Start, LoopKeyword), OpenBrace);
    assert m2 == Machine([1], 1, 1, false, LoopNest(1));
  }

  lemma ShiftName()
    ensures CleanName(".shift(") == ".shift"
  {
    PrefixBeforeFirst(".shift", '(', "");
    assert ".shift" + ['('] + "" == ".shift(";
    StripNoSpace(".shift");
  }

  /**
   * `for (...) { arr.shift(); }` without `.sort(`: a linear operation inside a
   * loop is quadratic, and the reason names the operation.
   */
  lemma ShiftInsideLoop(text: string)
    requires text == ".shift("
    ensures var m := Run([LoopKeyword, OpenBrace, LinearOp(text), CloseBrace]);
      && m.maxDepth == 2
      && Verdict(false, m.maxDepth, m.primaryCause) == ("O(N^2)", "Linear operation '.shift' inside a loop")
  {
    var m := Run([LoopKeyword, OpenBrace, LinearOp(text), CloseBrace]);
    LinearOpInsideLoop(text);
    ShiftName();
    assert m == Machine([], 0, 2, false, LinearOperation(".shift", true));
    ShiftReason();
    QuadraticLabel();
  }

  lemma ShiftReason()
    ensures CauseText(LinearOperation(".shift", true)) == "Linear operation '.shift' inside a loop"
  {
  }

  lemma QuadraticLabel()
    ensures Label(false, 2) == "O(N^2)"
  {
    assert NatToString(2) == "2";
  }
}
