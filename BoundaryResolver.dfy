/**
 * The loop-boundedness resolver: three-valued truthiness of an expression and
 * the decision whether a loop condition has a constant trip count, both by
 * structural recursion over the condition's syntax tree.
 */
module BoundaryResolver {
  import opened Wrappers

  /** The literal node kinds, every one of which counts as constant. */
  datatype LiteralKind =
    NumberLit | StringLit | BooleanLit | TrueLit | FalseLit | NullLit | UndefinedLit | RegexLit

  /**
   * The part of a condition's syntax tree the resolver inspects. `Missing`
   * stands for an absent node or field. Literals keep their source text,
   * member accesses the text of their object and property fields, binary
   * expressions their operator token ("" when there is none) and their first
   * two named children (`Missing` when there are fewer than two).
   */
  datatype Node =
    | Missing
    | Parenthesized(inner: Node)
    | Unary(prefix: Option<string>, argument: Node)
    | Literal(literalKind: LiteralKind, text: string)
    | ArrayLiteral
    | ObjectLiteral
    | Member(objectText: Option<string>, propertyText: Option<string>)
    | Binary(operator: string, left: Node, right: Node)
    | Call
    | Conditional(condition: Node, consequence: Node, alternative: Node)
    | Assignment(right: Node)
    | OptionalChain
    | NullishCoalescing
    | Other(nodeType: string)

  const ComparisonOps: set<string> := {"<", ">", "<=", ">=", "==", "===", "!=", "!=="}
  const ArithmeticOps: set<string> := {"+", "-", "*", "/"}
  const PureGlobals: set<string> := {"Math", "Number", "Object", "Array"}
  const MathConstants: set<string> := {"PI", "E", "LN10", "LN2", "LOG10E", "LOG2E", "SQRT1_2", "SQRT2"}
  const NumberConstants: set<string> := {"MAX_SAFE_INTEGER", "MIN_SAFE_INTEGER", "MAX_VALUE", "MIN_VALUE"}
  const KnownConstants: map<string, set<string>> := map["Math" := MathConstants, "Number" := NumberConstants]

  /** Logical negation lifted to "unknown". */
  function Negate(t: Option<bool>): Option<bool> {
    match t
    case Some(b) => Some(!b)
    case None => None
  }

  /** `Some(true)`: always truthy; `Some(false)`: always falsy; `None`: unknown. */
  function Truthiness(n: Node): Option<bool> {
    match n
    case Parenthesized(inner) => Truthiness(inner)
    case Literal(kind, text) =>
      (match kind
       case TrueLit | RegexLit => Some(true)
       case FalseLit | NullLit | UndefinedLit => Some(false)
       case NumberLit => Some(text != "0" && text != "0n")
       case StringLit => Some(text != "''" && text != "\"\"")
       case BooleanLit => None)
    case ArrayLiteral => Some(true)
    case ObjectLiteral => Some(true)
    case Unary(op, arg) => if op == Some("!") && arg != Missing then Negate(Truthiness(arg)) else None
    case _ => None
  }

  predicate IsKnownConstant(obj: string, prop: string) {
    obj in KnownConstants && prop in KnownConstants[obj]
  }

  /** Whether a loop condition is judged to have a constant trip count. */
  function IsBounded(n: Node): bool {
    match n
    case Missing => false
    case Parenthesized(inner) => IsBounded(inner)
    case Unary(_, arg) => IsBounded(arg)
    case Literal(_, _) => true
    case Member(obj, prop) =>
      obj.Some? && obj.value in PureGlobals && prop.Some? && IsKnownConstant(obj.value, prop.value)
    case Binary(op, left, right) =>
      if left == Missing || right == Missing then false
      else if op == "&&" then
        if Truthiness(left) == Some(false) || Truthiness(right) == Some(false) then true
        else if Truthiness(left) == Some(true) then IsBounded(right)
        else IsBounded(left) && IsBounded(right)
      else if op == "||" then
        if Truthiness(left) == Some(true) || Truthiness(right) == Some(true) then false
        else IsBounded(left) && IsBounded(right)
      else if left.Call? || right.Call? then false
      else if op in ArithmeticOps then IsBounded(left) && IsBounded(right)
      // The source calls `self.condition(right)` here, a name the class does
      // not define; the intended recursive call is modelled (see IsBoundedAsWritten).
      else if op in ComparisonOps then IsBounded(left) || IsBounded(right)
      else false
    case Conditional(cond, consequence, alternative) =>
      (match Truthiness(cond)
       case Some(true) => IsBounded(consequence)
       case Some(false) => IsBounded(alternative)
       case None => IsBounded(consequence) && IsBounded(alternative))
    case Assignment(value) => if value == Missing then false else IsBounded(value)
    case OptionalChain => false
    case NullishCoalescing => false
    case _ => false
  }

  // ---------------------------------------------------------------------------
  // The comparison rule as written: an unbounded left operand reaches the
  // lookup of the undefined attribute `condition`, which raises.

  datatype Outcome = Returns(value: bool) | RaisesAttributeError

  /** Python's `a and b` on outcomes: a raise or a false `a` wins without evaluating `b`. */
  function AndThen(a: Outcome, b: Outcome): Outcome {
    if a.RaisesAttributeError? || !a.value then a else b
  }

  /** Python's `a or b` on outcomes. */
  function OrElse(a: Outcome, b: Outcome): Outcome {
    if a.RaisesAttributeError? || a.value then a else b
  }

  /** The resolver exactly as written, with the misnamed call on the comparison path. */
  function IsBoundedAsWritten(n: Node): Outcome {
    match n
    case Missing => Returns(false)
    case Parenthesized(inner) => IsBoundedAsWritten(inner)
    case Unary(_, arg) => IsBoundedAsWritten(arg)
    case Literal(_, _) => Returns(true)
    case Member(obj, prop) =>
      Returns(obj.Some? && obj.value in PureGlobals && prop.Some? && IsKnownConstant(obj.value, prop.value))
    case Binary(op, left, right) =>
      if left == Missing || right == Missing then Returns(false)
      else if op == "&&" then
        if Truthiness(left) == Some(false) || Truthiness(right) == Some(false) then Returns(true)
        else if Truthiness(left) == Some(true) then IsBoundedAsWritten(right)
        else AndThen(IsBoundedAsWritten(left), IsBoundedAsWritten(right))
      else if op == "||" then
        if Truthiness(left) == Some(true) || Truthiness(right) == Some(true) then Returns(false)
        else AndThen(IsBoundedAsWritten(left), IsBoundedAsWritten(right))
      else if left.Call? || right.Call? then Returns(false)
      else if op in ArithmeticOps then AndThen(IsBoundedAsWritten(left), IsBoundedAsWritten(right))
      else if op in ComparisonOps then OrElse(IsBoundedAsWritten(left), RaisesAttributeError)
      else Returns(false)
    case Conditional(cond, consequence, alternative) =>
      (match Truthiness(cond)
       case Some(true) => IsBoundedAsWritten(consequence)
       case Some(false) => IsBoundedAsWritten(alternative)
       case None => AndThen(IsBoundedAsWritten(consequence), IsBoundedAsWritten(alternative)))
    case Assignment(value) => if value == Missing then Returns(false) else IsBoundedAsWritten(value)
    case OptionalChain => Returns(false)
    case NullishCoalescing => Returns(false)
    case _ => Returns(false)
  }

  /** Wherever the code as written returns, it returns what the corrected resolver does. */
  lemma {:induction false} AsWrittenAgreesWhenItReturns(n: Node)
    requires IsBoundedAsWritten(n).Returns?
    ensures IsBounded(n) == IsBoundedAsWritten(n).value
  {
    match n
    case Parenthesized(inner) => AsWrittenAgreesWhenItReturns(inner);
    case Unary(_, arg) => AsWrittenAgreesWhenItReturns(arg);
    case Binary(op, left, right) =>
      if left != Missing && right != Missing {
        var l, r := IsBoundedAsWritten(left), IsBoundedAsWritten(right);
        if l.Returns? { AsWrittenAgreesWhenItReturns(left); }
        if r.Returns? { AsWrittenAgreesWhenItReturns(right); }
      }
    case Conditional(cond, consequence, alternative) =>
      if IsBoundedAsWritten(consequence).Returns? { AsWrittenAgreesWhenItReturns(consequence); }
      if IsBoundedAsWritten(alternative).Returns? { AsWrittenAgreesWhenItReturns(alternative); }
    case Assignment(value) =>
      if value != Missing { AsWrittenAgreesWhenItReturns(value); }
    case _ =>
  }

  /**
   * A comparison whose left operand is not bounded raises as written, while
   * the corrected resolver answers by the right operand; `i < n` is one.
   */
  lemma AsWrittenRaisesOnComparison(op: string, left: Node, right: Node)
    requires op in ComparisonOps && left != Missing && right != Missing
    requires !left.Call? && !right.Call?
    requires IsBoundedAsWritten(left) == Returns(false)
    ensures IsBoundedAsWritten(Binary(op, left, right)) == RaisesAttributeError
    ensures IsBounded(Binary(op, left, right)) == IsBounded(right)
  {
    AsWrittenAgreesWhenItReturns(left);
  }

  /**
   * Comparisons with a loop variable on the left cannot be answered as
   * written: `i < 10`, the first case of the resolver's own list, raises
   * although the corrected resolver bounds it, and `i < n` raises although the
   * corrected resolver rejects it.
   */
  lemma IdentifierComparisonRaises()
    ensures IsBoundedAsWritten(Binary("<", Other("identifier"), Literal(NumberLit, "10"))) == RaisesAttributeError
    ensures IsBounded(Binary("<", Other("identifier"), Literal(NumberLit, "10")))
    ensures IsBoundedAsWritten(Binary("<", Other("identifier"), Other("identifier"))) == RaisesAttributeError
    ensures !IsBounded(Binary("<", Other("identifier"), Other("identifier")))
  {
  }

  // ---------------------------------------------------------------------------
  // Parentheses and prefix operators.

  datatype Wrapper = Paren | Prefix(operator: Option<string>)

  /** `e` inside the wrappers `ws`, the first of them outermost. */
  function Wrap(ws: seq<Wrapper>, e: Node): Node {
    if ws == [] then e
    else match ws[0]
      case Paren => Parenthesized(Wrap(ws[1..], e))
      case Prefix(op) => Unary(op, Wrap(ws[1..], e))
  }

  /** Only parentheses and `!` among the wrappers. */
  predicate SeeThrough(ws: seq<Wrapper>) {
    forall k | 0 <= k < |ws| :: ws[k] == Paren || ws[k] == Prefix(Some("!"))
  }

  function NotCount(ws: seq<Wrapper>): nat {
    if ws == [] then 0 else (if ws[0] == Prefix(Some("!")) then 1 else 0) + NotCount(ws[1..])
  }

  /**
   * Truthiness sees through parentheses, `!` flips a known value, and any
   * other prefix operator makes it unknown, however the wrappers are stacked.
   */
  lemma {:induction false} WrapTruthiness(ws: seq<Wrapper>, e: Node)
    ensures Truthiness(Wrap(ws, e)) ==
      if !SeeThrough(ws) then None
      else if NotCount(ws) % 2 == 0 then Truthiness(e)
      else Negate(Truthiness(e))
  {
    if ws != [] {
      WrapTruthiness(ws[1..], e);
      assert SeeThrough(ws) <==> (ws[0] == Paren || ws[0] == Prefix(Some("!"))) && SeeThrough(ws[1..]) by {
        if (ws[0] == Paren || ws[0] == Prefix(Some("!"))) && SeeThrough(ws[1..]) {
          forall k | 0 <= k < |ws| ensures ws[k] == Paren || ws[k] == Prefix(Some("!")) {
            if k > 0 { assert ws[k] == ws[1..][k - 1]; }
          }
        }
      }
      match Truthiness(e)
      case Some(b) =>
      case None =>
    }
  }

  /** Parentheses and every prefix operator are transparent for boundedness. */
  lemma {:induction false} WrapBoundedness(ws: seq<Wrapper>, e: Node)
    ensures IsBounded(Wrap(ws, e)) == IsBounded(e)
  {
    if ws != [] {
      WrapBoundedness(ws[1..], e);
    }
  }

  // ---------------------------------------------------------------------------
  // Two reference classes: expressions built from constants only, and
  // expressions whose every leaf is a runtime value.

  /**
   * Built from literals and whitelisted global constants with parentheses,
   * prefix operators, arithmetic, comparisons, assignments and conditionals
   * (whose condition may be anything).
   */
  predicate IsConstantExpr(n: Node) {
    match n
    case Literal(_, _) => true
    case Member(obj, prop) => obj.Some? && prop.Some? && IsKnownConstant(obj.value, prop.value)
    case Parenthesized(inner) => IsConstantExpr(inner)
    case Unary(_, arg) => IsConstantExpr(arg)
    case Binary(op, left, right) =>
      (op in ArithmeticOps || op in ComparisonOps) && IsConstantExpr(left) && IsConstantExpr(right)
    case Conditional(_, consequence, alternative) => IsConstantExpr(consequence) && IsConstantExpr(alternative)
    case Assignment(value) => IsConstantExpr(value)
    case _ => false
  }

  /**
   * Built from identifiers, calls, absent nodes, optional chains, nullish
   * coalescing and non-whitelisted member accesses, combined by any operator.
   */
  predicate IsRuntimeExpr(n: Node) {
    match n
    case Missing => true
    case Call => true
    case OptionalChain => true
    case NullishCoalescing => true
    case Other(_) => true
    case Member(obj, prop) => !(obj.Some? && prop.Some? && IsKnownConstant(obj.value, prop.value))
    case Parenthesized(inner) => IsRuntimeExpr(inner)
    case Unary(_, arg) => IsRuntimeExpr(arg)
    case Binary(_, left, right) => IsRuntimeExpr(left) && IsRuntimeExpr(right)
    case Conditional(_, consequence, alternative) => IsRuntimeExpr(consequence) && IsRuntimeExpr(alternative)
    case Assignment(value) => IsRuntimeExpr(value)
    case _ => false
  }

  lemma KnownConstantsArePureGlobals(obj: string, prop: string)
    requires IsKnownConstant(obj, prop)
    ensures obj in PureGlobals
  {
  }

  /** Every expression built from constants is accepted as bounded. */
  lemma {:induction false} ConstantExprIsBounded(n: Node)
    requires IsConstantExpr(n)
    ensures IsBounded(n)
  {
    match n
    case Member(obj, prop) => KnownConstantsArePureGlobals(obj.value, prop.value);
    case Parenthesized(inner) => ConstantExprIsBounded(inner);
    case Unary(_, arg) => ConstantExprIsBounded(arg);
    case Binary(op, left, right) =>
      ConstantExprIsBounded(left);
      ConstantExprIsBounded(right);
    case Conditional(_, consequence, alternative) =>
      ConstantExprIsBounded(consequence);
      ConstantExprIsBounded(alternative);
    case Assignment(value) => ConstantExprIsBounded(value);
    case Literal(_, _) =>
  }

  /** An expression of runtime values only has unknown truthiness and is never bounded. */
  lemma {:induction false} RuntimeExprIsUnbounded(n: Node)
    requires IsRuntimeExpr(n)
    ensures Truthiness(n) == None
    ensures !IsBounded(n)
  {
    match n
    case Parenthesized(inner) => RuntimeExprIsUnbounded(inner);
    case Unary(_, arg) => RuntimeExprIsUnbounded(arg);
    case Binary(_, left, right) =>
      RuntimeExprIsUnbounded(left);
      RuntimeExprIsUnbounded(right);
    case Conditional(_, consequence, alternative) =>
      RuntimeExprIsUnbounded(consequence);
      RuntimeExprIsUnbounded(alternative);
    case Assignment(value) => RuntimeExprIsUnbounded(value);
    case _ =>
  }

  // ---------------------------------------------------------------------------
  // The rules for single nodes.

  /** Literal truthiness: numbers are falsy only as `0`/`0n`, strings only when empty. */
  lemma LiteralTruthiness(kind: LiteralKind, text: string)
    ensures kind == TrueLit || kind == RegexLit ==> Truthiness(Literal(kind, text)) == Some(true)
    ensures kind == FalseLit || kind == NullLit || kind == UndefinedLit ==> Truthiness(Literal(kind, text)) == Some(false)
    ensures kind == NumberLit ==> (Truthiness(Literal(kind, text)) == Some(false) <==> text in {"0", "0n"})
    ensures kind == StringLit ==> (Truthiness(Literal(kind, text)) == Some(false) <==> text in {"''", "\"\""})
    ensures kind == BooleanLit ==> Truthiness(Literal(kind, text)) == None
    ensures IsBounded(Literal(kind, text))
  {
  }

  /** Array and object literals are always truthy, yet not bounded. */
  lemma CollectionLiterals()
    ensures Truthiness(ArrayLiteral) == Some(true) && !IsBounded(ArrayLiteral)
    ensures Truthiness(ObjectLiteral) == Some(true) && !IsBounded(ObjectLiteral)
  {
  }

  /** A member access is bounded exactly for the whitelisted `Math` and `Number` constants. */
  lemma MemberBoundedness(obj: Option<string>, prop: Option<string>)
    ensures IsBounded(Member(obj, prop)) <==>
      obj.Some? && prop.Some? &&
      ((obj.value == "Math" && prop.value in MathConstants) || (obj.value == "Number" && prop.value in NumberConstants))
    ensures obj == Some("Object") || obj == Some("Array") ==> !IsBounded(Member(obj, prop))
  {
  }

  /** `&&`: a definitely falsy side bounds it, a definitely truthy left defers to the right. */
  lemma AndRule(left: Node, right: Node)
    requires left != Missing && right != Missing
    ensures Truthiness(left) == Some(false) || Truthiness(right) == Some(false) ==> IsBounded(Binary("&&", left, right))
    ensures Truthiness(right) != Some(false) && Truthiness(left) == Some(true) ==>
      IsBounded(Binary("&&", left, right)) == IsBounded(right)
    ensures Truthiness(left) == None && Truthiness(right) != Some(false) ==>
      IsBounded(Binary("&&", left, right)) == (IsBounded(left) && IsBounded(right))
  {
  }

  /** `||`: a definitely truthy side makes it unbounded, otherwise both sides must be bounded. */
  lemma OrRule(left: Node, right: Node)
    requires left != Missing && right != Missing
    ensures IsBounded(Binary("||", left, right)) <==>
      Truthiness(left) != Some(true) && Truthiness(right) != Some(true) && IsBounded(left) && IsBounded(right)
    ensures IsBounded(Binary("||", left, right)) == IsBounded(Binary("||", right, left))
  {
  }

  /**
   * Any other operator: a call operand makes it unbounded; arithmetic needs
   * both sides, a comparison either side; other operators are unbounded.
   */
  lemma OperatorRule(op: string, left: Node, right: Node)
    requires left != Missing && right != Missing && op != "&&" && op != "||"
    ensures left.Call? || right.Call? ==> !IsBounded(Binary(op, left, right))
    ensures !left.Call? && !right.Call? && op in ArithmeticOps ==>
      IsBounded(Binary(op, left, right)) == (IsBounded(left) && IsBounded(right))
    ensures !left.Call? && !right.Call? && op in ComparisonOps ==>
      IsBounded(Binary(op, left, right)) == (IsBounded(left) || IsBounded(right))
    ensures op !in ArithmeticOps && op !in ComparisonOps ==> !IsBounded(Binary(op, left, right))
  {
    assert "&&" !in ArithmeticOps && "&&" !in ComparisonOps;
    assert "||" !in ArithmeticOps && "||" !in ComparisonOps;
    assert ArithmeticOps !! ComparisonOps;
  }

  /**
   * A conditional with a definite condition is judged by the selected branch
   * only; an assignment by its right-hand side; the remaining kinds are unbounded.
   */
  lemma OtherNodeRules(cond: Node, consequence: Node, alternative: Node, value: Node, kind: string)
    ensures Truthiness(cond) == Some(true) ==> IsBounded(Conditional(cond, consequence, alternative)) == IsBounded(consequence)
    ensures Truthiness(cond) == Some(false) ==> IsBounded(Conditional(cond, consequence, alternative)) == IsBounded(alternative)
    ensures Truthiness(cond) == None ==>
      IsBounded(Conditional(cond, consequence, alternative)) == (IsBounded(consequence) && IsBounded(alternative))
    ensures IsBounded(Assignment(value)) == IsBounded(value)
    ensures !IsBounded(Missing) && !IsBounded(OptionalChain) && !IsBounded(NullishCoalescing)
    ensures !IsBounded(Call) && !IsBounded(Other(kind))
  {
    assert IsBounded(Assignment(value)) == IsBounded(value);
  }

  // ---------------------------------------------------------------------------
  // The resolver's own list of conditions with their expected answers.

  const I := Other("identifier")
  const N := Other("identifier")

  function Num(text: string): Node { Literal(NumberLit, text) }
  function Str(text: string): Node { Literal(StringLit, text) }

  /** The resolver's listed conditions, lines 142-144 and 148: comparisons against a literal are bounded. */
  lemma ListedConstantComparisons()
    ensures IsBounded(Binary("<", I, Num("10")))
    ensures IsBounded(Binary("===", I, Num("5")))
    ensures IsBounded(Binary("!==", I, Num("0")))
    ensures IsBounded(Binary("===", I, Str("'stop'")))
  {
  }

  /** The resolver's listed conditions, lines 145-149: comparisons between variables, alone or combined, are not. */
  lemma ListedVariableComparisons()
    ensures !IsBounded(Binary("<", I, N))
    ensures !IsBounded(Binary("&&", Binary("<", I, Num("10")), Binary("<", I, N)))
    ensures !IsBounded(Binary("||", Binary("<", I, Num("10")), Binary("<", I, N)))
    ensures !IsBounded(Binary("&&", Binary("<", I, N), Binary("<", I, N)))
  {
  }

  /** The resolver's listed condition at line 150: an unbounded conjunction in a disjunction. */
  lemma ListedMixedCombination()
    ensures !IsBounded(Binary("||", Parenthesized(Binary("&&", Binary("<", I, Num("10")), Binary("<", I, N))), Binary("<", I, N)))
  {
  }

  /** The resolver's listed conditions, lines 152-154: arithmetic on literals stays bounded, on a variable it does not. */
  lemma ListedArithmeticBounds()
    ensures IsBounded(Binary("<", I, Binary("+", Num("10"), Num("2"))))
    ensures !IsBounded(Binary("<", I, Binary("+", N, Num("1"))))
    ensures IsBounded(Binary("<", I, Unary(Some("-"), Num("5"))))
  {
    assert IsBounded(Binary("+", Num("10"), Num("2")));
    assert !IsBounded(Binary("+", N, Num("1")));
  }

  /** The resolver's listed conditions, lines 155-161: prefix operators are transparent and literals are bounded. */
  lemma ListedPrefixesAndLiterals()
    ensures !IsBounded(Unary(Some("!"), I))
    ensures IsBounded(Unary(Some("!"), Unary(Some("!"), Literal(TrueLit, "true"))))
    ensures IsBounded(Literal(TrueLit, "true")) && IsBounded(Literal(FalseLit, "false"))
    ensures IsBounded(Num("0")) && IsBounded(Str("'x'")) && !IsBounded(I)
  {
  }

  /** The resolver's listed conditions, lines 162-166: a call operand is unbounded, null and undefined are literals. */
  lemma ListedMembersAndCalls()
    ensures IsBounded(Binary("<", Member(Some("arr"), Some("length")), Num("10")))
    ensures !IsBounded(Binary("<", I, Call)) && !IsBounded(Binary("<", Call, Num("10")))
    ensures IsBounded(Binary("===", I, Literal(NullLit, "null")))
    ensures IsBounded(Binary("===", I, Literal(UndefinedLit, "undefined")))
  {
    assert IsBounded(Num("10"));
  }

  /** The resolver's listed conditions, lines 167-170: short-circuit on definite truthiness. */
  lemma ListedShortCircuits()
    ensures IsBounded(Binary("<", Num("5"), Num("10")))
    ensures !IsBounded(Binary("||", Literal(TrueLit, "true"), Literal(FalseLit, "false")))
    ensures IsBounded(Binary("&&", Literal(TrueLit, "true"), Literal(FalseLit, "false")))
    ensures !IsBounded(Binary("&&", Parenthesized(Parenthesized(Binary("<", I, Num("10")))), Parenthesized(Binary("<", I, N))))
  {
    var bounded, open := Parenthesized(Parenthesized(Binary("<", I, Num("10")))), Parenthesized(Binary("<", I, N));
    assert Truthiness(bounded) == None && Truthiness(open) == None;
    assert !IsBounded(open);
  }

  /** The resolver's listed conditions, lines 173-177: whitelisted constants and falsy or truthy literals. */
  lemma ListedFalsyAndTruthy()
    ensures IsBounded(Binary("<", Member(Some("Math"), Some("PI")), Num("4")))
    ensures IsBounded(Binary("&&", Num("0"), Num("1")))
    ensures !IsBounded(Binary("||", Num("0"), Num("1")))
    ensures !IsBounded(Binary("||", Str("''"), Str("'a'")))
  {
    assert IsBounded(Num("4"));
    assert Truthiness(Num("0")) == Some(false) && Truthiness(Num("1")) == Some(true);
    assert Truthiness(Str("'a'")) == Some(true);
  }

  /** The resolver's listed conditions, lines 178-180: falsy strings, nested parentheses, literal branches. */
  lemma ListedParentheses()
    ensures IsBounded(Binary("&&", Str("''"), Str("'a'")))
    ensures IsBounded(Parenthesized(Parenthesized(Literal(TrueLit, "true"))))
    ensures IsBounded(Binary("<", Parenthesized(Conditional(I, Num("1"), Num("2"))), Num("10")))
  {
    assert Truthiness(Str("''")) == Some(false);
    assert IsBounded(Num("10"));
  }

  /** The resolver's listed conditions, lines 182-183: a definite condition selects the branch to check. */
  lemma ListedConditionals()
    ensures IsBounded(Binary("<", Parenthesized(Conditional(Literal(TrueLit, "true"), Num("1"), Call)), Num("10")))
    ensures IsBounded(Binary("<", Parenthesized(Conditional(Literal(FalseLit, "false"), Call, Num("2"))), Num("10")))
  {
  }

  /**
   * Three listed expectations of False disagree with the resolver:
   * `i < 10 && (j < 5 || k < 3)`, `Math[foo] < 10` and
   * `(flag ? getN() : 2) < 10`. With the call at line 110 corrected all three
   * are accepted, because a comparison needs only one bounded side and the
   * call guard looks at the operand nodes themselves, not inside parentheses.
   * As written each of them raises instead: see `ListedConditionsRaiseAsWritten`.
   */
  lemma ListedConditionsAcceptedOnceCorrected()
    ensures IsBounded(Binary("&&", Binary("<", I, Num("10")), Parenthesized(Binary("||", Binary("<", I, Num("5")), Binary("<", I, Num("3"))))))
    ensures IsBounded(Binary("<", Other("subscript_expression"), Num("10")))
    ensures IsBounded(Binary("<", Parenthesized(Conditional(I, Call, Num("2"))), Num("10")))
  {
    var disjunction := Binary("||", Binary("<", I, Num("5")), Binary("<", I, Num("3")));
    assert IsBounded(Num("10")) && IsBounded(Num("5")) && IsBounded(Num("3"));
    assert IsBounded(Binary("<", I, Num("10"))) && Truthiness(Binary("<", I, Num("10"))) == None;
    assert IsBounded(Binary("<", I, Num("5"))) && IsBounded(Binary("<", I, Num("3")));
    assert IsBounded(disjunction) && Truthiness(Parenthesized(disjunction)) == None;
  }

  /**
   * The same three listed conditions as written: each reaches a comparison
   * whose left operand (`i`, the subscript, the parenthesized conditional) is
   * not bounded, so the misnamed call at line 110 raises.
   */
  lemma ListedConditionsRaiseAsWritten()
    ensures IsBoundedAsWritten(Binary("&&", Binary("<", I, Num("10")), Parenthesized(Binary("||", Binary("<", I, Num("5")), Binary("<", I, Num("3"))))))
      == RaisesAttributeError
    ensures IsBoundedAsWritten(Binary("<", Other("subscript_expression"), Num("10"))) == RaisesAttributeError
    ensures IsBoundedAsWritten(Binary("<", Parenthesized(Conditional(I, Call, Num("2"))), Num("10"))) == RaisesAttributeError
  {
    var firstComparison := Binary("<", I, Num("10"));
    AsWrittenRaisesOnComparison("<", I, Num("10"));
    assert Truthiness(firstComparison) == None;
    var branchy := Parenthesized(Conditional(I, Call, Num("2")));
    assert IsBoundedAsWritten(branchy) == Returns(false);
    AsWrittenRaisesOnComparison("<", branchy, Num("10"));
    AsWrittenRaisesOnComparison("<", Other("subscript_expression"), Num("10"));
  }
}
