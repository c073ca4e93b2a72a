/**
 * The expressions of day 18: a factor followed by a chain of `+`/`*` operations,
 * where a factor is a number or a parenthesised expression. `Evaluator` folds a
 * chain strictly from left to right; `Evaluator2` gives `+` precedence over `*`.
 */
module OperationOrder {
  import opened Decimal

  datatype Operator = Add | Multiply

  /** `Expression`: `.opExpression(factor, chain)` or a lone `.factor`. */
  datatype Expression = OpExpr(first: Factor, chain: OpExpression) | FactorExpr(factor: Factor)

  /** `OpExpression`: the operations after the first factor, `.last` or `.continued`. */
  datatype OpExpression =
    | Last(op: Operator, f: Factor)
    | Continued(op: Operator, f: Factor, continuation: OpExpression)

  datatype Factor = Number(n: int) | Parenthesized(e: Expression)

  /** `evaluate(_ op:, lhs, rhs)`, shared by both evaluators. */
  function Apply(op: Operator, lhs: int, rhs: int): int
  {
    match op
    case Add => lhs + rhs
    case Multiply => lhs * rhs
  }

  // `Evaluator`: no precedence.

  function Evaluate(e: Expression): int
    decreases e
  {
    match e
    case OpExpr(f, oe) => EvaluateChain(EvaluateFactor(f), oe)
    case FactorExpr(f) => EvaluateFactor(f)
  }

  function EvaluateChain(acc: int, oe: OpExpression): int
    decreases oe
  {
    match oe
    case Last(op, f) => Apply(op, acc, EvaluateFactor(f))
    case Continued(op, f, continuation) => EvaluateChain(Apply(op, acc, EvaluateFactor(f)), continuation)
  }

  function EvaluateFactor(f: Factor): int
    decreases f
  {
    match f
    case Number(n) => n
    case Parenthesized(e) => Evaluate(e)
  }

  // `Evaluator2`: `+` before `*`.

  function Evaluate2(e: Expression): int
    decreases e
  {
    match e
    case OpExpr(f, oe) => EvaluateChain2(EvaluateFactor2(f), oe)
    case FactorExpr(f) => EvaluateFactor2(f)
  }

  function EvaluateChain2(acc: int, oe: OpExpression): int
    decreases oe
  {
    match oe
    case Last(op, f) => Apply(op, acc, EvaluateFactor2(f))
    case Continued(Add, f, continuation) => EvaluateChain2(Apply(Add, acc, EvaluateFactor2(f)), continuation)
    case Continued(Multiply, f, continuation) => Apply(Multiply, acc, EvaluateChain2(EvaluateFactor2(f), continuation))
  }

  function EvaluateFactor2(f: Factor): int
    decreases f
  {
    match f
    case Number(n) => n
    case Parenthesized(e) => Evaluate2(e)
  }

  // The flat view of a chain: its factors and its operators, in order.

  function Factors(oe: OpExpression): (fs: seq<Factor>)
    ensures |fs| >= 1
  {
    match oe
    case Last(_, f) => [f]
    case Continued(_, f, c) => [f] + Factors(c)
  }

  function Ops(oe: OpExpression): (ops: seq<Operator>)
    ensures |ops| == |Factors(oe)|
  {
    match oe
    case Last(op, _) => [op]
    case Continued(op, _, c) => [op] + Ops(c)
  }

  function AllFactors(e: Expression): (fs: seq<Factor>)
  {
    match e
    case OpExpr(f, oe) => [f] + Factors(oe)
    case FactorExpr(f) => [f]
  }

  function AllOps(e: Expression): (ops: seq<Operator>)
    ensures |AllFactors(e)| == |ops| + 1
  {
    match e
    case OpExpr(_, oe) => Ops(oe)
    case FactorExpr(_) => []
  }

  function Values(fs: seq<Factor>): (vs: seq<int>)
    ensures |vs| == |fs|
  {
    seq(|fs|, i requires 0 <= i < |fs| => EvaluateFactor(fs[i]))
  }

  function Values2(fs: seq<Factor>): (vs: seq<int>)
    ensures |vs| == |fs|
  {
    seq(|fs|, i requires 0 <= i < |fs| => EvaluateFactor2(fs[i]))
  }

  /**
   * Strict left-to-right evaluation, stated from the other end: the last operator is
   * applied to the value of everything before it and to the last value.
   */
  function LeftToRight(vals: seq<int>, ops: seq<Operator>): int
    requires |vals| == |ops| + 1
    decreases |ops|
  {
    if ops == [] then vals[0]
    else Apply(ops[|ops| - 1], LeftToRight(vals[..|vals| - 1], ops[..|ops| - 1]), vals[|vals| - 1])
  }

  /** The values split at every `*` into runs joined by `+`. */
  function Groups(vals: seq<int>, ops: seq<Operator>): (gs: seq<seq<int>>)
    requires |vals| == |ops| + 1
    ensures |gs| >= 1 && |gs[0]| >= 1
    decreases |ops|
  {
    if ops == [] then [vals]
    else
      var gs := Groups(vals[1..], ops[1..]);
      if ops[0] == Add then [[vals[0]] + gs[0]] + gs[1..] else [[vals[0]]] + gs
  }

  function Sum(s: seq<int>): int
  {
    if s == [] then 0 else s[0] + Sum(s[1..])
  }

  /** The product of the sums of the groups: `+` binds tighter than `*`. */
  function ProductOfSums(gs: seq<seq<int>>): int
  {
    if gs == [] then 1 else Sum(gs[0]) * ProductOfSums(gs[1..])
  }

  /** Applying the first operator to the first two values leaves the rest of the left fold unchanged. */
  lemma {:induction false} LeftToRightFront(vals: seq<int>, ops: seq<Operator>)
    requires |vals| == |ops| + 1 && |ops| >= 1
    ensures LeftToRight(vals, ops) == LeftToRight([Apply(ops[0], vals[0], vals[1])] + vals[2..], ops[1..])
    decreases |ops|
  {
    if |ops| > 1 {
      var vals', ops' := vals[..|vals| - 1], ops[..|ops| - 1];
      LeftToRightFront(vals', ops');
      var short := [Apply(ops[0], vals[0], vals[1])] + vals[2..];
      assert short[..|short| - 1] == [Apply(ops'[0], vals'[0], vals'[1])] + vals'[2..];
      assert ops[1..][..|ops[1..]| - 1] == ops'[1..];
    }
  }

  /** `Evaluator` on a chain is the strict left-to-right fold of its values. */
  lemma {:induction false} ChainLeftToRight(acc: int, oe: OpExpression)
    ensures EvaluateChain(acc, oe) == LeftToRight([acc] + Values(Factors(oe)), Ops(oe))
    decreases oe
  {
    var vals := [acc] + Values(Factors(oe));
    var ops := Ops(oe);
    LeftToRightFront(vals, ops);
    match oe
    case Last(op, f) =>
      var first := Apply(op, acc, EvaluateFactor(f));
      assert vals[1] == EvaluateFactor(f) && ops[0] == op && ops[1..] == [];
      assert [first] + vals[2..] == [first];
    case Continued(op, f, c) =>
      var first := Apply(op, acc, EvaluateFactor(f));
      assert vals[1] == EvaluateFactor(f) && ops[0] == op && ops[1..] == Ops(c);
      ChainLeftToRight(first, c);
      assert [first] + vals[2..] == [first] + Values(Factors(c));
  }

  /** `Evaluator` on a whole expression: the left-to-right fold of its top-level values. */
  lemma EvaluateLeftToRight(e: Expression)
    ensures Evaluate(e) == LeftToRight(Values(AllFactors(e)), AllOps(e))
  {
    match e
    case OpExpr(f, oe) =>
      var v := EvaluateFactor(f);
      assert Evaluate(e) == EvaluateChain(v, oe);
      ChainLeftToRight(v, oe);
      assert AllFactors(e) == [f] + Factors(oe) && AllOps(e) == Ops(oe);
      assert Values(AllFactors(e)) == [v] + Values(Factors(oe));
    case FactorExpr(f) =>
      assert Values(AllFactors(e)) == [EvaluateFactor(f)] && AllOps(e) == [];
  }

  /** Changing the first value by `d` changes only the sum of the first group, by `d`. */
  lemma {:induction false} GroupsShiftFirst(vals: seq<int>, ops: seq<Operator>, d: int)
    requires |vals| == |ops| + 1
    ensures var gs, gs' := Groups(vals, ops), Groups([vals[0] + d] + vals[1..], ops);
      |gs'| == |gs| && gs'[1..] == gs[1..] && Sum(gs'[0]) == Sum(gs[0]) + d
    decreases |ops|
  {
    var vals' := [vals[0] + d] + vals[1..];
    assert vals'[1..] == vals[1..];
    var gs, gs' := Groups(vals, ops), Groups(vals', ops);
    if ops == [] {
      assert gs'[0][1..] == gs[0][1..];
    } else {
      var rest := Groups(vals[1..], ops[1..]);
      if ops[0] == Add {
        assert gs[0] == [vals[0]] + rest[0] && gs'[0] == [vals[0] + d] + rest[0];
        assert gs[0][1..] == rest[0] && gs'[0][1..] == rest[0];
      }
    }
  }

  lemma ProductOfSumsSplit(gs: seq<seq<int>>)
    requires |gs| >= 1
    ensures ProductOfSums(gs) == Sum(gs[0]) * ProductOfSums(gs[1..])
  {
  }

  /** A leading `+` merges the first two values into one. */
  lemma GroupsAddFirst(vals: seq<int>, ops: seq<Operator>)
    requires |vals| == |ops| + 1 && |ops| >= 1 && ops[0] == Add
    ensures ProductOfSums(Groups(vals, ops)) == ProductOfSums(Groups([vals[0] + vals[1]] + vals[2..], ops[1..]))
  {
    var gs := Groups(vals, ops);
    var rest := Groups(vals[1..], ops[1..]);
    var shifted := Groups([vals[0] + vals[1]] + vals[2..], ops[1..]);
    assert [vals[1] + vals[0]] + vals[1..][1..] == [vals[0] + vals[1]] + vals[2..];
    GroupsShiftFirst(vals[1..], ops[1..], vals[0]);
    assert gs == [[vals[0]] + rest[0]] + rest[1..];
    assert gs[0][0] == vals[0] && gs[0][1..] == rest[0];
    assert Sum(gs[0]) == Sum(shifted[0]);
    assert gs[1..] == shifted[1..];
    ProductOfSumsSplit(gs);
    ProductOfSumsSplit(shifted);
  }

  /** A leading `*` multiplies the first value by the rest. */
  lemma GroupsMultiplyFirst(vals: seq<int>, ops: seq<Operator>)
    requires |vals| == |ops| + 1 && |ops| >= 1 && ops[0] == Multiply
    ensures ProductOfSums(Groups(vals, ops)) == vals[0] * ProductOfSums(Groups(vals[1..], ops[1..]))
  {
    var gs := Groups(vals, ops);
    assert gs == [[vals[0]]] + Groups(vals[1..], ops[1..]);
    assert gs[1..] == Groups(vals[1..], ops[1..]);
    assert Sum([vals[0]]) == vals[0];
    ProductOfSumsSplit(gs);
  }

  lemma GroupsSingle(v: int)
    ensures ProductOfSums(Groups([v], [])) == v
  {
    assert Groups([v], []) == [[v]];
    assert Sum([v]) == v && ProductOfSums([[v]]) == v;
  }

  /** `Evaluator2` on a chain: the product of the sums of the runs between the `*` operators. */
  lemma {:induction false} ChainPrecedence(acc: int, oe: OpExpression)
    ensures EvaluateChain2(acc, oe) == ProductOfSums(Groups([acc] + Values2(Factors(oe)), Ops(oe)))
    decreases oe
  {
    var vals := [acc] + Values2(Factors(oe));
    var ops := Ops(oe);
    match oe
    case Last(op, f) =>
      var v := EvaluateFactor2(f);
      assert vals == [acc, v] && ops == [op];
      if op == Add {
        GroupsAddFirst(vals, ops);
        assert [acc + v] + vals[2..] == [acc + v];
        GroupsSingle(acc + v);
      } else {
        GroupsMultiplyFirst(vals, ops);
        assert vals[1..] == [v];
        GroupsSingle(v);
      }
    case Continued(op, f, c) =>
      var v := EvaluateFactor2(f);
      assert vals[1..] == [v] + Values2(Factors(c));
      assert ops[1..] == Ops(c);
      if op == Add {
        GroupsAddFirst(vals, ops);
        assert [acc + v] + vals[2..] == [acc + v] + Values2(Factors(c));
        ChainPrecedence(acc + v, c);
      } else {
        GroupsMultiplyFirst(vals, ops);
        ChainPrecedence(v, c);
      }
  }

  /** `Evaluator2` on a whole expression: the product of the sums of its top-level runs. */
  lemma EvaluatePrecedence(e: Expression)
    ensures Evaluate2(e) == ProductOfSums(Groups(Values2(AllFactors(e)), AllOps(e)))
  {
    match e
    case OpExpr(f, oe) =>
      ChainPrecedence(EvaluateFactor2(f), oe);
      assert Values2(AllFactors(e)) == [EvaluateFactor2(f)] + Values2(Factors(oe));
    case FactorExpr(f) =>
      var v := EvaluateFactor2(f);
      assert Values2(AllFactors(e)) == [v];
      assert Groups([v], []) == [[v]];
      assert Sum([v]) == v && ProductOfSums([[v]]) == v;
  }

  // `description`: numbers in decimal, " op " between factors, parentheses around nested expressions.

  function OperatorText(op: Operator): string
  {
    match op
    case Add => "+"
    case Multiply => "*"
  }

  function Describe(e: Expression): string
    decreases e
  {
    match e
    case OpExpr(f, oe) => DescribeFactor(f) + DescribeChain(oe)
    case FactorExpr(f) => DescribeFactor(f)
  }

  function DescribeChain(oe: OpExpression): string
    decreases oe
  {
    match oe
    case Last(op, f) => " " + OperatorText(op) + " " + DescribeFactor(f)
    case Continued(op, f, c) => " " + OperatorText(op) + " " + DescribeFactor(f) + DescribeChain(c)
  }

  function DescribeFactor(f: Factor): (s: string)
    ensures |s| >= 1 && (s[0] == '(' || s[0] == '-' || IsDigit(s[0]))
    decreases f
  {
    match f
    case Number(n) => IntToString(n)
    case Parenthesized(e) => "(" + Describe(e) + ")"
  }

  // A reader for descriptions, so that `description` can be shown to lose nothing.

  datatype Read<T> = Read(value: T, rest: string) | NoRead

  /** The number of leading digits of `s`. */
  function DigitRun(s: string): (k: nat)
    ensures k <= |s| && AllDigits(s[..k]) && (k < |s| ==> !IsDigit(s[k]))
  {
    if s == [] || !IsDigit(s[0]) then 0
    else
      var k := 1 + DigitRun(s[1..]);
      assert s[..k] == [s[0]] + s[1..][..k - 1];
      k
  }

  /** An optional '-' and at least one digit. */
  function ReadNumber(s: string): (r: Read<int>)
    ensures r.Read? ==> |r.rest| < |s|
  {
    var sign := if s != [] && s[0] == '-' then 1 else 0;
    var k := DigitRun(s[sign..]);
    if k == 0 then NoRead
    else
      var token := s[..sign + k];
      assert token[1..] == s[sign..][..k] || sign == 0;
      assert sign == 0 ==> token == s[sign..][..k];
      Read(ParseInt(token), s[sign + k..])
  }

  function ReadExpression(s: string): (r: Read<Expression>)
    ensures r.Read? ==> |r.rest| < |s|
    decreases |s|, 1
  {
    match ReadFactor(s)
    case NoRead => NoRead
    case Read(f, rest) =>
      if rest != [] && rest[0] == ' ' then
        match ReadChain(rest)
        case NoRead => NoRead
        case Read(oe, rest') => Read(OpExpr(f, oe), rest')
      else Read(FactorExpr(f), rest)
  }

  function ReadChain(s: string): (r: Read<OpExpression>)
    ensures r.Read? ==> |r.rest| < |s|
    decreases |s|, 1
  {
    if |s| < 3 || s[0] != ' ' || s[2] != ' ' || (s[1] != '+' && s[1] != '*') then NoRead
    else
      var op := if s[1] == '+' then Add else Multiply;
      match ReadFactor(s[3..])
      case NoRead => NoRead
      case Read(f, rest) =>
        if rest != [] && rest[0] == ' ' then
          match ReadChain(rest)
          case NoRead => NoRead
          case Read(c, rest') => Read(Continued(op, f, c), rest')
        else Read(Last(op, f), rest)
  }

  function ReadFactor(s: string): (r: Read<Factor>)
    ensures r.Read? ==> |r.rest| < |s|
    decreases |s|, 0
  {
    if s != [] && s[0] == '(' then
      match ReadExpression(s[1..])
      case NoRead => NoRead
      case Read(e, rest) => if rest != [] && rest[0] == ')' then Read(Parenthesized(e), rest[1..]) else NoRead
    else
      match ReadNumber(s)
      case NoRead => NoRead
      case Read(n, rest) => Read(Number(n), rest)
  }

  /** What may follow a factor's text: nothing, the next operation, or a closing parenthesis. */
  predicate FollowsFactor(rest: string)
  {
    rest == [] || rest[0] == ' ' || rest[0] == ')'
  }

  /** What may follow an expression's text: nothing or a closing parenthesis. */
  predicate FollowsExpression(rest: string)
  {
    rest == [] || rest[0] == ')'
  }

  lemma {:induction false} DigitRunOfDigits(d: string, rest: string)
    requires |d| >= 1 && AllDigits(d) && (rest == [] || !IsDigit(rest[0]))
    ensures DigitRun(d + rest) == |d|
    decreases |d|
  {
    assert (d + rest)[1..] == d[1..] + rest;
    if |d| > 1 {
      DigitRunOfDigits(d[1..], rest);
    }
  }

  lemma ReadNumberDescribe(n: int, rest: string)
    requires FollowsFactor(rest)
    ensures ReadNumber(IntToString(n) + rest) == Read(n, rest)
  {
    var s := IntToString(n) + rest;
    IntToStringRoundTrip(n);
    if n < 0 {
      var d := NatToString(-n);
      assert s == "-" + d + rest;
      assert s[1..] == d + rest;
      DigitRunOfDigits(d, rest);
      assert s[..1 + |d|] == IntToString(n);
      assert s[1 + |d|..] == rest;
    } else {
      var d := NatToString(n);
      DigitRunOfDigits(d, rest);
      assert s[0..] == s;
      assert s[..|d|] == d;
      assert s[|d|..] == rest;
    }
  }

  /** Reading a description gives back the expression, whatever may follow it. */
  lemma {:induction false} ReadDescribe(e: Expression, rest: string)
    requires FollowsExpression(rest)
    ensures ReadExpression(Describe(e) + rest) == Read(e, rest)
    decreases e, 1
  {
    match e
    case OpExpr(f, oe) =>
      var c := DescribeChain(oe);
      assert c[0] == ' ';
      assert Describe(e) + rest == DescribeFactor(f) + (c + rest);
      ReadFactorDescribe(f, c + rest);
      ReadChainDescribe(oe, rest);
    case FactorExpr(f) =>
      ReadFactorDescribe(f, rest);
  }

  lemma {:induction false} ReadChainDescribe(oe: OpExpression, rest: string)
    requires FollowsExpression(rest)
    ensures ReadChain(DescribeChain(oe) + rest) == Read(oe, rest)
    decreases oe, 1
  {
    var head := " " + OperatorText(oe.op) + " ";
    var after := match oe
      case Last(_, _) => rest
      case Continued(_, _, c) => DescribeChain(c) + rest;
    assert DescribeChain(oe) + rest == head + (DescribeFactor(oe.f) + after);
    ReadChainHead(oe.op, DescribeFactor(oe.f) + after);
    ReadFactorDescribe(oe.f, after);
    if oe.Continued? {
      assert DescribeChain(oe.continuation)[0] == ' ';
      ReadChainDescribe(oe.continuation, rest);
    }
  }

  /** The reader takes " op " and reads a factor from what follows it. */
  lemma ReadChainHead(op: Operator, tail: string)
    ensures var s := " " + OperatorText(op) + " " + tail;
      ReadChain(s) == match ReadFactor(tail)
        case NoRead => NoRead
        case Read(f, rest) =>
          if rest != [] && rest[0] == ' ' then
            match ReadChain(rest)
            case NoRead => NoRead
            case Read(c, rest') => Read(Continued(op, f, c), rest')
          else Read(Last(op, f), rest)
  {
    var s := " " + OperatorText(op) + " " + tail;
    assert s[3..] == tail;
  }

  lemma {:induction false} ReadFactorDescribe(f: Factor, rest: string)
    requires FollowsFactor(rest)
    ensures ReadFactor(DescribeFactor(f) + rest) == Read(f, rest)
    decreases f, 0
  {
    var s := DescribeFactor(f) + rest;
    match f
    case Number(n) =>
      ReadNumberDescribe(n, rest);
    case Parenthesized(e) =>
      assert s[1..] == Describe(e) + (")" + rest);
      ReadDescribe(e, ")" + rest);
      assert (")" + rest)[1..] == rest;
  }

  /** Different expressions have different descriptions. */
  lemma DescribeInjective(e1: Expression, e2: Expression)
    requires Describe(e1) == Describe(e2)
    ensures e1 == e2
  {
    ReadDescribe(e1, []);
    ReadDescribe(e2, []);
    assert Describe(e1) + [] == Describe(e1);
    assert Describe(e2) + [] == Describe(e2);
  }
}
