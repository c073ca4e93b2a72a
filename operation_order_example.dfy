/** The five example expressions of day 18 and their values under both evaluators. */
module OperationOrderExample {
  import opened OperationOrder

  const E0: Expression := OpExpr(Number(1), Continued(Add, Number(2), Continued(Multiply, Number(3), Continued(Add, Number(4), Continued(Multiply, Number(5), Last(Add, Number(6)))))))

  const E1: Expression := OpExpr(Number(2), Continued(Multiply, Number(3), Last(Add, Parenthesized(OpExpr(Number(4), Last(Multiply, Number(5)))))))

  const E2: Expression := OpExpr(Number(5), Last(Add, Parenthesized(OpExpr(Number(8), Continued(Multiply, Number(3), Continued(Add, Number(9), Continued(Add, Number(3), Continued(Multiply, Number(4), Last(Multiply, Number(3))))))))))

  const E3: Expression := OpExpr(Number(5), Continued(Multiply, Number(9), Last(Multiply, Parenthesized(OpExpr(Number(7), Continued(Multiply, Number(3), Continued(Multiply, Number(3), Continued(Add, Number(9), Continued(Multiply, Number(3), Last(Add, Parenthesized(OpExpr(Number(8), Continued(Add, Number(6), Last(Multiply, Number(4)))))))))))))))

  const E4: Expression := OpExpr(Parenthesized(OpExpr(Parenthesized(OpExpr(Number(2), Continued(Add, Number(4), Last(Multiply, Number(9))))), Continued(Multiply, Parenthesized(OpExpr(Number(6), Continued(Add, Number(9), Continued(Multiply, Number(8), Last(Add, Number(6)))))), Last(Add, Number(6))))), Continued(Add, Number(2), Continued(Add, Number(4), Last(Multiply, Number(2)))))

  lemma Example0()
    ensures Evaluate(E0) == 71
    ensures Evaluate2(E0) == 231
  {
  }

  lemma Example1()
    ensures Evaluate(E1) == 26
    ensures Evaluate2(E1) == 46
  {
  }

  lemma Example2()
    ensures Evaluate(E2) == 437
    ensures Evaluate2(E2) == 1445
  {
  }

  lemma Example3()
    ensures Evaluate(E3) == 12240
    ensures Evaluate2(E3) == 669060
  {
  }

  lemma Example4()
    ensures Evaluate(E4) == 13632
    ensures Evaluate2(E4) == 23340
  {
  }

  /** The descriptions of the first two examples are their input lines. */
  lemma ExampleDescriptions()
    ensures Describe(E0) == "1 + 2 * 3 + 4 * 5 + 6"
    ensures Describe(E1) == "2 * 3 + (4 * 5)"
  {
  }
}
