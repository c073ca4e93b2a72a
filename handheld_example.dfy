/** The example program of day 8: it loops with accumulator 5, and patching line 7 fixes it with 8. */
module HandheldExample {
  import opened Wrappers
  import opened Handheld

  const Example: seq<Operation> := [
    Nop(0), Acc(1), Jmp(4), Acc(3), Jmp(-3), Acc(-99), Acc(1), Jmp(-4), Acc(6)
  ]

  /** One pass of the loop, from `m` to `m'`, leaves the final state unchanged. */
  lemma StepTo(p: seq<Operation>, m: Machine, m': Machine)
    requires m.executed <= LineNumbers(|p|) && Running(p, m) && Step(p, m) == m'
    ensures m'.executed <= LineNumbers(|p|) && Run(p, m) == Run(p, m')
  {
  }

  /** The loop does not run from `m`, which is therefore the final state. */
  lemma Stops(p: seq<Operation>, m: Machine)
    requires m.executed <= LineNumbers(|p|) && !Running(p, m)
    ensures Run(p, m) == m
  {
  }

  /** Lines 0, 1, 2, 6, 7, 3, 4 run, and the jump back to line 1 revisits it. */
  lemma ExampleLoops()
    ensures Outcome(Example) == RunResult(true, 5)
  {
    LoopsOn(Example);
  }

  lemma LoopsOn(p: seq<Operation>)
    requires p == Example
    ensures Outcome(p) == RunResult(true, 5)
  {
    StepTo(p, Start, Machine(1, 0, {0}));
    StepTo(p, Machine(1, 0, {0}), Machine(2, 1, {0, 1}));
    StepTo(p, Machine(2, 1, {0, 1}), Machine(6, 1, {0, 1, 2}));
    StepTo(p, Machine(6, 1, {0, 1, 2}), Machine(7, 2, {0, 1, 2, 6}));
    StepTo(p, Machine(7, 2, {0, 1, 2, 6}), Machine(3, 2, {0, 1, 2, 6, 7}));
    StepTo(p, Machine(3, 2, {0, 1, 2, 6, 7}), Machine(4, 5, {0, 1, 2, 3, 6, 7}));
    StepTo(p, Machine(4, 5, {0, 1, 2, 3, 6, 7}), Machine(1, 5, {0, 1, 2, 3, 4, 6, 7}));
    Stops(p, Machine(1, 5, {0, 1, 2, 3, 4, 6, 7}));
  }

  /** With line 2 as `nop`, lines 0 to 4 run and the jump from line 4 revisits line 1. */
  lemma Patch2Loops()
    ensures Outcome(Patched(Example, 2)).looped
  {
    Patch2On(Patched(Example, 2));
  }

  lemma Patch2On(p: seq<Operation>)
    requires p == Patched(Example, 2)
    ensures Outcome(p).looped
  {
    assert p == [Nop(0), Acc(1), Nop(0), Acc(3), Jmp(-3), Acc(-99), Acc(1), Jmp(-4), Acc(6)];
    StepTo(p, Start, Machine(1, 0, {0}));
    StepTo(p, Machine(1, 0, {0}), Machine(2, 1, {0, 1}));
    StepTo(p, Machine(2, 1, {0, 1}), Machine(3, 1, {0, 1, 2}));
    StepTo(p, Machine(3, 1, {0, 1, 2}), Machine(4, 4, {0, 1, 2, 3}));
    StepTo(p, Machine(4, 4, {0, 1, 2, 3}), Machine(1, 4, {0, 1, 2, 3, 4}));
    Stops(p, Machine(1, 4, {0, 1, 2, 3, 4}));
  }

  /** With line 4 as `nop`, the run reaches line 6 a second time. */
  lemma Patch4Loops()
    ensures Outcome(Patched(Example, 4)).looped
  {
    Patch4On(Patched(Example, 4));
  }

  lemma Patch4On(p: seq<Operation>)
    requires p == Patched(Example, 4)
    ensures Outcome(p).looped
  {
    assert p == [Nop(0), Acc(1), Jmp(4), Acc(3), Nop(0), Acc(-99), Acc(1), Jmp(-4), Acc(6)];
    StepTo(p, Start, Machine(1, 0, {0}));
    StepTo(p, Machine(1, 0, {0}), Machine(2, 1, {0, 1}));
    StepTo(p, Machine(2, 1, {0, 1}), Machine(6, 1, {0, 1, 2}));
    StepTo(p, Machine(6, 1, {0, 1, 2}), Machine(7, 2, {0, 1, 2, 6}));
    StepTo(p, Machine(7, 2, {0, 1, 2, 6}), Machine(3, 2, {0, 1, 2, 6, 7}));
    StepTo(p, Machine(3, 2, {0, 1, 2, 6, 7}), Machine(4, 5, {0, 1, 2, 3, 6, 7}));
    StepTo(p, Machine(4, 5, {0, 1, 2, 3, 6, 7}), Machine(5, 5, {0, 1, 2, 3, 4, 6, 7}));
    StepTo(p, Machine(5, 5, {0, 1, 2, 3, 4, 6, 7}), Machine(6, -94, {0, 1, 2, 3, 4, 5, 6, 7}));
    Stops(p, Machine(6, -94, {0, 1, 2, 3, 4, 5, 6, 7}));
  }

  /** With line 7 as `nop`, the run falls through to line 9 with accumulator 8. */
  lemma Patch7Finishes()
    ensures Outcome(Patched(Example, 7)) == RunResult(false, 8)
  {
    Patch7On(Patched(Example, 7));
  }

  lemma Patch7On(p: seq<Operation>)
    requires p == Patched(Example, 7)
    ensures Outcome(p) == RunResult(false, 8)
  {
    assert p == [Nop(0), Acc(1), Jmp(4), Acc(3), Jmp(-3), Acc(-99), Acc(1), Nop(0), Acc(6)];
    StepTo(p, Start, Machine(1, 0, {0}));
    StepTo(p, Machine(1, 0, {0}), Machine(2, 1, {0, 1}));
    StepTo(p, Machine(2, 1, {0, 1}), Machine(6, 1, {0, 1, 2}));
    StepTo(p, Machine(6, 1, {0, 1, 2}), Machine(7, 2, {0, 1, 2, 6}));
    StepTo(p, Machine(7, 2, {0, 1, 2, 6}), Machine(8, 2, {0, 1, 2, 6, 7}));
    StepTo(p, Machine(8, 2, {0, 1, 2, 6, 7}), Machine(9, 8, {0, 1, 2, 6, 7, 8}));
    Stops(p, Machine(9, 8, {0, 1, 2, 6, 7, 8}));
  }

  /** `tryJmpFix` on the example answers line 7 with accumulator 8. */
  lemma ExampleFix()
    ensures FirstFix(Example, JmpLineNos(Example)) == Some(Fix(7, 8))
  {
    FixOn(Example);
  }

  lemma FixOn(p: seq<Operation>)
    requires p == Example
    ensures FirstFix(p, JmpLineNos(p)) == Some(Fix(7, 8))
  {
    Patch7On(Patched(p, 7));
    assert FixesAt(p, 7);
    NoFixBefore7(p);
    OnlyFix(p, FirstFix(p, JmpLineNos(p)), 7);
  }

  /** Patching line 2 or line 4 still loops, and lines 0 to 6 hold no other `jmp`. */
  lemma NoFixBefore7(p: seq<Operation>)
    requires p == Example
    ensures forall i :: 0 <= i < 7 ==> !FixesAt(p, i)
  {
    forall i | 0 <= i < 7 ensures !FixesAt(p, i) {
      if i == 2 {
        Patch2On(Patched(p, 2));
      } else if i == 4 {
        Patch4On(Patched(p, 4));
      } else {
        assert !p[i].Jmp?;
      }
    }
  }

  /** A fixing line with no fixing line before it is the answer of `tryJmpFix`. */
  lemma OnlyFix(p: seq<Operation>, r: Option<Fix>, j: nat)
    requires r == FirstFix(p, JmpLineNos(p))
    requires FixesAt(p, j) && forall i :: 0 <= i < j ==> !FixesAt(p, i)
    ensures r == Some(Fix(j, Outcome(Patched(p, j)).acc))
  {
    TryJmpFixSpec(p);
    assert r.Some?;
    assert r.value.fixLine == j;
  }
}
