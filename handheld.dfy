/**
 * The handheld console of day 8: a program of `acc`, `jmp` and `nop` lines run
 * until the program counter leaves the program or revisits a line, and the
 * search for the one `jmp` whose replacement by `nop` lets the program finish.
 */
module Handheld {
  import opened Wrappers
  import opened Seqs
  import opened Collections

  datatype Operation = Acc(arg: int) | Jmp(arg: int) | Nop(arg: int)

  /** The line numbers of a program with `n` lines. */
  function LineNumbers(n: int): (r: set<int>)
    ensures forall i :: i in r <==> 0 <= i < n
  {
    if n <= 0 then {} else LineNumbers(n - 1) + {n - 1}
  }

  /** `jmpLineNos` from line `k` on: the `jmp` lines, in increasing order. */
  function JmpLinesFrom(lines: seq<Operation>, k: nat): (r: seq<nat>)
    requires k <= |lines|
    ensures forall i :: 0 <= i < |r| ==> k <= r[i] < |lines| && lines[r[i]].Jmp?
    ensures forall j :: k <= j < |lines| && lines[j].Jmp? ==> j in r
    ensures forall i, j :: 0 <= i < j < |r| ==> r[i] < r[j]
    decreases |lines| - k
  {
    if k == |lines| then []
    else if lines[k].Jmp? then [k] + JmpLinesFrom(lines, k + 1)
    else JmpLinesFrom(lines, k + 1)
  }

  /** `Program.init`'s `jmpLineNos`: exactly the indices of `jmp` lines, in increasing order. */
  function JmpLineNos(lines: seq<Operation>): (r: seq<nat>)
    ensures forall j :: j in r <==> 0 <= j < |lines| && lines[j].Jmp?
    ensures forall i, j :: 0 <= i < j < |r| ==> r[i] < r[j]
  {
    JmpLinesFrom(lines, 0)
  }

  /** The state `runUntilLoop` keeps: `currentLine`, `accumulator` and `linesExecuted`. */
  datatype Machine = Machine(pc: int, acc: int, executed: set<int>)

  const Start := Machine(0, 0, {})

  /** The loop condition of `runUntilLoop`. */
  predicate Running(lines: seq<Operation>, m: Machine)
  {
    0 <= m.pc < |lines| && m.pc !in m.executed
  }

  /** One pass of the loop body: `acc` adds and advances, `jmp` adds to the counter, `nop` advances. */
  function Step(lines: seq<Operation>, m: Machine): (m': Machine)
    requires Running(lines, m)
    ensures m'.executed == m.executed + {m.pc}
    ensures lines[m.pc].Acc? ==> m'.pc == m.pc + 1 && m'.acc == m.acc + lines[m.pc].arg
    ensures lines[m.pc].Jmp? ==> m'.pc == m.pc + lines[m.pc].arg && m'.acc == m.acc
    ensures lines[m.pc].Nop? ==> m'.pc == m.pc + 1 && m'.acc == m.acc
  {
    var executed := m.executed + {m.pc};
    match lines[m.pc]
    case Acc(arg) => Machine(m.pc + 1, m.acc + arg, executed)
    case Jmp(arg) => Machine(m.pc + arg, m.acc, executed)
    case Nop(_) => Machine(m.pc + 1, m.acc, executed)
  }

  /** The state in which `runUntilLoop`'s loop stops, started from `m`. */
  function Run(lines: seq<Operation>, m: Machine): Machine
    requires m.executed <= LineNumbers(|lines|)
    decreases LineNumbers(|lines|) - m.executed
  {
    if Running(lines, m) then Run(lines, Step(lines, m)) else m
  }

  /** The lines the loop executes from `m`, in order. */
  function Trace(lines: seq<Operation>, m: Machine): (t: seq<int>)
    requires m.executed <= LineNumbers(|lines|)
    ensures forall i :: 0 <= i < |t| ==> 0 <= t[i] < |lines|
    decreases LineNumbers(|lines|) - m.executed
  {
    if Running(lines, m) then [m.pc] + Trace(lines, Step(lines, m)) else []
  }

  /** The sum of the arguments of the `acc` lines among `executed`, counted once per visit. */
  function AccSum(lines: seq<Operation>, visited: seq<int>): int
    requires forall i :: 0 <= i < |visited| ==> 0 <= visited[i] < |lines|
  {
    if visited == [] then 0
    else (if lines[visited[0]].Acc? then lines[visited[0]].arg else 0) + AccSum(lines, visited[1..])
  }

  /** `runUntilLoop`'s result: `looped` unless the counter stopped exactly one past the last line. */
  datatype RunResult = RunResult(looped: bool, acc: int)

  function Outcome(lines: seq<Operation>): RunResult
  {
    var m := Run(lines, Start);
    RunResult(m.pc != |lines|, m.acc)
  }

  /**
   * The run stops with the counter outside the program or on a line it already executed;
   * it executes each line at most once, so it takes at most `lines.count` steps, and the
   * accumulator is the sum of the `acc` arguments it executed.
   */
  lemma RunFacts(lines: seq<Operation>, m: Machine)
    requires m.executed <= LineNumbers(|lines|)
    ensures var f := Run(lines, m);
      var t := Trace(lines, m);
      && !Running(lines, f)
      && f.executed == m.executed + AsSet(t)
      && (forall i :: 0 <= i < |t| ==> 0 <= t[i] < |lines| && t[i] !in m.executed)
      && Distinct(t)
      && f.acc == m.acc + AccSum(lines, t)
  {
    RunCollects(lines, m);
    TraceFresh(lines, m);
  }

  /** The final state: stopped, with the traced lines added to `executed` and their `acc` arguments to `acc`. */
  lemma {:induction false} RunCollects(lines: seq<Operation>, m: Machine)
    requires m.executed <= LineNumbers(|lines|)
    ensures var f := Run(lines, m);
      var t := Trace(lines, m);
      && !Running(lines, f)
      && f.executed == m.executed + AsSet(t)
      && f.acc == m.acc + AccSum(lines, t)
    decreases LineNumbers(|lines|) - m.executed
  {
    var t := Trace(lines, m);
    if Running(lines, m) {
      var m' := Step(lines, m);
      RunCollects(lines, m');
      var t' := Trace(lines, m');
      assert Run(lines, m) == Run(lines, m');
      assert t == [m.pc] + t';
      assert t[1..] == t';
      assert AsSet(t) == {m.pc} + AsSet(t');
      assert AccSum(lines, t) == (if lines[m.pc].Acc? then lines[m.pc].arg else 0) + AccSum(lines, t');
    } else {
      assert t == [] && Run(lines, m) == m;
    }
  }

  /** The traced lines lie in the program, were not executed before, and are all different. */
  lemma {:induction false} TraceFresh(lines: seq<Operation>, m: Machine)
    requires m.executed <= LineNumbers(|lines|)
    ensures var t := Trace(lines, m);
      && (forall i :: 0 <= i < |t| ==> 0 <= t[i] < |lines| && t[i] !in m.executed)
      && Distinct(t)
    decreases LineNumbers(|lines|) - m.executed
  {
    var t := Trace(lines, m);
    if Running(lines, m) {
      var m' := Step(lines, m);
      TraceFresh(lines, m');
      var t' := Trace(lines, m');
      assert t == [m.pc] + t';
      forall i | 0 <= i < |t| ensures 0 <= t[i] < |lines| && t[i] !in m.executed {
        if i > 0 {
          assert t[i] == t'[i - 1];
        }
      }
      forall i, j | 0 <= i < j < |t| ensures t[i] != t[j] {
        assert t[j] == t'[j - 1];
        if i > 0 {
          assert t[i] == t'[i - 1];
        }
      }
    }
  }

  /** Every line is executed at most once, so the number of steps is at most the number of lines. */
  lemma RunSteps(lines: seq<Operation>)
    ensures |Trace(lines, Start)| <= |lines|
  {
    var t := Trace(lines, Start);
    RunFacts(lines, Start);
    AsSetSize(t);
    SubsetSize(AsSet(t), LineNumbers(|lines|));
    LineNumbersSize(|lines|);
  }

  lemma {:induction false} LineNumbersSize(n: nat)
    ensures |LineNumbers(n)| == n
  {
    if n > 0 {
      LineNumbersSize(n - 1);
    }
  }

  lemma {:induction false} SubsetSize<T>(a: set<T>, b: set<T>)
    requires a <= b
    ensures |a| <= |b|
    decreases |b|
  {
    if a != {} {
      var x :| x in a;
      SubsetSize(a - {x}, b - {x});
    }
  }

  /**
   * `runUntilLoop`: `looped` is false exactly when the counter stops at `lines.count`, so a
   * jump below line 0 or beyond the end also reports a loop.
   */
  lemma OutcomeFacts(lines: seq<Operation>)
    ensures var f := Run(lines, Start);
      && (Outcome(lines).looped <==> f.pc != |lines|)
      && (Outcome(lines).looped <==> f.pc < 0 || f.pc > |lines| || f.pc in f.executed)
      && Outcome(lines).acc == AccSum(lines, Trace(lines, Start))
  {
    RunFacts(lines, Start);
  }

  /** `runUntilLoop`, the loop of the source with its three variables. */
  method RunUntilLoop(lines: seq<Operation>) returns (looped: bool, acc: int)
    ensures RunResult(looped, acc) == Outcome(lines)
  {
    var linesExecuted: set<int> := {};
    var currentLine := 0;
    var accumulator := 0;
    while 0 <= currentLine < |lines| && currentLine !in linesExecuted
      invariant linesExecuted <= LineNumbers(|lines|)
      invariant Run(lines, Machine(currentLine, accumulator, linesExecuted)) == Run(lines, Start)
      decreases LineNumbers(|lines|) - linesExecuted
    {
      linesExecuted := linesExecuted + {currentLine};
      match lines[currentLine]
      case Acc(arg) =>
        accumulator := accumulator + arg;
        currentLine := currentLine + 1;
      case Jmp(arg) =>
        currentLine := currentLine + arg;
      case Nop(_) =>
        currentLine := currentLine + 1;
    }
    looped := currentLine != |lines|;
    acc := accumulator;
  }

  /** The program with line `j` replaced by `nop +0`. */
  function Patched(lines: seq<Operation>, j: nat): seq<Operation>
    requires j < |lines|
  {
    lines[j := Nop(0)]
  }

  datatype Fix = Fix(fixLine: nat, acc: int)

  /** The first of `tries` whose patched program finishes, with its accumulator. */
  function FirstFix(lines: seq<Operation>, tries: seq<nat>): Option<Fix>
    requires forall i :: 0 <= i < |tries| ==> tries[i] < |lines|
  {
    if tries == [] then None
    else
      var result := Outcome(Patched(lines, tries[0]));
      if !result.looped then Some(Fix(tries[0], result.acc)) else FirstFix(lines, tries[1..])
  }

  /**
   * `tryJmpFix`: each `jmp` in turn is replaced by `nop +0`, the program run, and the line
   * restored; the first patched run that ends at `lines.count` gives the answer.
   */
  method TryJmpFix(lines: seq<Operation>) returns (r: Option<Fix>)
    ensures r == FirstFix(lines, JmpLineNos(lines))
  {
    var tryLines := lines;
    var jmps := JmpLineNos(lines);
    for k := 0 to |jmps|
      invariant tryLines == lines
      invariant FirstFix(lines, jmps) == FirstFix(lines, jmps[k..])
    {
      var tryLine := jmps[k];
      assert jmps[k..][1..] == jmps[k + 1..];
      tryLines := tryLines[tryLine := Nop(0)];
      var looped, acc := RunUntilLoop(tryLines);
      tryLines := tryLines[tryLine := lines[tryLine]];
      if !looped {
        return Some(Fix(tryLine, acc));
      }
    }
    assert jmps[|jmps|..] == [];
    return None;
  }

  /** Patching a `jmp` line finishes the program. */
  ghost predicate FixesAt(lines: seq<Operation>, j: nat)
  {
    j < |lines| && lines[j].Jmp? && !Outcome(Patched(lines, j)).looped
  }

  /**
   * The fix is the lowest `jmp` line whose patched program finishes, with that run's
   * accumulator; there is none exactly when every patched program loops.
   */
  lemma TryJmpFixSpec(lines: seq<Operation>)
    ensures var r := FirstFix(lines, JmpLineNos(lines));
      && (r.None? <==> forall j :: 0 <= j < |lines| ==> !FixesAt(lines, j))
      && (r.Some? ==>
            && FixesAt(lines, r.value.fixLine)
            && r.value.acc == Outcome(Patched(lines, r.value.fixLine)).acc
            && forall j :: 0 <= j < r.value.fixLine ==> !FixesAt(lines, j))
  {
    var jmps := JmpLineNos(lines);
    var k := FirstFixIndex(lines, jmps);
    if k < |jmps| {
      assert jmps[k] in jmps;
      assert FixesAt(lines, jmps[k]);
      forall j | 0 <= j < jmps[k] ensures !FixesAt(lines, j) {
        NoEarlierFix(lines, jmps, k, j);
      }
    } else {
      forall j | 0 <= j < |lines| ensures !FixesAt(lines, j) {
        NoEarlierFix(lines, jmps, k, j);
      }
    }
  }

  lemma NoEarlierFix(lines: seq<Operation>, jmps: seq<nat>, k: nat, j: nat)
    requires jmps == JmpLineNos(lines) && k <= |jmps|
    requires forall i :: 0 <= i < k ==> Outcome(Patched(lines, jmps[i])).looped
    requires k < |jmps| ==> j < jmps[k]
    ensures !FixesAt(lines, j)
  {
    if j < |lines| && lines[j].Jmp? {
      var i :| 0 <= i < |jmps| && jmps[i] == j;
      if k < |jmps| {
        assert jmps[k] > jmps[i];
        assert i < k;
      }
      assert Outcome(Patched(lines, jmps[i])).looped;
    }
  }

  /** The position in `tries` of the first patched program that finishes, or `|tries|`. */
  lemma {:induction false} FirstFixIndex(lines: seq<Operation>, tries: seq<nat>) returns (k: nat)
    requires forall i :: 0 <= i < |tries| ==> tries[i] < |lines|
    ensures k <= |tries|
    ensures forall i :: 0 <= i < k ==> Outcome(Patched(lines, tries[i])).looped
    ensures k == |tries| ==> FirstFix(lines, tries) == None
    ensures k < |tries| ==>
      && !Outcome(Patched(lines, tries[k])).looped
      && FirstFix(lines, tries) == Some(Fix(tries[k], Outcome(Patched(lines, tries[k])).acc))
  {
    if tries == [] {
      k := 0;
    } else if !Outcome(Patched(lines, tries[0])).looped {
      k := 0;
    } else {
      var k' := FirstFixIndex(lines, tries[1..]);
      k := k' + 1;
      forall i | 0 <= i < k ensures Outcome(Patched(lines, tries[i])).looped {
        if i > 0 {
          assert tries[i] == tries[1..][i - 1];
        }
      }
    }
  }
}
