/**
 * The elves' memory game: the starting numbers are spoken first; after them each turn speaks 0
 * if the last number spoken was new, and otherwise how many turns apart its last two speakings were.
 */
module MemoryGame {
  import opened Wrappers

  /** The latest index of `v` in `s`, if any. */
  function LastIndex(s: seq<int>, v: int): (r: Option<nat>)
    ensures r.Some? <==> v in s
    ensures r.Some? ==> r.value < |s| && s[r.value] == v && forall j :: r.value < j < |s| ==> s[j] != v
  {
    if s == [] then None
    else if s[|s| - 1] == v then Some(|s| - 1)
    else LastIndex(s[..|s| - 1], v)
  }

  lemma LastIndexSnoc(s: seq<int>, x: int, v: int)
    ensures LastIndex(s + [x], v) == if x == v then Some(|s|) else LastIndex(s, v)
  {
    assert (s + [x])[..|s|] == s;
  }

  /**
   * The number spoken after the history `spoken` (one entry per turn so far): the next starting
   * number while any is left, then 0 for a new number, else the gap between its last two turns.
   */
  function NextSpoken(start: seq<int>, spoken: seq<int>): (r: int)
    ensures |spoken| < |start| ==> r == start[|spoken|]
    ensures |spoken| >= |start| && r != 0 ==>
      0 < r < |spoken| && spoken[|spoken| - 1 - r] == spoken[|spoken| - 1] &&
      forall j :: |spoken| - 1 - r < j < |spoken| - 1 ==> spoken[j] != spoken[|spoken| - 1]
    ensures |spoken| >= |start| && spoken != [] && r == 0 ==> spoken[|spoken| - 1] !in spoken[..|spoken| - 1]
  {
    if |spoken| < |start| then start[|spoken|]
    else if spoken == [] then 0
    else
      match LastIndex(spoken[..|spoken| - 1], spoken[|spoken| - 1])
      case None => 0
      case Some(j) => |spoken| - 1 - j
  }

  /** The first `n` numbers of the game. */
  function Spoken(start: seq<int>, n: nat): (s: seq<int>)
    ensures |s| == n
  {
    if n == 0 then [] else var h := Spoken(start, n - 1); h + [NextSpoken(start, h)]
  }

  /** Every prefix of a longer game is the shorter game: the game is one sequence. */
  lemma {:induction false} SpokenPrefix(start: seq<int>, m: nat, n: nat)
    requires m <= n
    ensures Spoken(start, n)[..m] == Spoken(start, m)
    decreases n
  {
    if m < n {
      SpokenPrefix(start, m, n - 1);
      assert Spoken(start, n)[..n - 1] == Spoken(start, n - 1);
      assert Spoken(start, n)[..m] == Spoken(start, n)[..n - 1][..m];
    }
  }

  /** The first turns speak the starting numbers, in order. */
  lemma StartingNumbersFirst(start: seq<int>, n: nat, k: nat)
    requires k < n && k < |start|
    ensures Spoken(start, n)[k] == start[k]
  {
    SpokenPrefix(start, k + 1, n);
    assert Spoken(start, n)[k] == Spoken(start, n)[..k + 1][k];
  }

  datatype Memory = Memory(startingNumbers: seq<int>, turn: int, previouslySpokenTurn: map<int, int>, lastSpoken: Option<int>)

  /** `Memory(startingNumbers:)`: no turn taken, nothing recorded. */
  function NewMemory(startingNumbers: seq<int>): (m: Memory)
    ensures Records(m, [])
  {
    Memory(startingNumbers, 0, map[], None)
  }

  /**
   * The state after the turns `spoken`: `turn` counts them, `lastSpoken` is the latest, and
   * `previouslySpokenTurn` gives, for every number spoken before the latest turn, the 1-based
   * turn of its latest speaking before it.
   */
  ghost predicate Records(m: Memory, spoken: seq<int>)
  {
    m.turn == |spoken| &&
    (if spoken == [] then m.lastSpoken.None? && m.previouslySpokenTurn == map[]
     else
       m.lastSpoken == Some(spoken[|spoken| - 1]) &&
       var before := spoken[..|spoken| - 1];
       (forall v :: v in m.previouslySpokenTurn <==> v in before) &&
       (forall v :: v in m.previouslySpokenTurn ==> LastIndex(before, v).Some? && m.previouslySpokenTurn[v] == LastIndex(before, v).value + 1))
  }

  /** `speak(n)`: remember `n` as the last number spoken, and return it. */
  method Speak(m: Memory, n: int) returns (m': Memory, said: int)
    ensures said == n && m' == m.(lastSpoken := Some(n))
  {
    m' := m.(lastSpoken := Some(n));
    said := n;
  }

  /**
   * `takeTurn`: look up the last number's previous turn, then record the last number's turn,
   * advance the turn counter and speak the next number of the game.
   */
  method TakeTurn(m: Memory, ghost spoken: seq<int>) returns (m': Memory, said: int)
    requires Records(m, spoken)
    ensures said == NextSpoken(m.startingNumbers, spoken)
    ensures m'.startingNumbers == m.startingNumbers && m'.turn == m.turn + 1 && m'.lastSpoken == Some(said)
    ensures Records(m', spoken + [said])
  {
    var lastSpokenPreviously: Option<int> := None;
    if m.lastSpoken.Some? && m.lastSpoken.value in m.previouslySpokenTurn {
      lastSpokenPreviously := Some(m.previouslySpokenTurn[m.lastSpoken.value]);
    }
    var mem := m;
    if m.lastSpoken.Some? {
      mem := mem.(previouslySpokenTurn := mem.previouslySpokenTurn[m.lastSpoken.value := mem.turn]);
    }
    mem := mem.(turn := mem.turn + 1);
    if !(mem.turn > |mem.startingNumbers|) {
      m', said := Speak(mem, mem.startingNumbers[mem.turn - 1]);
    } else if lastSpokenPreviously.None? {
      m', said := Speak(mem, 0);
    } else {
      var difference := mem.turn - 1 - lastSpokenPreviously.value;
      m', said := Speak(mem, difference);
    }
    RecordsStep(m, spoken, m', said);
  }

  lemma RecordsStep(m: Memory, spoken: seq<int>, m': Memory, said: int)
    requires Records(m, spoken)
    requires m'.turn == m.turn + 1 && m'.lastSpoken == Some(said)
    requires m.lastSpoken.None? ==> m'.previouslySpokenTurn == map[]
    requires m.lastSpoken.Some? ==> m'.previouslySpokenTurn == m.previouslySpokenTurn[m.lastSpoken.value := m.turn]
    ensures Records(m', spoken + [said])
  {
    var h := spoken + [said];
    assert h[..|h| - 1] == spoken;
    if spoken != [] {
      forall v ensures LastIndex(spoken, v) == LastIndex(spoken[..|spoken| - 1], v) || v == spoken[|spoken| - 1] {
        LastIndexSnoc(spoken[..|spoken| - 1], spoken[|spoken| - 1], v);
        assert spoken[..|spoken| - 1] + [spoken[|spoken| - 1]] == spoken;
      }
      LastIndexSnoc(spoken[..|spoken| - 1], spoken[|spoken| - 1], spoken[|spoken| - 1]);
      assert spoken[..|spoken| - 1] + [spoken[|spoken| - 1]] == spoken;
    }
  }

  /** The test driver: a fresh memory, then `turns` calls of `takeTurn`; the last number spoken. */
  method Play(startingNumbers: seq<int>, turns: nat) returns (last: Option<int>)
    ensures turns == 0 ==> last.None?
    ensures turns > 0 ==> last == Some(Spoken(startingNumbers, turns)[turns - 1])
  {
    var memory := NewMemory(startingNumbers);
    for t := 0 to turns
      invariant memory.startingNumbers == startingNumbers
      invariant Records(memory, Spoken(startingNumbers, t))
    {
      var s;
      memory, s := TakeTurn(memory, Spoken(startingNumbers, t));
    }
    last := memory.lastSpoken;
  }
}
