/** `CharGrid`: a grid of characters read from lines of text, indexed by column and row. */
module CharGrids {
  import opened IntLocs

  /** Swift's `split(separator: "\n")` from `splitLines`: the non-empty runs between newlines. */
  function SplitLines(s: string): seq<string>
  {
    Pieces(s, [])
  }

  /** The pieces of `s` when `cur` is the run already read before it. */
  function Pieces(s: string, cur: string): seq<string>
    decreases |s|
  {
    if s == [] then (if cur == [] then [] else [cur])
    else if s[0] == '\n' then (if cur == [] then [] else [cur]) + Pieces(s[1..], [])
    else Pieces(s[1..], cur + [s[0]])
  }

  function Concat(lines: seq<string>): string
  {
    if lines == [] then [] else lines[0] + Concat(lines[1..])
  }

  function WithoutNewlines(s: string): string
  {
    if s == [] then [] else (if s[0] == '\n' then [] else [s[0]]) + WithoutNewlines(s[1..])
  }

  predicate IsLine(line: string)
  {
    line != [] && '\n' !in line
  }

  /** The lines are non-empty, hold no newline, and together hold every other character of the text in order. */
  lemma PiecesSpec(s: string, cur: string)
    requires '\n' !in cur
    ensures forall l :: l in Pieces(s, cur) ==> IsLine(l)
    ensures Concat(Pieces(s, cur)) == cur + WithoutNewlines(s)
  {
    PiecesAreLines(s, cur);
    PiecesConcat(s, cur);
  }

  lemma {:induction false} PiecesAreLines(s: string, cur: string)
    requires '\n' !in cur
    ensures forall l :: l in Pieces(s, cur) ==> IsLine(l)
    decreases |s|
  {
    if s == [] {
    } else if s[0] == '\n' {
      PiecesAreLines(s[1..], []);
      var head: seq<string> := if cur == [] then [] else [cur];
      assert Pieces(s, cur) == head + Pieces(s[1..], []);
    } else {
      PiecesAreLines(s[1..], cur + [s[0]]);
    }
  }

  lemma {:induction false} PiecesConcat(s: string, cur: string)
    ensures Concat(Pieces(s, cur)) == cur + WithoutNewlines(s)
    decreases |s|
  {
    if s == [] {
      assert Concat([cur]) == cur + Concat([]);
    } else if s[0] == '\n' {
      var head: seq<string> := if cur == [] then [] else [cur];
      PiecesConcat(s[1..], []);
      ConcatAppend(head, Pieces(s[1..], []));
      assert Concat([cur]) == cur + Concat([]);
    } else {
      PiecesConcat(s[1..], cur + [s[0]]);
    }
  }

  lemma {:induction false} ConcatAppend(a: seq<string>, b: seq<string>)
    ensures Concat(a + b) == Concat(a) + Concat(b)
  {
    if a == [] {
      assert a + b == b;
    } else {
      assert (a + b)[0] == a[0] && (a + b)[1..] == a[1..] + b;
      ConcatAppend(a[1..], b);
    }
  }

  lemma SplitLinesSpec(s: string)
    ensures forall l :: l in SplitLines(s) ==> IsLine(l)
    ensures Concat(SplitLines(s)) == WithoutNewlines(s)
  {
    PiecesSpec(s, []);
  }

  datatype CharGrid = CharGrid(rows: int, cols: int, grid: seq<seq<char>>) {
    /** `self[x, y]`: column `x` of row `y`. */
    function At(x: int, y: int): (c: char)
      requires 0 <= y < |grid| && 0 <= x < |grid[y]|
      ensures c in grid[y]
    {
      grid[y][x]
    }

    /** `self[loc]`: the location's `x` is the column and its `y` the row. */
    function AtLoc(loc: IntLoc): (c: char)
      requires 0 <= loc.y < |grid| && 0 <= loc.x < |grid[loc.y]|
      ensures c == At(loc.x, loc.y)
    {
      At(loc.x, loc.y)
    }
  }

  /** `init(substrings:)`: `rows` counts the lines, `cols` is the first line's length; `first!` traps on no lines. */
  function FromLines(lines: seq<string>): (g: CharGrid)
    requires |lines| > 0
    ensures g.rows == |lines| && g.cols == |lines[0]| && g.grid == lines
  {
    CharGrid(|lines|, |lines[0]|, lines)
  }

  /** `init(string:)`: the grid of the string's non-empty lines; traps when there is none. */
  function FromString(s: string): (g: CharGrid)
    requires |SplitLines(s)| > 0
  {
    FromLines(SplitLines(s))
  }

  /** A grid read from text has one row per non-empty line, no newline in any cell, and all the text's other characters. */
  lemma FromStringSpec(s: string)
    requires |SplitLines(s)| > 0
    ensures var g := FromString(s);
      g.rows == |g.grid| >= 1 && g.cols >= 1 &&
      (forall y, x :: 0 <= y < g.rows && 0 <= x < |g.grid[y]| ==> g.At(x, y) != '\n') &&
      Concat(g.grid) == WithoutNewlines(s)
  {
    SplitLinesSpec(s);
    var g := FromString(s);
    assert g.grid[0] in SplitLines(s);
    forall y, x | 0 <= y < g.rows && 0 <= x < |g.grid[y]| ensures g.At(x, y) != '\n' {
      assert g.grid[y] in SplitLines(s);
    }
  }

  lemma GridExample()
    ensures FromLines([".#.", "..#"]).AtLoc(IntLoc(2, 1)) == '#'
    ensures FromLines([".#.", "..#"]).At(0, 1) == '.'
  {
  }
}
