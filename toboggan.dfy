/**
 * The toboggan run: from the top-left corner, step by a fixed slope down a course
 * whose pattern repeats to the right, counting the cells that are not open ('.').
 */
module Toboggan {
  import opened IntLocs
  import opened CharGrids
  import opened ModuloUtils

  /** Every row of the course is `cols` wide, and `cols` is positive. */
  predicate Rectangular(course: CharGrid)
  {
    course.rows == |course.grid| && course.cols > 0 &&
    forall y :: 0 <= y < |course.grid| ==> |course.grid[y]| == course.cols
  }

  /** `colWrapped`: the column reduced by Swift's `%`, the row unchanged. */
  function ColWrapped(loc: IntLoc, cols: int): (r: IntLoc)
    requires cols != 0
    ensures r.y == loc.y
    ensures loc.x >= 0 && cols > 0 ==> 0 <= r.x < cols && r.x == loc.x % cols
  {
    IntLoc(Rem(loc.x, cols), loc.y)
  }

  /** The course repeats every `cols` columns to the right. */
  lemma ColWrappedPeriodic(loc: IntLoc, cols: int)
    requires loc.x >= 0 && cols > 0
    ensures ColWrapped(Plus(loc, IntLoc(cols, 0)), cols) == ColWrapped(loc, cols)
  {
    var q := loc.x / cols;
    MulAdd(q, 1, cols);
    ModUnique(loc.x + cols, cols, q + 1, loc.x % cols);
  }

  /** Whether the `k`-th visited cell holds something other than '.'. */
  function Hit(course: CharGrid, slope: IntLoc, k: nat): bool
    requires Rectangular(course) && slope.x >= 0 && slope.y > 0
    requires k * slope.y < course.rows
  {
    course.AtLoc(ColWrapped(IntLoc(k * slope.x, k * slope.y), course.cols)) != '.'
  }

  /** The trees met from the `k`-th visit to the bottom of the course. */
  function TreesFrom(course: CharGrid, slope: IntLoc, k: nat): nat
    requires Rectangular(course) && slope.x >= 0 && slope.y > 0
    decreases course.rows - k * slope.y
  {
    if k * slope.y >= course.rows then 0
    else (if Hit(course, slope, k) then 1 else 0) + TreesFrom(course, slope, k + 1)
  }

  /** The number of visits still to come from the `k`-th. */
  function VisitsFrom(rows: int, slopeY: int, k: nat): nat
    requires slopeY > 0
    decreases rows - k * slopeY
  {
    if k * slopeY >= rows then 0 else 1 + VisitsFrom(rows, slopeY, k + 1)
  }

  /**
   * `toboganRun`: visit (0, 0), then keep adding the slope while the row is on the course.
   * A slope that does not go down never leaves the course, so the walk needs `slope.y > 0`;
   * a leftward slope would make Swift's `%` negative and index outside a row.
   */
  method ToboganRun(course: CharGrid, slope: IntLoc) returns (treeCount: int)
    requires Rectangular(course) && slope.x >= 0 && slope.y > 0
    ensures treeCount == TreesFrom(course, slope, 0)
  {
    treeCount := 0;
    var loc := IntLoc(0, 0);
    ghost var k: nat := 0;
    while loc.y < course.rows
      invariant loc == IntLoc(k * slope.x, k * slope.y)
      invariant treeCount + TreesFrom(course, slope, k) == TreesFrom(course, slope, 0)
      decreases course.rows - loc.y
    {
      if course.AtLoc(ColWrapped(loc, course.cols)) != '.' {
        treeCount := treeCount + 1;
      }
      loc := AddAssign(loc, slope);
      k := k + 1;
    }
  }

  /** Each visit meets at most one tree, and the walk visits at most one cell per row. */
  lemma {:induction false} TreesFromBound(course: CharGrid, slope: IntLoc, k: nat)
    requires Rectangular(course) && slope.x >= 0 && slope.y > 0
    ensures TreesFrom(course, slope, k) <= VisitsFrom(course.rows, slope.y, k)
    ensures VisitsFrom(course.rows, slope.y, k) <= if k * slope.y >= course.rows then 0 else course.rows - k * slope.y
    decreases course.rows - k * slope.y
  {
    if k * slope.y < course.rows {
      TreesFromBound(course, slope, k + 1);
    }
  }

  /** `toboganRuns`: one count per slope, in slope order. */
  function ToboganRuns(course: CharGrid, slopes: seq<IntLoc>): (counts: seq<nat>)
    requires Rectangular(course)
    requires forall i :: 0 <= i < |slopes| ==> slopes[i].x >= 0 && slopes[i].y > 0
    ensures |counts| == |slopes|
    ensures forall i :: 0 <= i < |slopes| ==> counts[i] == TreesFrom(course, slopes[i], 0) <= course.rows
  {
    if slopes == [] then []
    else
      TreesFromBound(course, slopes[0], 0);
      [TreesFrom(course, slopes[0], 0)] + ToboganRuns(course, slopes[1..])
  }
}
