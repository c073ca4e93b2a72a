/** The puzzle's example course: 7 trees on slope (3, 1), and a product of 336 over five slopes. */
module TobogganExample {
  import opened IntLocs
  import opened CharGrids
  import opened Toboggan

  const Course := FromLines([
    "..##.......",
    "#...#...#..",
    ".#....#..#.",
    "..#.#...#.#",
    ".#...##..#.",
    "..#.##.....",
    ".#.#.#....#",
    ".#........#",
    "#.##...#...",
    "#...##....#",
    ".#..#...#.#"])

  const Slopes := [IntLoc(1, 1), IntLoc(3, 1), IntLoc(5, 1), IntLoc(7, 1), IntLoc(1, 2)]

  lemma CourseRectangular()
    ensures Rectangular(Course) && Course.rows == 11
  {
  }

  lemma HitA0()
    ensures Rectangular(Course) && !Hit(Course, IntLoc(1, 1), 0)
  {
    CourseRectangular();
    assert Course.grid[0] == "..##.......";
  }

  lemma HitA1()
    ensures Rectangular(Course) && !Hit(Course, IntLoc(1, 1), 1)
  {
    CourseRectangular();
    assert Course.grid[1] == "#...#...#..";
  }

  lemma HitA2()
    ensures Rectangular(Course) && !Hit(Course, IntLoc(1, 1), 2)
  {
    CourseRectangular();
    assert Course.grid[2] == ".#....#..#.";
  }

  lemma HitA3()
    ensures Rectangular(Course) && !Hit(Course, IntLoc(1, 1), 3)
  {
    CourseRectangular();
    assert Course.grid[3] == "..#.#...#.#";
  }

  lemma HitA4()
    ensures Rectangular(Course) && !Hit(Course, IntLoc(1, 1), 4)
  {
    CourseRectangular();
    assert Course.grid[4] == ".#...##..#.";
  }

  lemma HitA5()
    ensures Rectangular(Course) && Hit(Course, IntLoc(1, 1), 5)
  {
    CourseRectangular();
    assert Course.grid[5] == "..#.##.....";
  }

  lemma HitA6()
    ensures Rectangular(Course) && !Hit(Course, IntLoc(1, 1), 6)
  {
    CourseRectangular();
    assert Course.grid[6] == ".#.#.#....#";
  }

  lemma HitA7()
    ensures Rectangular(Course) && !Hit(Course, IntLoc(1, 1), 7)
  {
    CourseRectangular();
    assert Course.grid[7] == ".#........#";
  }

  lemma HitA8()
    ensures Rectangular(Course) && !Hit(Course, IntLoc(1, 1), 8)
  {
    CourseRectangular();
    assert Course.grid[8] == "#.##...#...";
  }

  lemma HitA9()
    ensures Rectangular(Course) && !Hit(Course, IntLoc(1, 1), 9)
  {
    CourseRectangular();
    assert Course.grid[9] == "#...##....#";
  }

  lemma HitA10()
    ensures Rectangular(Course) && Hit(Course, IntLoc(1, 1), 10)
  {
    CourseRectangular();
    assert Course.grid[10] == ".#..#...#.#";
  }

  lemma TreesA()
    ensures Rectangular(Course)
    ensures TreesFrom(Course, IntLoc(1, 1), 0) == 2
  {
    CourseRectangular();
    HitA0();
    HitA1();
    HitA2();
    HitA3();
    HitA4();
    HitA5();
    HitA6();
    HitA7();
    HitA8();
    HitA9();
    HitA10();
    assert TreesFrom(Course, IntLoc(1, 1), 11) == 0;
    assert TreesFrom(Course, IntLoc(1, 1), 10) == 1;
    assert TreesFrom(Course, IntLoc(1, 1), 9) == 1;
    assert TreesFrom(Course, IntLoc(1, 1), 8) == 1;
    assert TreesFrom(Course, IntLoc(1, 1), 7) == 1;
    assert TreesFrom(Course, IntLoc(1, 1), 6) == 1;
    assert TreesFrom(Course, IntLoc(1, 1), 5) == 2;
    assert TreesFrom(Course, IntLoc(1, 1), 4) == 2;
    assert TreesFrom(Course, IntLoc(1, 1), 3) == 2;
    assert TreesFrom(Course, IntLoc(1, 1), 2) == 2;
    assert TreesFrom(Course, IntLoc(1, 1), 1) == 2;
    assert TreesFrom(Course, IntLoc(1, 1), 0) == 2;
  }

  lemma HitB0()
    ensures Rectangular(Course) && !Hit(Course, IntLoc(3, 1), 0)
  {
    CourseRectangular();
    assert Course.grid[0] == "..##.......";
  }

  lemma HitB1()
    ensures Rectangular(Course) && !Hit(Course, IntLoc(3, 1), 1)
  {
    CourseRectangular();
    assert Course.grid[1] == "#...#...#..";
  }

  lemma HitB2()
    ensures Rectangular(Course) && Hit(Course, IntLoc(3, 1), 2)
  {
    CourseRectangular();
    assert Course.grid[2] == ".#....#..#.";
  }

  lemma HitB3()
    ensures Rectangular(Course) && !Hit(Course, IntLoc(3, 1), 3)
  {
    CourseRectangular();
    assert Course.grid[3] == "..#.#...#.#";
  }

  lemma HitB4()
    ensures Rectangular(Course) && Hit(Course, IntLoc(3, 1), 4)
  {
    CourseRectangular();
    assert Course.grid[4] == ".#...##..#.";
  }

  lemma HitB5()
    ensures Rectangular(Course) && Hit(Course, IntLoc(3, 1), 5)
  {
    CourseRectangular();
    assert Course.grid[5] == "..#.##.....";
  }

  lemma HitB6()
    ensures Rectangular(Course) && !Hit(Course, IntLoc(3, 1), 6)
  {
    CourseRectangular();
    assert Course.grid[6] == ".#.#.#....#";
  }

  lemma HitB7()
    ensures Rectangular(Course) && Hit(Course, IntLoc(3, 1), 7)
  {
    CourseRectangular();
    assert Course.grid[7] == ".#........#";
  }

  lemma HitB8()
    ensures Rectangular(Course) && Hit(Course, IntLoc(3, 1), 8)
  {
    CourseRectangular();
    assert Course.grid[8] == "#.##...#...";
  }

  lemma HitB9()
    ensures Rectangular(Course) && Hit(Course, IntLoc(3, 1), 9)
  {
    CourseRectangular();
    assert Course.grid[9] == "#...##....#";
  }

  lemma HitB10()
    ensures Rectangular(Course) && Hit(Course, IntLoc(3, 1), 10)
  {
    CourseRectangular();
    assert Course.grid[10] == ".#..#...#.#";
  }

  lemma TreesB()
    ensures Rectangular(Course)
    ensures TreesFrom(Course, IntLoc(3, 1), 0) == 7
  {
    CourseRectangular();
    HitB0();
    HitB1();
    HitB2();
    HitB3();
    HitB4();
    HitB5();
    HitB6();
    HitB7();
    HitB8();
    HitB9();
    HitB10();
    assert TreesFrom(Course, IntLoc(3, 1), 11) == 0;
    assert TreesFrom(Course, IntLoc(3, 1), 10) == 1;
    assert TreesFrom(Course, IntLoc(3, 1), 9) == 2;
    assert TreesFrom(Course, IntLoc(3, 1), 8) == 3;
    assert TreesFrom(Course, IntLoc(3, 1), 7) == 4;
    assert TreesFrom(Course, IntLoc(3, 1), 6) == 4;
    assert TreesFrom(Course, IntLoc(3, 1), 5) == 5;
    assert TreesFrom(Course, IntLoc(3, 1), 4) == 6;
    assert TreesFrom(Course, IntLoc(3, 1), 3) == 6;
    assert TreesFrom(Course, IntLoc(3, 1), 2) == 7;
    assert TreesFrom(Course, IntLoc(3, 1), 1) == 7;
    assert TreesFrom(Course, IntLoc(3, 1), 0) == 7;
  }

  lemma HitC0()
    ensures Rectangular(Course) && !Hit(Course, IntLoc(5, 1), 0)
  {
    CourseRectangular();
    assert Course.grid[0] == "..##.......";
  }

  lemma HitC1()
    ensures Rectangular(Course) && !Hit(Course, IntLoc(5, 1), 1)
  {
    CourseRectangular();
    assert Course.grid[1] == "#...#...#..";
  }

  lemma HitC2()
    ensures Rectangular(Course) && !Hit(Course, IntLoc(5, 1), 2)
  {
    CourseRectangular();
    assert Course.grid[2] == ".#....#..#.";
  }

  lemma HitC3()
    ensures Rectangular(Course) && Hit(Course, IntLoc(5, 1), 3)
  {
    CourseRectangular();
    assert Course.grid[3] == "..#.#...#.#";
  }

  lemma HitC4()
    ensures Rectangular(Course) && Hit(Course, IntLoc(5, 1), 4)
  {
    CourseRectangular();
    assert Course.grid[4] == ".#...##..#.";
  }

  lemma HitC5()
    ensures Rectangular(Course) && !Hit(Course, IntLoc(5, 1), 5)
  {
    CourseRectangular();
    assert Course.grid[5] == "..#.##.....";
  }

  lemma HitC6()
    ensures Rectangular(Course) && !Hit(Course, IntLoc(5, 1), 6)
  {
    CourseRectangular();
    assert Course.grid[6] == ".#.#.#....#";
  }

  lemma HitC7()
    ensures Rectangular(Course) && !Hit(Course, IntLoc(5, 1), 7)
  {
    CourseRectangular();
    assert Course.grid[7] == ".#........#";
  }

  lemma HitC8()
    ensures Rectangular(Course) && Hit(Course, IntLoc(5, 1), 8)
  {
    CourseRectangular();
    assert Course.grid[8] == "#.##...#...";
  }

  lemma HitC9()
    ensures Rectangular(Course) && !Hit(Course, IntLoc(5, 1), 9)
  {
    CourseRectangular();
    assert Course.grid[9] == "#...##....#";
  }

  lemma HitC10()
    ensures Rectangular(Course) && !Hit(Course, IntLoc(5, 1), 10)
  {
    CourseRectangular();
    assert Course.grid[10] == ".#..#...#.#";
  }

  lemma TreesC()
    ensures Rectangular(Course)
    ensures TreesFrom(Course, IntLoc(5, 1), 0) == 3
  {
    CourseRectangular();
    HitC0();
    HitC1();
    HitC2();
    HitC3();
    HitC4();
    HitC5();
    HitC6();
    HitC7();
    HitC8();
    HitC9();
    HitC10();
    assert TreesFrom(Course, IntLoc(5, 1), 11) == 0;
    assert TreesFrom(Course, IntLoc(5, 1), 10) == 0;
    assert TreesFrom(Course, IntLoc(5, 1), 9) == 0;
    assert TreesFrom(Course, IntLoc(5, 1), 8) == 1;
    assert TreesFrom(Course, IntLoc(5, 1), 7) == 1;
    assert TreesFrom(Course, IntLoc(5, 1), 6) == 1;
    assert TreesFrom(Course, IntLoc(5, 1), 5) == 1;
    assert TreesFrom(Course, IntLoc(5, 1), 4) == 2;
    assert TreesFrom(Course, IntLoc(5, 1), 3) == 3;
    assert TreesFrom(Course, IntLoc(5, 1), 2) == 3;
    assert TreesFrom(Course, IntLoc(5, 1), 1) == 3;
    assert TreesFrom(Course, IntLoc(5, 1), 0) == 3;
  }

  lemma HitD0()
    ensures Rectangular(Course) && !Hit(Course, IntLoc(7, 1), 0)
  {
    CourseRectangular();
    assert Course.grid[0] == "..##.......";
  }

  lemma HitD1()
    ensures Rectangular(Course) && !Hit(Course, IntLoc(7, 1), 1)
  {
    CourseRectangular();
    assert Course.grid[1] == "#...#...#..";
  }

  lemma HitD2()
    ensures Rectangular(Course) && !Hit(Course, IntLoc(7, 1), 2)
  {
    CourseRectangular();
    assert Course.grid[2] == ".#....#..#.";
  }

  lemma HitD3()
    ensures Rectangular(Course) && Hit(Course, IntLoc(7, 1), 3)
  {
    CourseRectangular();
    assert Course.grid[3] == "..#.#...#.#";
  }

  lemma HitD4()
    ensures Rectangular(Course) && Hit(Course, IntLoc(7, 1), 4)
  {
    CourseRectangular();
    assert Course.grid[4] == ".#...##..#.";
  }

  lemma HitD5()
    ensures Rectangular(Course) && Hit(Course, IntLoc(7, 1), 5)
  {
    CourseRectangular();
    assert Course.grid[5] == "..#.##.....";
  }

  lemma HitD6()
    ensures Rectangular(Course) && !Hit(Course, IntLoc(7, 1), 6)
  {
    CourseRectangular();
    assert Course.grid[6] == ".#.#.#....#";
  }

  lemma HitD7()
    ensures Rectangular(Course) && !Hit(Course, IntLoc(7, 1), 7)
  {
    CourseRectangular();
    assert Course.grid[7] == ".#........#";
  }

  lemma HitD8()
    ensures Rectangular(Course) && !Hit(Course, IntLoc(7, 1), 8)
  {
    CourseRectangular();
    assert Course.grid[8] == "#.##...#...";
  }

  lemma HitD9()
    ensures Rectangular(Course) && !Hit(Course, IntLoc(7, 1), 9)
  {
    CourseRectangular();
    assert Course.grid[9] == "#...##....#";
  }

  lemma HitD10()
    ensures Rectangular(Course) && Hit(Course, IntLoc(7, 1), 10)
  {
    CourseRectangular();
    assert Course.grid[10] == ".#..#...#.#";
  }

  lemma TreesD()
    ensures Rectangular(Course)
    ensures TreesFrom(Course, IntLoc(7, 1), 0) == 4
  {
    CourseRectangular();
    HitD0();
    HitD1();
    HitD2();
    HitD3();
    HitD4();
    HitD5();
    HitD6();
    HitD7();
    HitD8();
    HitD9();
    HitD10();
    assert TreesFrom(Course, IntLoc(7, 1), 11) == 0;
    assert TreesFrom(Course, IntLoc(7, 1), 10) == 1;
    assert TreesFrom(Course, IntLoc(7, 1), 9) == 1;
    assert TreesFrom(Course, IntLoc(7, 1), 8) == 1;
    assert TreesFrom(Course, IntLoc(7, 1), 7) == 1;
    assert TreesFrom(Course, IntLoc(7, 1), 6) == 1;
    assert TreesFrom(Course, IntLoc(7, 1), 5) == 2;
    assert TreesFrom(Course, IntLoc(7, 1), 4) == 3;
    assert TreesFrom(Course, IntLoc(7, 1), 3) == 4;
    assert TreesFrom(Course, IntLoc(7, 1), 2) == 4;
    assert TreesFrom(Course, IntLoc(7, 1), 1) == 4;
    assert TreesFrom(Course, IntLoc(7, 1), 0) == 4;
  }

  lemma HitE0()
    ensures Rectangular(Course) && !Hit(Course, IntLoc(1, 2), 0)
  {
    CourseRectangular();
    assert Course.grid[0] == "..##.......";
  }

  lemma HitE1()
    ensures Rectangular(Course) && Hit(Course, IntLoc(1, 2), 1)
  {
    CourseRectangular();
    assert Course.grid[2] == ".#....#..#.";
  }

  lemma HitE2()
    ensures Rectangular(Course) && !Hit(Course, IntLoc(1, 2), 2)
  {
    CourseRectangular();
    assert Course.grid[4] == ".#...##..#.";
  }

  lemma HitE3()
    ensures Rectangular(Course) && Hit(Course, IntLoc(1, 2), 3)
  {
    CourseRectangular();
    assert Course.grid[6] == ".#.#.#....#";
  }

  lemma HitE4()
    ensures Rectangular(Course) && !Hit(Course, IntLoc(1, 2), 4)
  {
    CourseRectangular();
    assert Course.grid[8] == "#.##...#...";
  }

  lemma HitE5()
    ensures Rectangular(Course) && !Hit(Course, IntLoc(1, 2), 5)
  {
    CourseRectangular();
    assert Course.grid[10] == ".#..#...#.#";
  }

  lemma TreesE()
    ensures Rectangular(Course)
    ensures TreesFrom(Course, IntLoc(1, 2), 0) == 2
  {
    CourseRectangular();
    HitE0();
    HitE1();
    HitE2();
    HitE3();
    HitE4();
    HitE5();
    assert TreesFrom(Course, IntLoc(1, 2), 6) == 0;
    assert TreesFrom(Course, IntLoc(1, 2), 5) == 0;
    assert TreesFrom(Course, IntLoc(1, 2), 4) == 0;
    assert TreesFrom(Course, IntLoc(1, 2), 3) == 1;
    assert TreesFrom(Course, IntLoc(1, 2), 2) == 1;
    assert TreesFrom(Course, IntLoc(1, 2), 1) == 2;
    assert TreesFrom(Course, IntLoc(1, 2), 0) == 2;
  }

  /** Slope (3, 1) meets 7 trees; the five slopes meet 2, 7, 3, 4 and 2 trees, whose product is 336. */
  lemma ExampleRuns()
    ensures Rectangular(Course)
    ensures var r := ToboganRuns(Course, Slopes);
      |r| == 5 && r[0] == 2 && r[1] == 7 && r[2] == 3 && r[3] == 4 && r[4] == 2 &&
      r[0] * r[1] * r[2] * r[3] * r[4] == 336
  {
    CourseRectangular();
    TreesA();
    TreesB();
    TreesC();
    TreesD();
    TreesE();
    RunsOn(Course, Slopes);
  }

  /** The runs of the five slopes on any course with the example's tree counts. */
  lemma RunsOn(course: CharGrid, slopes: seq<IntLoc>)
    requires Rectangular(course) && slopes == Slopes
    requires TreesFrom(course, IntLoc(1, 1), 0) == 2 && TreesFrom(course, IntLoc(3, 1), 0) == 7
    requires TreesFrom(course, IntLoc(5, 1), 0) == 3 && TreesFrom(course, IntLoc(7, 1), 0) == 4
    requires TreesFrom(course, IntLoc(1, 2), 0) == 2
    ensures var r := ToboganRuns(course, slopes);
      |r| == 5 && r[0] == 2 && r[1] == 7 && r[2] == 3 && r[3] == 4 && r[4] == 2 &&
      r[0] * r[1] * r[2] * r[3] * r[4] == 336
  {
    var r := ToboganRuns(course, slopes);
    assert r[0] == TreesFrom(course, slopes[0], 0) && slopes[0] == IntLoc(1, 1);
    assert r[1] == TreesFrom(course, slopes[1], 0) && slopes[1] == IntLoc(3, 1);
    assert r[2] == TreesFrom(course, slopes[2], 0) && slopes[2] == IntLoc(5, 1);
    assert r[3] == TreesFrom(course, slopes[3], 0) && slopes[3] == IntLoc(7, 1);
    assert r[4] == TreesFrom(course, slopes[4], 0) && slopes[4] == IntLoc(1, 2);
  }
}
