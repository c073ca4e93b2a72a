/** Password policies: a line "min-max ch: pwd" is checked by occurrence count or by two positions. */
module Passwords {
  import opened Seqs
  import opened Decimal

  datatype PWDLine = PWDLine(min: int, max: int, ch: char, pwd: string)

  /** The number of times `c` occurs in `pwd`, for the characters that occur at all. */
  ghost predicate IsCharCount(pwd: string, counts: map<char, int>)
  {
    (forall c :: c in counts <==> c in pwd) &&
    (forall c :: c in counts ==> counts[c] == Count(pwd, c))
  }

  lemma {:induction false} CountSnoc(s: string, x: char, c: char)
    ensures Count(s + [x], c) == Count(s, c) + (if x == c then 1 else 0)
  {
    if s == [] {
      assert [x][1..] == [];
    } else {
      assert (s + [x])[1..] == s[1..] + [x];
      CountSnoc(s[1..], x, c);
    }
  }

  lemma {:induction false} CountZero(s: string, c: char)
    ensures Count(s, c) == 0 <==> c !in s
  {
    if s != [] {
      CountZero(s[1..], c);
    }
  }

  /** `pwd.reduce(into: [Character: Int]()) { result[ch, default: 0] += 1 }`. */
  method CharCounts(pwd: string) returns (counts: map<char, int>)
    ensures IsCharCount(pwd, counts)
  {
    counts := map[];
    for i := 0 to |pwd|
      invariant IsCharCount(pwd[..i], counts)
    {
      var ch := pwd[i];
      assert pwd[..i + 1] == pwd[..i] + [ch];
      forall c ensures Count(pwd[..i + 1], c) == Count(pwd[..i], c) + (if ch == c then 1 else 0) {
        CountSnoc(pwd[..i], ch, c);
      }
      forall c ensures c !in pwd[..i] ==> Count(pwd[..i], c) == 0 {
        CountZero(pwd[..i], c);
      }
      counts := counts[ch := (if ch in counts then counts[ch] else 0) + 1];
    }
    assert pwd[..|pwd|] == pwd;
  }

  /** `isValid`: the count of `ch` in the password, 0 when it is absent, lies in `[min, max]`. */
  method IsValid(line: PWDLine) returns (valid: bool)
    ensures valid <==> line.min <= Count(line.pwd, line.ch) <= line.max
  {
    var charCounts := CharCounts(line.pwd);
    var cch := if line.ch in charCounts then charCounts[line.ch] else 0;
    CountZero(line.pwd, line.ch);
    valid := line.min <= cch && cch <= line.max;
  }

  /**
   * `isValid2`: exactly one of the 1-based positions `min` and `max` holds `ch`.
   * Indexing outside the password traps, so both positions must lie inside it.
   */
  function IsValid2(line: PWDLine): (valid: bool)
    requires 1 <= line.min <= |line.pwd| && 1 <= line.max <= |line.pwd|
    ensures valid <==> (line.pwd[line.min - 1] == line.ch) != (line.pwd[line.max - 1] == line.ch)
  {
    var minIsCh := line.pwd[line.min - 1] == line.ch;
    var maxIsCh := line.pwd[line.max - 1] == line.ch;
    (minIsCh || maxIsCh) && !(minIsCh && maxIsCh)
  }

  /** The two positions play symmetric roles, and naming one position twice is never valid. */
  lemma IsValid2Symmetric(line: PWDLine)
    requires 1 <= line.min <= |line.pwd| && 1 <= line.max <= |line.pwd|
    ensures IsValid2(line) == IsValid2(PWDLine(line.max, line.min, line.ch, line.pwd))
    ensures line.min == line.max ==> !IsValid2(line)
  {
  }

  /** `description`: "min - max ch pwd". */
  function Description(line: PWDLine): (s: string)
    ensures |s| == |IntToString(line.min)| + |IntToString(line.max)| + |line.pwd| + 6
    ensures s[..|IntToString(line.min)|] == IntToString(line.min)
    ensures s[|s| - |line.pwd|..] == line.pwd
  {
    IntToString(line.min) + " - " + IntToString(line.max) + " " + [line.ch] + " " + line.pwd
  }

  /** The three policy lines of the puzzle's example: the first and third pass `isValid`, only the first `isValid2`. */
  lemma ExampleCounts()
    ensures Count("abcde", 'a') == 1 && Count("cdefg", 'b') == 0 && Count("ccccccccc", 'c') == 9
  {
  }

  lemma ExamplePositions()
    ensures IsValid2(PWDLine(1, 3, 'a', "abcde"))
    ensures !IsValid2(PWDLine(1, 3, 'b', "cdefg"))
    ensures !IsValid2(PWDLine(2, 9, 'c', "ccccccccc"))
  {
  }

  lemma ExampleDescription()
    ensures Description(PWDLine(1, 3, 'a', "abcde")) == "1 - 3 a abcde"
  {
  }
}
