/** The puzzle's example: with a preamble of 5, the first number that is no pair sum is 127. */
module XmasExample {
  import opened Collections
  import opened Xmas

  const Numbers := [35, 20, 15, 25, 47, 40, 62, 55, 65, 95, 102, 117, 150, 182, 127, 219, 299, 277, 309, 576]

  /** The example entry by entry, so that lemmas about it need not unfold the literal. */
  predicate IsExample(numbers: seq<int>)
  {
    |numbers| == 20 &&
    numbers[0] == 35 &&
    numbers[1] == 20 &&
    numbers[2] == 15 &&
    numbers[3] == 25 &&
    numbers[4] == 47 &&
    numbers[5] == 40 &&
    numbers[6] == 62 &&
    numbers[7] == 55 &&
    numbers[8] == 65 &&
    numbers[9] == 95 &&
    numbers[10] == 102 &&
    numbers[11] == 117 &&
    numbers[12] == 150 &&
    numbers[13] == 182 &&
    numbers[14] == 127 &&
    numbers[15] == 219 &&
    numbers[16] == 299 &&
    numbers[17] == 277 &&
    numbers[18] == 309 &&
    numbers[19] == 576
  }

  lemma ExampleNumbers()
    ensures IsExample(Numbers)
  {
  }

  lemma Buffer5(numbers: seq<int>)
    requires IsExample(numbers)
    ensures Buffer(numbers, 5, 5) == {35, 20, 15, 25, 47}
  {
    assert numbers[..5] == [35, 20, 15, 25, 47];
  }

  lemma Buffer6(numbers: seq<int>)
    requires IsExample(numbers)
    ensures Buffer(numbers, 5, 6) == {20, 15, 25, 47, 40}
  {
    Buffer5(numbers);
    BufferStep(numbers, 5, 6, {35, 20, 15, 25, 47}, 35, 40);
    assert {35, 20, 15, 25, 47} - {35} + {40} == {20, 15, 25, 47, 40};
  }

  lemma Buffer7(numbers: seq<int>)
    requires IsExample(numbers)
    ensures Buffer(numbers, 5, 7) == {15, 25, 47, 40, 62}
  {
    Buffer6(numbers);
    BufferStep(numbers, 5, 7, {20, 15, 25, 47, 40}, 20, 62);
    assert {20, 15, 25, 47, 40} - {20} + {62} == {15, 25, 47, 40, 62};
  }

  lemma Buffer8(numbers: seq<int>)
    requires IsExample(numbers)
    ensures Buffer(numbers, 5, 8) == {25, 47, 40, 62, 55}
  {
    Buffer7(numbers);
    BufferStep(numbers, 5, 8, {15, 25, 47, 40, 62}, 15, 55);
    assert {15, 25, 47, 40, 62} - {15} + {55} == {25, 47, 40, 62, 55};
  }

  lemma Buffer9(numbers: seq<int>)
    requires IsExample(numbers)
    ensures Buffer(numbers, 5, 9) == {47, 40, 62, 55, 65}
  {
    Buffer8(numbers);
    BufferStep(numbers, 5, 9, {25, 47, 40, 62, 55}, 25, 65);
    assert {25, 47, 40, 62, 55} - {25} + {65} == {47, 40, 62, 55, 65};
  }

  lemma Buffer10(numbers: seq<int>)
    requires IsExample(numbers)
    ensures Buffer(numbers, 5, 10) == {40, 62, 55, 65, 95}
  {
    Buffer9(numbers);
    BufferStep(numbers, 5, 10, {47, 40, 62, 55, 65}, 47, 95);
    assert {47, 40, 62, 55, 65} - {47} + {95} == {40, 62, 55, 65, 95};
  }

  lemma Buffer11(numbers: seq<int>)
    requires IsExample(numbers)
    ensures Buffer(numbers, 5, 11) == {62, 55, 65, 95, 102}
  {
    Buffer10(numbers);
    BufferStep(numbers, 5, 11, {40, 62, 55, 65, 95}, 40, 102);
    assert {40, 62, 55, 65, 95} - {40} + {102} == {62, 55, 65, 95, 102};
  }

  lemma Buffer12(numbers: seq<int>)
    requires IsExample(numbers)
    ensures Buffer(numbers, 5, 12) == {55, 65, 95, 102, 117}
  {
    Buffer11(numbers);
    BufferStep(numbers, 5, 12, {62, 55, 65, 95, 102}, 62, 117);
    assert {62, 55, 65, 95, 102} - {62} + {117} == {55, 65, 95, 102, 117};
  }

  lemma Buffer13(numbers: seq<int>)
    requires IsExample(numbers)
    ensures Buffer(numbers, 5, 13) == {65, 95, 102, 117, 150}
  {
    Buffer12(numbers);
    BufferStep(numbers, 5, 13, {55, 65, 95, 102, 117}, 55, 150);
    assert {55, 65, 95, 102, 117} - {55} + {150} == {65, 95, 102, 117, 150};
  }

  lemma Buffer14(numbers: seq<int>)
    requires IsExample(numbers)
    ensures Buffer(numbers, 5, 14) == {95, 102, 117, 150, 182}
  {
    Buffer13(numbers);
    BufferStep(numbers, 5, 14, {65, 95, 102, 117, 150}, 65, 182);
    assert {65, 95, 102, 117, 150} - {65} + {182} == {95, 102, 117, 150, 182};
  }

  lemma Valid5(numbers: seq<int>)
    requires IsExample(numbers)
    ensures IsPair2Sum(Buffer(numbers, 5, 5), 40)
  {
    Buffer5(numbers);
    assert HasPartner(Buffer(numbers, 5, 5), 40, 15);
  }

  lemma Valid6(numbers: seq<int>)
    requires IsExample(numbers)
    ensures IsPair2Sum(Buffer(numbers, 5, 6), 62)
  {
    Buffer6(numbers);
    assert HasPartner(Buffer(numbers, 5, 6), 62, 15);
  }

  lemma Valid7(numbers: seq<int>)
    requires IsExample(numbers)
    ensures IsPair2Sum(Buffer(numbers, 5, 7), 55)
  {
    Buffer7(numbers);
    assert HasPartner(Buffer(numbers, 5, 7), 55, 15);
  }

  lemma Valid8(numbers: seq<int>)
    requires IsExample(numbers)
    ensures IsPair2Sum(Buffer(numbers, 5, 8), 65)
  {
    Buffer8(numbers);
    assert HasPartner(Buffer(numbers, 5, 8), 65, 25);
  }

  lemma Valid9(numbers: seq<int>)
    requires IsExample(numbers)
    ensures IsPair2Sum(Buffer(numbers, 5, 9), 95)
  {
    Buffer9(numbers);
    assert HasPartner(Buffer(numbers, 5, 9), 95, 40);
  }

  lemma Valid10(numbers: seq<int>)
    requires IsExample(numbers)
    ensures IsPair2Sum(Buffer(numbers, 5, 10), 102)
  {
    Buffer10(numbers);
    assert HasPartner(Buffer(numbers, 5, 10), 102, 40);
  }

  lemma Valid11(numbers: seq<int>)
    requires IsExample(numbers)
    ensures IsPair2Sum(Buffer(numbers, 5, 11), 117)
  {
    Buffer11(numbers);
    assert HasPartner(Buffer(numbers, 5, 11), 117, 62);
  }

  lemma Valid12(numbers: seq<int>)
    requires IsExample(numbers)
    ensures IsPair2Sum(Buffer(numbers, 5, 12), 150)
  {
    Buffer12(numbers);
    assert HasPartner(Buffer(numbers, 5, 12), 150, 55);
  }

  lemma Valid13(numbers: seq<int>)
    requires IsExample(numbers)
    ensures IsPair2Sum(Buffer(numbers, 5, 13), 182)
  {
    Buffer13(numbers);
    assert HasPartner(Buffer(numbers, 5, 13), 182, 65);
  }

  lemma Invalid14(numbers: seq<int>)
    requires IsExample(numbers)
    ensures !IsPair2Sum(Buffer(numbers, 5, 14), 127)
  {
    Buffer14(numbers);
  }

  /** The first reported number is 127. */
  lemma FirstInvalidIs127()
    ensures |InvalidsFrom(Numbers, 5, 5)| > 0 && InvalidsFrom(Numbers, 5, 5)[0] == 127
  {
    ExampleNumbers();
    FirstInvalidOn(Numbers);
  }

  lemma FirstInvalidOn(numbers: seq<int>)
    requires IsExample(numbers)
    ensures |InvalidsFrom(numbers, 5, 5)| > 0 && InvalidsFrom(numbers, 5, 5)[0] == 127
  {
    forall k | 5 <= k < 14 ensures IsPair2Sum(Buffer(numbers, 5, k), numbers[k]) {
      if k == 5 {
        Valid5(numbers);
      }
      else if k == 6 {
        Valid6(numbers);
      }
      else if k == 7 {
        Valid7(numbers);
      }
      else if k == 8 {
        Valid8(numbers);
      }
      else if k == 9 {
        Valid9(numbers);
      }
      else if k == 10 {
        Valid10(numbers);
      }
      else if k == 11 {
        Valid11(numbers);
      }
      else if k == 12 {
        Valid12(numbers);
      }
      else {
        Valid13(numbers);
      }
    }
    Invalid14(numbers);
    FirstInvalid(numbers, 5, 5, 14);
  }

  /** One step of the buffer: the oldest number out, the newest in. */
  lemma BufferStep(numbers: seq<int>, preamble: nat, i: nat, prev: set<int>, out: int, incoming: int)
    requires preamble < i <= |numbers| && Buffer(numbers, preamble, i - 1) == prev
    requires numbers[i - 1 - preamble] == out && numbers[i - 1] == incoming
    ensures Buffer(numbers, preamble, i) == prev - {out} + {incoming}
  {
  }

  /** 15 + 25 + 47 + 40 is the contiguous run adding up to 127; its least and greatest numbers are 15 and 47. */
  lemma ContiguousRun()
    ensures RangeSum(Numbers, 2, 6) == 127
    ensures Numbers[2..6] == [15, 25, 47, 40]
  {
  }
}
