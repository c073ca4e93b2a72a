/**
 * The XMAS cipher: after a preamble, every number should be the sum of two different
 * numbers among the preceding window; find those that are not, and find a contiguous
 * run of numbers adding up to a target.
 */
module Xmas {
  import opened Wrappers
  import opened Collections

  /** Some `a` in the set has a partner `sum - a` that is positive, different from `a` and also in the set. */
  predicate IsPair2Sum(s: set<int>, sum: int)
  {
    exists a :: a in s && HasPartner(s, sum, a)
  }

  predicate HasPartner(s: set<int>, sum: int, a: int)
  {
    sum - a > 0 && sum - a != a && sum - a in s
  }

  /** `hasPair2Sum`: try each element in turn and stop at the first with a partner. */
  method HasPair2Sum(s: set<int>, sum: int) returns (found: bool)
    ensures found <==> IsPair2Sum(s, sum)
  {
    var rest := s;
    while rest != {}
      invariant rest <= s
      invariant forall a :: a in s && a !in rest ==> !HasPartner(s, sum, a)
      decreases |rest|
    {
      var x := Pick(rest);
      if HasPartner(s, sum, x) {
        return true;
      }
      rest := rest - {x};
    }
    return false;
  }

  /** `add(_:remove:)`: remove `r`, then insert `a`. */
  method AddRemove(s: set<int>, a: int, r: int) returns (s': set<int>)
    ensures s' == (s - {r}) + {a}
    ensures a in s' && (r in s' <==> r == a)
  {
    s' := s - {r};
    s' := s' + {a};
  }

  /** The set `findInvalids` holds when it examines `numbers[i]`: the preamble, then one number in and one out per step. */
  function Buffer(numbers: seq<int>, preamble: nat, i: nat): set<int>
    requires preamble <= i <= |numbers|
    decreases i
  {
    if i == preamble then AsSet(numbers[..preamble])
    else Buffer(numbers, preamble, i - 1) - {numbers[i - 1 - preamble]} + {numbers[i - 1]}
  }

  /** The numbers `findInvalids` reports from index `i` on, in order. */
  function InvalidsFrom(numbers: seq<int>, preamble: nat, i: nat): seq<int>
    requires preamble <= i <= |numbers|
    decreases |numbers| - i
  {
    if i == |numbers| then []
    else
      var rest := InvalidsFrom(numbers, preamble, i + 1);
      if IsPair2Sum(Buffer(numbers, preamble, i), numbers[i]) then rest else [numbers[i]] + rest
  }

  /**
   * `findInvalids`: the numbers after the preamble that are no pair sum of the buffer, in order.
   * `prefix` traps on a negative length and the index range on a preamble longer than the input.
   */
  method FindInvalids(numbers: seq<int>, preambleLength: int) returns (invalids: seq<int>)
    requires 0 <= preambleLength <= |numbers|
    ensures invalids == InvalidsFrom(numbers, preambleLength, preambleLength)
  {
    invalids := [];
    var buffer := AsSet(numbers[..preambleLength]);
    for index := preambleLength to |numbers|
      invariant buffer == Buffer(numbers, preambleLength, index)
      invariant invalids + InvalidsFrom(numbers, preambleLength, index) == InvalidsFrom(numbers, preambleLength, preambleLength)
    {
      var ok := HasPair2Sum(buffer, numbers[index]);
      if !ok {
        invalids := invalids + [numbers[index]];
      }
      buffer := AddRemove(buffer, numbers[index], numbers[index - preambleLength]);
    }
  }

  /**
   * With no repeated number and a non-empty preamble, the buffer is exactly the set of the
   * `preamble` numbers before `i`. (With an empty preamble it holds the number just examined.)
   */
  lemma {:induction false} BufferIsWindow(numbers: seq<int>, preamble: nat, i: nat)
    requires 0 < preamble <= i <= |numbers|
    requires forall j, k :: 0 <= j < k < |numbers| ==> numbers[j] != numbers[k]
    ensures Buffer(numbers, preamble, i) == AsSet(numbers[i - preamble..i])
    decreases i
  {
    if i > preamble {
      BufferIsWindow(numbers, preamble, i - 1);
      var old_ := numbers[i - 1 - preamble..i - 1];
      var new_ := numbers[i - preamble..i];
      assert new_[|new_| - 1] == numbers[i - 1];
      assert old_[0] == numbers[i - 1 - preamble];
      forall x ensures x in AsSet(old_) - {numbers[i - 1 - preamble]} + {numbers[i - 1]} <==> x in AsSet(new_) {
        if x in new_ && x != numbers[i - 1] {
          var k :| 0 <= k < |new_| && new_[k] == x;
          assert k < |new_| - 1;
          assert old_[k + 1] == x;
          assert new_[k] == numbers[i - preamble + k];
        }
        if x in old_ && x != numbers[i - 1 - preamble] {
          var k :| 0 <= k < |old_| && old_[k] == x;
          assert k > 0;
          assert new_[k - 1] == x;
        }
      }
    }
  }

  /** Everything reported is a number after the preamble that no two numbers of its buffer add up to. */
  lemma {:induction false} InvalidsSound(numbers: seq<int>, preamble: nat, i: nat, x: int)
    requires preamble <= i <= |numbers|
    requires x in InvalidsFrom(numbers, preamble, i)
    ensures exists j :: i <= j < |numbers| && numbers[j] == x && !IsPair2Sum(Buffer(numbers, preamble, j), x)
    decreases |numbers| - i
  {
    if !(numbers[i] == x && !IsPair2Sum(Buffer(numbers, preamble, i), x)) {
      InvalidsSound(numbers, preamble, i + 1, x);
    }
  }

  /** Every number after the preamble that is no pair sum of its buffer is reported. */
  lemma {:induction false} InvalidsComplete(numbers: seq<int>, preamble: nat, i: nat, j: nat)
    requires preamble <= i <= j < |numbers|
    requires !IsPair2Sum(Buffer(numbers, preamble, j), numbers[j])
    ensures numbers[j] in InvalidsFrom(numbers, preamble, i)
    decreases j - i
  {
    if i < j {
      InvalidsComplete(numbers, preamble, i + 1, j);
    }
  }

  /** The first number reported is the first one, from `i` on, that is no pair sum of its buffer. */
  lemma {:induction false} FirstInvalid(numbers: seq<int>, preamble: nat, i: nat, j: nat)
    requires preamble <= i <= j < |numbers|
    requires forall k :: i <= k < j ==> IsPair2Sum(Buffer(numbers, preamble, k), numbers[k])
    requires !IsPair2Sum(Buffer(numbers, preamble, j), numbers[j])
    ensures |InvalidsFrom(numbers, preamble, i)| > 0 && InvalidsFrom(numbers, preamble, i)[0] == numbers[j]
    decreases j - i
  {
    if i < j {
      FirstInvalid(numbers, preamble, i + 1, j);
    }
  }

  /** `numbers[l] + ... + numbers[r - 1]`. */
  function RangeSum(numbers: seq<int>, l: int, r: int): int
    requires 0 <= l <= r <= |numbers|
    decreases r
  {
    if l == r then 0 else RangeSum(numbers, l, r - 1) + numbers[r - 1]
  }

  lemma {:induction false} RangeSumDropFirst(numbers: seq<int>, l: int, r: int)
    requires 0 <= l < r <= |numbers|
    ensures RangeSum(numbers, l + 1, r) == RangeSum(numbers, l, r) - numbers[l]
    decreases r
  {
    if l + 1 < r {
      RangeSumDropFirst(numbers, l, r - 1);
    }
  }

  predicate NonNegative(numbers: seq<int>)
  {
    forall i :: 0 <= i < |numbers| ==> numbers[i] >= 0
  }

  /** With no negative number a range's sum grows when it is widened on either side. */
  lemma {:induction false} RangeSumMonotone(numbers: seq<int>, a: int, l: int, r: int, b: int)
    requires NonNegative(numbers) && 0 <= a <= l <= r <= b <= |numbers|
    ensures RangeSum(numbers, l, r) <= RangeSum(numbers, a, b)
    decreases b - r, l - a
  {
    if r < b {
      RangeSumMonotone(numbers, a, l, r, b - 1);
    } else if a < l {
      RangeSumMonotone(numbers, a + 1, l, r, b);
      RangeSumDropFirst(numbers, a, b);
    }
  }

  /**
   * Where the search of `findContiguousSum` ends from the range `l ..< r` whose sum is
   * `running`: a range hitting the target is reported; once the right end is at the last
   * number the search gives up, even when the range is still over the target.
   */
  function ContiguousSearch(numbers: seq<int>, sum: int, l: int, r: int, running: int): (range: Option<(int, int)>)
    requires NonNegative(numbers) && sum >= 0
    requires 0 <= l <= r <= |numbers| && running == RangeSum(numbers, l, r)
    ensures range.Some? ==> (0 <= range.value.0 <= range.value.1 <= |numbers| &&
      RangeSum(numbers, range.value.0, range.value.1) == sum)
    ensures r == |numbers| ==> (range.Some? <==> running == sum)
    decreases 2 * |numbers| - l - r
  {
    if running == sum then Some((l, r))
    else if r == |numbers| then None
    else if running < sum then ContiguousSearch(numbers, sum, l, r + 1, running + numbers[r])
    else
      RangeSumDropFirst(numbers, l, r);
      ContiguousSearch(numbers, sum, l + 1, r, running - numbers[l])
  }

  /**
   * `findContiguousSum`: grow the range on the right while its sum is short of the target,
   * shrink it on the left while it is over, until it hits the target or the right end reaches
   * the last number. A reported range `l ..< r` adds up to the target. The inputs are
   * non-negative numbers and a non-negative target, without which the left end can pass the
   * right one and index outside the numbers.
   */
  method FindContiguousSum(numbers: seq<int>, sum: int) returns (range: Option<(int, int)>)
    requires NonNegative(numbers) && sum >= 0
    ensures range == ContiguousSearch(numbers, sum, 0, 0, 0)
    ensures range.Some? ==> (0 <= range.value.0 <= range.value.1 <= |numbers| &&
      RangeSum(numbers, range.value.0, range.value.1) == sum)
  {
    var running := 0;
    var l := 0;
    var r := 0;
    while running != sum && r < |numbers|
      invariant 0 <= l <= r <= |numbers|
      invariant running == RangeSum(numbers, l, r)
      invariant ContiguousSearch(numbers, sum, l, r, running) == ContiguousSearch(numbers, sum, 0, 0, 0)
      decreases 2 * |numbers| - l - r
    {
      if running < sum {
        running := running + numbers[r];
        r := r + 1;
      } else {
        RangeSumDropFirst(numbers, l, r);
        running := running - numbers[l];
        l := l + 1;
      }
    }
    if running != sum {
      return None;
    }
    return Some((l, r));
  }

  /** Whether some range `a ..< b` adds up to `sum`. */
  ghost predicate HasRangeSum(numbers: seq<int>, sum: int)
  {
    exists a, b :: 0 <= a <= b <= |numbers| && RangeSum(numbers, a, b) == sum
  }

  /**
   * The same search that keeps shrinking from the left once the right end has reached the last
   * number, for as long as the range is over the target: it reports a range exactly when one exists.
   */
  method FindContiguousSumComplete(numbers: seq<int>, sum: int) returns (range: Option<(int, int)>)
    requires NonNegative(numbers) && sum >= 0
    ensures range.Some? ==> (0 <= range.value.0 <= range.value.1 <= |numbers| &&
      RangeSum(numbers, range.value.0, range.value.1) == sum)
    ensures range.None? <==> !HasRangeSum(numbers, sum)
  {
    var running := 0;
    var l := 0;
    var r := 0;
    while running != sum && (r < |numbers| || running > sum)
      invariant 0 <= l <= r <= |numbers|
      invariant running == RangeSum(numbers, l, r)
      invariant forall a, b :: 0 <= a <= b <= |numbers| && RangeSum(numbers, a, b) == sum ==> l <= a && r <= b
      decreases 2 * |numbers| - l - r
    {
      if running < sum {
        forall a, b | 0 <= a <= b <= |numbers| && RangeSum(numbers, a, b) == sum ensures r + 1 <= b {
          if b == r {
            RangeSumMonotone(numbers, l, a, b, r);
          }
        }
        running := running + numbers[r];
        r := r + 1;
      } else {
        forall a, b | 0 <= a <= b <= |numbers| && RangeSum(numbers, a, b) == sum ensures l + 1 <= a {
          if a == l {
            RangeSumMonotone(numbers, l, l, r, b);
          }
        }
        RangeSumDropFirst(numbers, l, r);
        running := running - numbers[l];
        l := l + 1;
      }
    }
    if running != sum {
      forall a, b | 0 <= a <= b <= |numbers| ensures RangeSum(numbers, a, b) != sum {
        if RangeSum(numbers, a, b) == sum {
          RangeSumMonotone(numbers, l, a, b, r);
        }
      }
      return None;
    }
    return Some((l, r));
  }

  /**
   * For [1, 5] and target 5 the search stops with the range 0 ..< 2 over the target and
   * reports nothing, though 1 ..< 2 adds up to 5.
   */
  lemma ContiguousSumMissedExample()
    ensures RangeSum([1, 5], 1, 2) == 5 && HasRangeSum([1, 5], 5)
    ensures RangeSum([1, 5], 0, 1) < 5 && RangeSum([1, 5], 0, 2) > 5
    ensures ContiguousSearch([1, 5], 5, 0, 0, 0) == None
  {
    var n := [1, 5];
    assert RangeSum(n, 0, 1) == 1;
    assert RangeSum(n, 0, 2) == 6;
    assert ContiguousSearch(n, 5, 0, 2, 6) == None;
    assert ContiguousSearch(n, 5, 0, 1, 1) == None;
  }
}
