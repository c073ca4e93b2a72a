/**
 * `IndexingRange`: an inclusive box between two indices of any dimension.
 * Swift's `Indexing` protocol supplies `components`; here the component
 * function is passed explicitly.
 */
module IndexingRanges {
  datatype IndexingRange<I> = IndexingRange(min: I, max: I)

  /** Swift's `zip`: pairs up positions, truncating to the shorter sequence. */
  function Zip<A, B>(a: seq<A>, b: seq<B>): (r: seq<(A, B)>)
    ensures |r| == if |a| <= |b| then |a| else |b|
    ensures forall k :: 0 <= k < |r| ==> r[k] == (a[k], b[k])
  {
    if a == [] || b == [] then [] else [(a[0], b[0])] + Zip(a[1..], b[1..])
  }

  /** `allSatisfy { $0 <= $1 }` over a zipped sequence. */
  predicate AllLe(pairs: seq<(int, int)>)
  {
    forall k :: 0 <= k < |pairs| ==> pairs[k].0 <= pairs[k].1
  }

  /** `IndexingRange.contains`: every component lies between the range's bounds. */
  predicate Contains<I>(r: IndexingRange<I>, components: I -> seq<int>, i: I)
  {
    AllLe(Zip(components(r.min), components(i))) && AllLe(Zip(components(i), components(r.max)))
  }

  /** With component vectors of one common length, `Contains` is the axis-wise bound test. */
  lemma ContainsAxisWise<I>(r: IndexingRange<I>, components: I -> seq<int>, i: I, d: nat)
    requires |components(r.min)| == d && |components(i)| == d && |components(r.max)| == d
    ensures Contains(r, components, i) <==>
      forall k :: 0 <= k < d ==> components(r.min)[k] <= components(i)[k] <= components(r.max)[k]
  {
    var lo, p, hi := components(r.min), components(i), components(r.max);
    if forall k :: 0 <= k < d ==> lo[k] <= p[k] <= hi[k] {
      assert AllLe(Zip(lo, p)) && AllLe(Zip(p, hi));
    }
    if Contains(r, components, i) {
      forall k | 0 <= k < d ensures lo[k] <= p[k] <= hi[k] {
        assert Zip(lo, p)[k] == (lo[k], p[k]) && Zip(p, hi)[k] == (p[k], hi[k]);
      }
    }
  }
}
