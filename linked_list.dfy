/**
 * A singly linked list of heap nodes with a cached tail (`LinkedList`), its
 * nodes (`ListNode`) and a forward iterator (`ListIterator`).
 *
 * Each list carries a ghost sequence `nodes`: the chain reachable from `head`.
 * `Valid()` says that chain is well formed (linked in order, last `next` null,
 * no node twice). Whether `tail` is the last node is the separate `TailOk()`,
 * because some operations of the code leave a stale tail; each method states
 * exactly what `tail` becomes.
 */
module LinkedLists {
  import opened Wrappers
  import opened Seqs
  import opened ListSpec

  class ListNode<T> {
    const value: T
    var next: ListNode?<T>

    constructor (value: T, next: ListNode?<T>)
      ensures this.value == value && this.next == next
    {
      this.value := value;
      this.next := next;
    }

    /** `last`: walks `next` links to the final node of the chain. */
    method Last(ghost chain: seq<ListNode<T>>) returns (last: ListNode<T>)
      requires ChainFrom(this, chain)
      ensures last == chain[|chain| - 1] && last.next == null
    {
      last := this;
      ghost var i := 0;
      ChainNext(chain, 0);
      while last.next != null
        invariant 0 <= i < |chain| && last == chain[i]
        invariant last.next == if i < |chain| - 1 then chain[i + 1] else null
        decreases |chain| - i
      {
        last := last.next;
        i := i + 1;
        ChainNext(chain, i);
      }
    }

    /** `next(k)`: the node `k` links further on (this node for 0), or null past the end and for negative `k`. */
    function NextK(k: int, ghost chain: seq<ListNode<T>>): (r: ListNode?<T>)
      reads chain
      requires ChainFrom(this, chain)
      ensures r == if 0 <= k < |chain| then chain[k] else null
      decreases |chain|
    {
      ChainSuffix(chain, 1);
      ChainNext(chain, 0);
      if k == 0 then this
      else if next == null then null
      else next.NextK(k - 1, chain[1..])
    }
  }

  /** Position `i` of `ns` is followed by position `i + 1`. */
  ghost predicate Linked<T>(ns: seq<ListNode<T>>, i: int)
    reads ns
  {
    0 <= i < |ns| - 1 && ns[i].next == ns[i + 1]
  }

  /** `ns` are linked in order, the last one ends the chain, and no node occurs twice. */
  ghost predicate IsChain<T>(ns: seq<ListNode<T>>)
    reads ns
  {
    (forall i :: 0 <= i < |ns| - 1 ==> Linked(ns, i)) &&
    (ns != [] ==> ns[|ns| - 1].next == null) &&
    Distinct(ns)
  }

  /** `ns` is the chain of nodes reachable from `n` (empty for null). */
  ghost predicate ChainFrom<T>(n: ListNode?<T>, ns: seq<ListNode<T>>)
    reads ns
  {
    IsChain(ns) && n == if ns == [] then null else ns[0]
  }

  /** The values held by `ns`, in order. */
  function Values<T>(ns: seq<ListNode<T>>): seq<T>
  {
    if ns == [] then [] else [ns[0].value] + Values(ns[1..])
  }

  lemma {:induction false} ValuesAt<T>(ns: seq<ListNode<T>>)
    ensures |Values(ns)| == |ns|
    ensures forall i :: 0 <= i < |ns| ==> Values(ns)[i] == ns[i].value
  {
    if ns != [] {
      ValuesAt(ns[1..]);
    }
  }

  lemma {:induction false} ValuesLength<T>(ns: seq<ListNode<T>>)
    ensures |Values(ns)| == |ns|
  {
    if ns != [] {
      ValuesLength(ns[1..]);
    }
  }

  lemma {:induction false} ValuesConcat<T>(a: seq<ListNode<T>>, b: seq<ListNode<T>>)
    ensures Values(a + b) == Values(a) + Values(b)
  {
    if a != [] {
      assert (a + b)[0] == a[0] && (a + b)[1..] == a[1..] + b;
      ValuesConcat(a[1..], b);
    } else {
      assert a + b == b;
    }
  }

  lemma ValuesSnoc<T>(ns: seq<ListNode<T>>, i: nat)
    requires i < |ns|
    ensures Values(ns[..i + 1]) == Values(ns[..i]) + [ns[i].value]
  {
    assert ns[..i + 1] == ns[..i] + [ns[i]];
    ValuesConcat(ns[..i], [ns[i]]);
    assert [ns[i]][1..] == [];
  }

  lemma ValuesSlice<T>(ns: seq<ListNode<T>>, a: nat, b: nat)
    requires a <= b <= |ns|
    ensures |Values(ns)| == |ns| && Values(ns[a..b]) == Values(ns)[a..b]
  {
    ValuesAt(ns);
    ValuesAt(ns[a..b]);
  }

  lemma ValuesTake<T>(ns: seq<ListNode<T>>, a: nat)
    requires a <= |ns|
    ensures |Values(ns)| == |ns| && Values(ns[..a]) == Values(ns)[..a]
  {
    ValuesAt(ns);
    ValuesAt(ns[..a]);
  }

  lemma ValuesDrop<T>(ns: seq<ListNode<T>>, a: nat)
    requires a <= |ns|
    ensures |Values(ns)| == |ns| && Values(ns[a..]) == Values(ns)[a..]
  {
    ValuesAt(ns);
    ValuesAt(ns[a..]);
  }

  /** Reading the values commutes with removing a run. */
  lemma ValuesRemoved<T>(s: seq<ListNode<T>>, at: nat, k: int)
    requires at <= |s|
    ensures |Values(s)| == |s| && Values(Removed(s, at, k)) == Removed(Values(s), at, k)
  {
    ValuesLength(s);
    if k > 0 {
      var e := Min(at + k, |s|);
      var v := Values(s);
      assert Removed(v, at, k) == v[..at] + v[e..];
      calc {
        Values(Removed(s, at, k));
        Values(s[..at] + s[e..]);
        { ValuesConcat(s[..at], s[e..]); }
        Values(s[..at]) + Values(s[e..]);
        { ValuesTake(s, at); ValuesDrop(s, e); }
        v[..at] + v[e..];
      }
    }
  }

  /** Reading the values commutes with taking a run. */
  lemma ValuesTaken<T>(s: seq<ListNode<T>>, at: nat, k: int)
    requires at <= |s|
    ensures |Values(s)| == |s| && Values(Taken(s, at, k)) == Taken(Values(s), at, k)
  {
    ValuesLength(s);
    if k > 0 {
      ValuesSlice(s, at, Min(at + k, |s|));
    }
  }

  /** Reading the values commutes with inserting a run. */
  lemma ValuesInserted<T>(s: seq<ListNode<T>>, at: nat, ins: seq<ListNode<T>>)
    requires at <= |s|
    ensures |Values(s)| == |s| && Values(InsertedAsWritten(s, at, ins)) == InsertedAsWritten(Values(s), at, Values(ins))
  {
    ValuesLength(s);
    ValuesLength(ins);
    ValuesTake(s, at);
    if ins != [] {
      ValuesDrop(s, at);
      ValuesConcat(s[..at] + ins, s[at..]);
      ValuesConcat(s[..at], ins);
      assert InsertedAsWritten(s, at, ins) == s[..at] + ins + s[at..];
    }
  }

  /** Reading the values commutes with rotating. */
  lemma ValuesRotated<T>(s: seq<ListNode<T>>, m: nat)
    requires m <= |s|
    ensures |Values(s)| == |s| && Values(Rotated(s, m)) == Rotated(Values(s), m)
  {
    ValuesLength(s);
    ValuesTake(s, m);
    ValuesDrop(s, m);
    ValuesConcat(s[m..], s[..m]);
    assert Rotated(s, m) == s[m..] + s[..m];
  }

  ghost function IndexOf<X>(s: seq<X>, x: X): (i: nat)
    requires x in s
    ensures i < |s| && s[i] == x && forall j :: 0 <= j < i ==> s[j] != x
  {
    if s[0] == x then 0 else 1 + IndexOf(s[1..], x)
  }

  lemma IndexOfAt<X>(s: seq<X>, i: nat)
    requires Distinct(s) && i < |s|
    ensures IndexOf(s, s[i]) == i
  {
  }

  /** The position just after the anchor `after`, or 0 without an anchor. */
  ghost function Start<T>(ns: seq<ListNode<T>>, after: ListNode?<T>): (at: nat)
    requires after == null || after in ns
    ensures at <= |ns|
  {
    if after == null then 0 else IndexOf(ns, after) + 1
  }

  /** In a chain, each node's `next` is the following node, or null for the last. */
  lemma ChainNext<T>(ns: seq<ListNode<T>>, i: int)
    requires IsChain(ns)
    ensures 0 <= i < |ns| ==> ns[i].next == if i < |ns| - 1 then ns[i + 1] else null
  {
    if 0 <= i < |ns| - 1 {
      assert Linked(ns, i);
    }
  }

  lemma ChainSuffix<T>(ns: seq<ListNode<T>>, i: nat)
    requires IsChain(ns) && i <= |ns|
    ensures ChainFrom(if i < |ns| then ns[i] else null, ns[i..])
  {
    var t := ns[i..];
    forall a | 0 <= a < |t| - 1 ensures Linked(t, a) {
      assert Linked(ns, i + a);
    }
    forall a, b | 0 <= a < b < |t| ensures t[a] != t[b] {
      assert t[a] == ns[i + a] && t[b] == ns[i + b];
    }
  }

  /** A node that is new to a chain and points at its first node extends it at the front. */
  lemma ChainCons<T>(n: ListNode<T>, ns: seq<ListNode<T>>)
    requires IsChain(ns) && n !in ns
    requires n.next == if ns == [] then null else ns[0]
    ensures ChainFrom(n, [n] + ns)
  {
    var r := [n] + ns;
    forall a | 0 <= a < |r| - 1 ensures Linked(r, a) {
      if a > 0 {
        assert Linked(ns, a - 1);
      }
    }
    forall a, b | 0 <= a < b < |r| ensures r[a] != r[b] {
      assert r[b] == ns[b - 1];
      if a == 0 {
        assert ns[b - 1] in ns;
      }
    }
  }

  /** A node determines its chain. */
  lemma {:induction false} ChainUnique<T>(n: ListNode?<T>, c1: seq<ListNode<T>>, c2: seq<ListNode<T>>)
    requires ChainFrom(n, c1) && ChainFrom(n, c2)
    ensures c1 == c2
    decreases |c1|
  {
    if c1 != [] {
      assert c2 != [];
      ChainSuffix(c1, 1);
      ChainSuffix(c2, 1);
      ChainNext(c1, 0);
      ChainNext(c2, 0);
      ChainUnique(n.next, c1[1..], c2[1..]);
      assert c1 == [c1[0]] + c1[1..] && c2 == [c2[0]] + c2[1..];
    }
  }

  /** Swift's structural `==` on nodes: equal values along both chains, of equal length. */
  function NodesEqual<T(==)>(a: ListNode<T>, b: ListNode<T>, ghost xs: seq<ListNode<T>>, ghost ys: seq<ListNode<T>>): (r: bool)
    reads xs, ys
    requires ChainFrom(a, xs) && ChainFrom(b, ys)
    ensures r <==> Values(xs) == Values(ys)
    decreases |xs|
  {
    ChainSuffix(xs, 1);
    ChainSuffix(ys, 1);
    ChainNext(xs, 0);
    ChainNext(ys, 0);
    ValuesAt(xs[1..]);
    ValuesAt(ys[1..]);
    assert Values(xs) == [a.value] + Values(xs[1..]) && Values(ys) == [b.value] + Values(ys[1..]);
    assert Values(xs)[1..] == Values(xs[1..]) && Values(ys)[1..] == Values(ys[1..]);
    a.value == b.value &&
    if a.next == null || b.next == null then a.next == b.next
    else NodesEqual(a.next, b.next, xs[1..], ys[1..])
  }

  /** Two different positions of one chain are never structurally equal: their chains differ in length. */
  lemma NodesEqualIsIdentityInChain<T>(ns: seq<ListNode<T>>, i: nat, j: nat)
    requires IsChain(ns) && i < |ns| && j < |ns|
    ensures ChainFrom(ns[i], ns[i..]) && ChainFrom(ns[j], ns[j..])
    ensures NodesEqual(ns[i], ns[j], ns[i..], ns[j..]) <==> i == j
  {
    ChainSuffix(ns, i);
    ChainSuffix(ns, j);
    ValuesAt(ns[i..]);
    ValuesAt(ns[j..]);
  }

  /** `<` on nodes compares values only. */
  function NodeLess(a: ListNode<int>, b: ListNode<int>): (r: bool)
    ensures r <==> a.value < b.value
  {
    a.value < b.value
  }

  /** The first `t + 1` nodes of a chain followed by a new last node `n`. */
  lemma SnocChain<T>(s: seq<ListNode<T>>, t: nat, n: ListNode<T>)
    requires t < |s| && Distinct(s) && n !in s
    requires forall i :: 0 <= i < t ==> Linked(s, i)
    requires s[t].next == n && n.next == null
    ensures IsChain(s[..t + 1] + [n])
  {
    var r := s[..t + 1] + [n];
    forall a | 0 <= a < |r| - 1 ensures Linked(r, a) {
      if a < t {
        assert Linked(s, a);
      }
    }
    forall a, b | 0 <= a < b < |r| ensures r[a] != r[b] {
      if b == t + 1 {
        assert s[a] in s;
      }
    }
  }

  /** The spliced chain is well formed: the links the code rewired are the two around `ins`. */
  lemma InsertedChain<T>(s: seq<ListNode<T>>, at: nat, ins: seq<ListNode<T>>)
    requires at <= |s| && Distinct(s) && Distinct(ins) && Disjoint(s, ins)
    requires forall i :: 0 <= i < |s| - 1 && i != at - 1 ==> Linked(s, i)
    requires at < |s| ==> s[|s| - 1].next == null
    requires forall i :: 0 <= i < |ins| - 1 ==> Linked(ins, i)
    requires ins != [] ==> ins[|ins| - 1].next == if at < |s| then s[at] else null
    requires 0 < at ==> s[at - 1].next == if ins != [] then ins[0] else null
    ensures IsChain(InsertedAsWritten(s, at, ins))
  {
    var r := InsertedAsWritten(s, at, ins);
    if ins == [] {
      assert r == s[..at];
      forall i | 0 <= i < |r| - 1 ensures Linked(r, i) {
        assert Linked(s, i);
      }
    } else {
      assert r == s[..at] + ins + s[at..];
      forall i, j | 0 <= i < j < |r| ensures r[i] != r[j] {
        if i < at && j < at {
        } else if i < at && j < at + |ins| {
          assert r[j] == ins[j - at] && r[i] == s[i] && s[i] in s;
        } else if i < at {
          assert r[j] == s[j - |ins|] && r[i] == s[i];
        } else if i < at + |ins| && j < at + |ins| {
          assert r[j] == ins[j - at] && r[i] == ins[i - at];
        } else if i < at + |ins| {
          assert r[j] == s[j - |ins|] && r[i] == ins[i - at] && s[j - |ins|] in s;
        } else {
          assert r[j] == s[j - |ins|] && r[i] == s[i - |ins|];
        }
      }
      forall i | 0 <= i < |r| - 1 ensures Linked(r, i) {
        if i < at - 1 {
          assert Linked(s, i);
        } else if i == at - 1 {
        } else if i < at + |ins| - 1 {
          assert Linked(ins, i - at);
          assert r[i] == ins[i - at] && r[i + 1] == ins[i + 1 - at];
        } else if i == at + |ins| - 1 {
          assert r[i] == ins[|ins| - 1] && r[i + 1] == s[at];
        } else {
          assert Linked(s, i - |ins|);
          assert r[i] == s[i - |ins|] && r[i + 1] == s[i + 1 - |ins|];
        }
      }
    }
  }

  /** What is left when the run `s[at..e]` is cut out and the node before it is pointed past it. */
  lemma RemovedChain<T>(s: seq<ListNode<T>>, at: nat, e: nat)
    requires at <= e <= |s| && Distinct(s)
    requires forall i :: (0 <= i < at - 1 || e <= i < |s| - 1) ==> Linked(s, i)
    requires 0 < at ==> s[at - 1].next == if e < |s| then s[e] else null
    requires e < |s| ==> s[|s| - 1].next == null
    ensures IsChain(s[..at] + s[e..])
  {
    var r := s[..at] + s[e..];
    forall i, j | 0 <= i < j < |r| ensures r[i] != r[j] {
      if j < at {
      } else if i < at {
        assert r[j] == s[j - at + e];
      } else {
        assert r[j] == s[j - at + e] && r[i] == s[i - at + e];
      }
    }
    forall i | 0 <= i < |r| - 1 ensures Linked(r, i) {
      if i < at - 1 {
        assert Linked(s, i);
      } else if i == at - 1 {
        assert r[i + 1] == s[e];
      } else {
        assert Linked(s, i - at + e);
        assert r[i] == s[i - at + e] && r[i + 1] == s[i + 1 - at + e];
      }
    }
    if r != [] && e < |s| {
      assert r[|r| - 1] == s[|s| - 1];
    }
  }

  /** The cut-out run, once its last node is unlinked, is a chain of its own. */
  lemma TakenChain<T>(s: seq<ListNode<T>>, at: nat, e: nat)
    requires at <= e <= |s| && Distinct(s)
    requires forall i :: at <= i < e - 1 ==> Linked(s, i)
    requires at < e ==> s[e - 1].next == null
    ensures IsChain(s[at..e])
  {
    var t := s[at..e];
    forall i, j | 0 <= i < j < |t| ensures t[i] != t[j] {
      assert t[i] == s[at + i] && t[j] == s[at + j];
    }
    forall i | 0 <= i < |t| - 1 ensures Linked(t, i) {
      assert Linked(s, at + i);
      assert t[i] == s[at + i] && t[i + 1] == s[at + i + 1];
    }
  }

  lemma RemovedTakenAt<X>(s: seq<X>, at: nat, k: int)
    requires at <= |s| && k > 0
    ensures Removed(s, at, k) == s[..at] + s[Min(at + k, |s|)..]
    ensures Taken(s, at, k) == s[at..Min(at + k, |s|)]
  {
  }

  /** With an up-to-date tail, the tail `removeFirst` leaves is the last node, unless a deep anchor's run reaches the end. */
  lemma RemovedTail<T>(s: seq<ListNode<T>>, at: nat, k: int, t0: ListNode?<T>, h: ListNode?<T>, t: ListNode?<T>)
    requires at <= |s| && k > 0 && Distinct(s)
    requires t0 == (if s == [] then null else s[|s| - 1]) && (at <= 1 || at + k < |s|)
    requires var e := Min(at + k, |s|);
      h == if at == 0 then (if e < |s| then s[e] else null) else s[0]
    requires t == if at + k > |s| || t0 == s[at + k - 1] then h else t0
    ensures var rest := s[..at] + s[Min(at + k, |s|)..];
      t == if rest == [] then null else rest[|rest| - 1]
  {
  }

  /** The front `s[..k]`, cut after its last node, hung after the chain `c`. */
  lemma RotatedChain<T>(s: seq<ListNode<T>>, k: nat, c: seq<ListNode<T>>)
    requires 1 <= k <= |s| && c != [] && Distinct(s) && Distinct(c) && Disjoint(s[..k], c)
    requires forall i :: 0 <= i < k - 1 ==> Linked(s, i)
    requires s[k - 1].next == null
    requires forall i :: 0 <= i < |c| - 1 ==> Linked(c, i)
    requires c[|c| - 1].next == s[0]
    ensures IsChain(c + s[..k])
  {
    var r := c + s[..k];
    forall i, j | 0 <= i < j < |r| ensures r[i] != r[j] {
      if j < |c| {
      } else if i < |c| {
        assert r[j] == s[j - |c|] && r[j] in s[..k];
      } else {
        assert r[j] == s[j - |c|] && r[i] == s[i - |c|];
      }
    }
    forall i | 0 <= i < |r| - 1 ensures Linked(r, i) {
      if i < |c| - 1 {
        assert Linked(c, i);
      } else if i == |c| - 1 {
        assert r[i + 1] == s[0];
      } else {
        assert Linked(s, i - |c|);
        assert r[i] == s[i - |c|] && r[i + 1] == s[i + 1 - |c|];
      }
    }
  }

  lemma FirstIndexAt<T>(s: seq<T>, p: T -> bool, i: nat)
    requires i <= |s| && (i < |s| ==> p(s[i])) && forall j :: 0 <= j < i ==> !p(s[j])
    ensures FirstIndexWhere(s, p) == i
  {
  }

  class LinkedList<T(==)> {
    var head: ListNode?<T>
    var tail: ListNode?<T>
    ghost var nodes: seq<ListNode<T>>

    ghost predicate Valid()
      reads this, nodes
    {
      ChainFrom(head, nodes)
    }

    /** The cached tail is the last node, or null for the empty list. */
    ghost predicate TailOk()
      reads this
    {
      tail == if nodes == [] then null else nodes[|nodes| - 1]
    }

    ghost function Contents(): seq<T>
      reads this
    {
      Values(nodes)
    }

    /** `init(head:)`: adopts the chain from `head` and finds its last node. */
    constructor FromHead(head: ListNode?<T>, ghost chain: seq<ListNode<T>>)
      requires ChainFrom(head, chain)
      ensures Valid() && TailOk()
      ensures this.head == head && nodes == chain
    {
      this.head := head;
      tail := null;
      nodes := chain;
      new;
      if head != null {
        tail := head.Last(chain);
      }
    }

    /** `empty`. */
    constructor Empty()
      ensures Valid() && TailOk() && nodes == []
    {
      head, tail, nodes := null, null, [];
    }

    /** `init(values:)`: an empty list into which `values` are inserted. */
    constructor FromValues(values: seq<T>)
      ensures Valid() && TailOk() && Contents() == values
      ensures forall n :: n in nodes ==> fresh(n)
    {
      head, tail, nodes := null, null, [];
      new;
      InsertValues(values);
    }

    function IsEmpty(): (b: bool)
      reads this, nodes
      requires Valid()
      ensures b <==> Contents() == []
    {
      head == null
    }

    function First(): (n: ListNode?<T>)
      reads this, nodes
      requires Valid()
      ensures n == null <==> nodes == []
      ensures n != null ==> n == nodes[0] && n.value == Contents()[0]
    {
      head
    }

    /** `last` returns the cached tail; it is the last node whenever the tail is up to date. */
    function Last(): (n: ListNode?<T>)
      reads this
      ensures TailOk() ==> (n == null <==> nodes == [])
      ensures TailOk() && n != null ==> n == nodes[|nodes| - 1]
    {
      tail
    }

    /** `findNode(where:)`: the first node whose value passes `p`, or null. */
    method FindNode(p: T -> bool) returns (r: ListNode?<T>)
      requires Valid()
      ensures var i := FirstIndexWhere(Contents(), p);
        r == if i < |nodes| then nodes[i] else null
    {
      ValuesAt(nodes);
      var node := head;
      ghost var i := 0;
      while node != null
        invariant 0 <= i <= |nodes|
        invariant node == if i < |nodes| then nodes[i] else null
        invariant forall j :: 0 <= j < i ==> !p(nodes[j].value)
        decreases |nodes| - i
      {
        if p(node.value) {
          FirstIndexAt(Contents(), p, i);
          return node;
        }
        ChainNext(nodes, i);
        node := node.next;
        i := i + 1;
      }
      FirstIndexAt(Contents(), p, i);
      return null;
    }

    /**
     * `findNodeBefore(node:)`: null for the head; otherwise the first node whose
     * successor is structurally equal to `node`. Only the node `|nodeChain|`
     * places from the end can match, so a member's predecessor is found.
     */
    method FindNodeBefore(node: ListNode<T>, ghost nodeChain: seq<ListNode<T>>) returns (r: ListNode?<T>)
      requires Valid() && ChainFrom(node, nodeChain)
      ensures var k := |nodes| - |nodeChain|;
        r == if head != node && 1 <= k && Values(nodes[k..]) == Values(nodeChain) then nodes[k - 1] else null
      ensures node in nodes ==> r == if node == head then null else nodes[IndexOf(nodes, node) - 1]
    {
      MemberMatches(node, nodeChain);
      if head == node {
        return null;
      }
      r := ScanBefore(node, nodeChain);
    }

    /** The loop of `findNodeBefore`: walks from the head, testing each successor against `node`. */
    method ScanBefore(node: ListNode<T>, ghost nodeChain: seq<ListNode<T>>) returns (r: ListNode?<T>)
      requires Valid() && ChainFrom(node, nodeChain)
      ensures var k := |nodes| - |nodeChain|;
        r == if 1 <= k && Values(nodes[k..]) == Values(nodeChain) then nodes[k - 1] else null
    {
      ghost var k := |nodes| - |nodeChain|;
      ValuesLength(nodeChain);
      var before := head;
      ghost var i := 0;
      ChainNext(nodes, 0);
      while before != null && before.next != null
        invariant before != null ==> 0 <= i < |nodes| && before == nodes[i]
        invariant before != null ==> before.next == if i < |nodes| - 1 then nodes[i + 1] else null
        invariant before == null ==> nodes == []
        invariant !(1 <= k <= i && Values(nodes[k..]) == Values(nodeChain))
        decreases |nodes| - i
      {
        var next := before.next;
        ChainSuffix(nodes, i + 1);
        ValuesLength(nodes[i + 1..]);
        if NodesEqual(next, node, nodes[i + 1..], nodeChain) {
          return before;
        }
        ChainNext(nodes, i + 1);
        before := next;
        i := i + 1;
      }
      return null;
    }

    /** A member of the list has the suffix from its position as its chain. */
    lemma MemberMatches(node: ListNode<T>, nodeChain: seq<ListNode<T>>)
      requires Valid() && ChainFrom(node, nodeChain)
      ensures node in nodes ==> nodeChain == nodes[IndexOf(nodes, node)..]
    {
      if node in nodes {
        ChainSuffix(nodes, IndexOf(nodes, node));
        ChainUnique(node, nodeChain, nodes[IndexOf(nodes, node)..]);
      }
    }

    /** `push`: a new first node; the tail is set only on an empty list. */
    method Push(v: T)
      requires Valid()
      modifies this
      ensures Valid() && fresh(head) && nodes == [head] + old(nodes)
      ensures Contents() == [v] + old(Contents())
      ensures tail == if old(tail) == null then head else old(tail)
      ensures old(TailOk()) ==> TailOk()
    {
      ghost var s := nodes;
      var n := new ListNode(v, head);
      ChainCons(n, s);
      assert ([n] + s)[1..] == s;
      head := n;
      nodes := [n] + s;
      if tail == null {
        tail := n;
      }
    }

    /** `pop`: nothing for the empty list; otherwise the first value, dropping its node. */
    method Pop() returns (r: Option<T>)
      requires Valid()
      modifies this
      ensures Valid()
      ensures old(nodes) == [] ==> r == None && head == old(head) && tail == old(tail) && nodes == []
      ensures old(nodes) != [] ==>
        r == Some(old(Contents())[0]) && nodes == old(nodes)[1..] &&
        tail == (if nodes == [] then null else old(tail))
      ensures old(TailOk()) ==> TailOk()
    {
      if head == null {
        return None;
      }
      var first := head;
      ChainSuffix(nodes, 1);
      ChainNext(nodes, 0);
      head := first.next;
      nodes := nodes[1..];
      if head == null {
        tail := null;
      }
      return Some(first.value);
    }

    /**
     * `append`: a new node after the cached tail (or as the only node when the
     * tail is null). With an up-to-date tail this adds `v` at the end; a tail
     * left behind outside the list gets the new node, and the list is unchanged.
     */
    method Append(v: T)
      requires Valid()
      modifies this, nodes, tail
      ensures Valid() && tail != null && fresh(tail)
      ensures nodes == if old(tail) == null then [tail]
        else if old(tail) in old(nodes) then old(nodes)[..IndexOf(old(nodes), old(tail)) + 1] + [tail]
        else old(nodes)
      ensures old(TailOk()) ==> Contents() == old(Contents()) + [v] && TailOk()
      ensures old(tail) != null && old(tail) !in old(nodes) ==>
        head == old(head) && Contents() == old(Contents()) && old(tail).next == tail
    {
      ghost var s := nodes;
      var n := new ListNode(v, null);
      assert Values([n]) == [v] by {
        assert [n][1..] == [];
      }
      if tail != null {
        ghost var stale := tail !in s;
        ghost var t := if stale then 0 else IndexOf(s, tail);
        if TailOk() {
          assert t == |s| - 1 && s[..t + 1] == s;
        }
        label before:
        tail.next := n;
        tail := n;
        if !stale {
          nodes := s[..t + 1] + [n];
          forall i | 0 <= i < t ensures Linked(s, i) {
            assert old@before(Linked(s, i));
          }
          SnocChain(s, t, n);
          ValuesConcat(s[..t + 1], [n]);
        }
      } else {
        head, tail, nodes := n, n, [n];
        ChainCons(n, []);
      }
    }

    /**
     * `insert(list, after:)`: links `list`'s chain in after the anchor (or at
     * the front). The tail is refreshed only when it was null, and an empty
     * `list` cuts the receiver after the anchor.
     */
    method Insert(list: LinkedList<T>, after: ListNode?<T>)
      requires Valid() && list.Valid() && list.TailOk() && list != this
      requires after == null || after in nodes
      requires Disjoint(nodes, list.nodes)
      modifies this, nodes, list.nodes
      ensures Valid()
      ensures nodes == InsertedAsWritten(old(nodes), Start(old(nodes), after), list.nodes)
      ensures tail == if old(tail) == null then list.tail else old(tail)
    {
      Splice(list, after, Start(nodes, after));
      if tail == null {
        tail := list.tail;
      }
    }

    /** The relinking step of `insert(list, after:)`; `at` is the position just after the anchor. */
    method Splice(list: LinkedList<T>, after: ListNode?<T>, ghost at: nat)
      requires Valid() && list.Valid() && list.TailOk() && list != this
      requires at <= |nodes| && (after == null <==> at == 0) && (at > 0 ==> after == nodes[at - 1])
      requires Disjoint(nodes, list.nodes)
      modifies this, nodes, list.nodes
      ensures Valid() && nodes == InsertedAsWritten(old(nodes), at, list.nodes) && tail == old(tail)
    {
      ghost var s, l := nodes, list.nodes;
      ChainNext(s, at - 1);
      ghost var following: ListNode?<T> := if at < |s| then s[at] else null;
      assert at > 0 ==> after.next == following;
      assert at == 0 ==> head == following;
      assert l != [] ==> list.tail == l[|l| - 1] && list.head == l[0] && list.tail != after;
      label relink:
      if after != null {
        if list.tail != null {
          list.tail.next := after.next;
        }
        after.next := list.head;
      } else {
        if list.tail != null {
          list.tail.next := head;
        }
        head := list.head;
      }
      nodes := InsertedAsWritten(s, at, l);
      forall i | 0 <= i < |s| - 1 && i != at - 1 ensures Linked(s, i) {
        assert s[i] in s;
        assert old@relink(Linked(s, i));
      }
      forall i | 0 <= i < |l| - 1 ensures Linked(l, i) {
        assert l[i] in l;
        assert old@relink(Linked(l, i));
      }
      if at < |s| {
        assert s[|s| - 1] in s;
      }
      assert l != [] ==> l[|l| - 1].next == following;
      InsertedChain(s, at, l);
    }

    /** `insert(values)`: pushes the values last to first, so they end up in front in their order. */
    method InsertValues(values: seq<T>)
      requires Valid()
      modifies this
      ensures Valid() && Contents() == values + old(Contents())
      ensures forall n :: n in nodes ==> n in old(nodes) || fresh(n)
      ensures old(tail) != null ==> tail == old(tail)
      ensures old(TailOk()) ==> TailOk()
    {
      var i := |values|;
      while i > 0
        invariant 0 <= i <= |values|
        invariant Valid() && Contents() == values[i..] + old(Contents())
        invariant forall n :: n in nodes ==> n in old(nodes) || fresh(n)
        invariant old(tail) != null ==> tail == old(tail)
        invariant old(TailOk()) ==> TailOk()
      {
        i := i - 1;
        Push(values[i]);
        assert values[i..] == [values[i]] + values[i + 1..];
      }
    }

    /**
     * `removeFirst(k, after:)`: detaches the run of up to `k` nodes after the
     * anchor (or from the head) and returns it as a new list. When the run
     * reaches the end, or ends at the cached tail, the tail is set to the head.
     */
    method RemoveFirst(k: int, after: ListNode?<T>) returns (r: LinkedList<T>)
      requires Valid() && (after == null || after in nodes)
      modifies this, nodes
      ensures Valid() && fresh(r) && r.Valid() && r.TailOk()
      ensures var at, n := Start(old(nodes), after), |old(nodes)|;
        nodes == Removed(old(nodes), at, k) && r.nodes == Taken(old(nodes), at, k) &&
        tail == if k <= 0 then old(tail)
                else if at + k > n || old(tail) == old(nodes)[at + k - 1] then head
                else old(tail)
      ensures k <= 0 ==> head == old(head)
      ensures var at := Start(old(nodes), after);
        old(TailOk()) && (at <= 1 || at + k < |old(nodes)|) ==> TailOk()
    {
      if k <= 0 {
        r := new LinkedList.Empty();
        return;
      }
      var result;
      ghost var taken;
      result, taken := Detach(k, after, Start(nodes, after));
      r := new LinkedList.FromHead(result, taken);
    }

    /**
     * The unlinking part of `removeFirst` for `k > 0`, with `at` the position
     * just after the anchor: returns the first detached node and, as ghost, the
     * detached chain.
     */
    method Detach(k: int, after: ListNode?<T>, ghost at: nat) returns (result: ListNode?<T>, ghost taken: seq<ListNode<T>>)
      requires Valid() && k > 0
      requires at <= |nodes| && (after == null <==> at == 0) && (at > 0 ==> after == nodes[at - 1])
      modifies this, nodes
      ensures Valid() && ChainFrom(result, taken)
      ensures var n := |old(nodes)|;
        nodes == Removed(old(nodes), at, k) && taken == Taken(old(nodes), at, k) &&
        tail == if at + k > n || old(tail) == old(nodes)[at + k - 1] then head else old(tail)
      ensures old(TailOk()) && (at <= 1 || at + k < |old(nodes)|) ==> TailOk()
    {
      ghost var s, n, t0 := nodes, |nodes|, tail;
      ghost var e := Min(at + k, n);
      ghost var tailOk := TailOk();
      ChainSuffix(s, at);
      ChainNext(s, e - 1);
      ChainNext(s, at - 1);
      result := if after != null then after.next else head;
      var lastTaken := if result == null then null else result.NextK(k - 1, s[at..]);
      assert lastTaken == if at + k <= n then s[at + k - 1] else null;
      var rest := if lastTaken == null then null else lastTaken.next;
      Unlink(after, lastTaken, rest, at, e);
      RemovedTakenAt(s, at, k);
      taken := s[at..e];
      if tailOk && (at <= 1 || at + k < n) {
        RemovedTail(s, at, k, t0, head, tail);
      }
    }

    /**
     * The unlinking step of `removeFirst`: the run `nodes[at..e]` is cut out
     * behind the anchor (or the head), and its last node, when it is the
     * `k`-th, is cut off from the rest.
     */
    method Unlink(after: ListNode?<T>, lastTaken: ListNode?<T>, rest: ListNode?<T>, ghost at: nat, ghost e: nat)
      requires Valid() && at <= e <= |nodes|
      requires (after == null <==> at == 0) && (at > 0 ==> after == nodes[at - 1])
      requires lastTaken == null ==> e == |nodes|
      requires lastTaken != null ==> at < e && lastTaken == nodes[e - 1]
      requires rest == if e < |nodes| then nodes[e] else null
      modifies this, nodes
      ensures Valid() && nodes == old(nodes)[..at] + old(nodes)[e..] && IsChain(old(nodes)[at..e])
      ensures head == if at == 0 then rest else old(head)
      ensures tail == if lastTaken == null || old(tail) == lastTaken then head else old(tail)
    {
      ghost var s, n := nodes, |nodes|;
      ChainNext(s, e - 1);
      ChainNext(s, n - 1);
      label unlink:
      if after != null {
        after.next := rest;
      } else {
        head := rest;
      }
      if lastTaken != null {
        lastTaken.next := null;
      }
      if lastTaken == null || tail == lastTaken {
        tail := head;
      }
      nodes := s[..at] + s[e..];
      forall i | 0 <= i < n - 1 && i != at - 1 && i != e - 1 ensures Linked(s, i) {
        assert old@unlink(Linked(s, i));
      }
      RemovedChain(s, at, e);
      TakenChain(s, at, e);
    }

    /**
     * `circularRotate(to:)`: true at once when `node` is the head; false when
     * no predecessor is found; otherwise the predecessor ends the list, `node`
     * becomes the head and the old front follows `node`'s chain.
     */
    method CircularRotate(node: ListNode<T>, ghost nodeChain: seq<ListNode<T>>) returns (b: bool)
      requires Valid() && ChainFrom(node, nodeChain)
      requires node in nodes || Disjoint(nodes, nodeChain)
      modifies this, nodes, nodeChain
      ensures Valid()
      ensures old(head) == node ==> b && nodes == old(nodes) && tail == old(tail)
      ensures var k := |old(nodes)| - |nodeChain|;
        old(head) != node ==>
          if 1 <= k && Values(old(nodes)[k..]) == Values(nodeChain)
          then b && head == node && nodes == nodeChain + old(nodes)[..k] && tail == old(nodes)[k - 1]
          else !b && nodes == old(nodes) && head == old(head) && tail == old(tail)
      ensures node in old(nodes) ==> b && nodes == Rotated(old(nodes), IndexOf(old(nodes), node))
      ensures old(TailOk()) || (b && old(head) != node) ==> TailOk()
    {
      MemberMatches(node, nodeChain);
      if head == node {
        return true;
      }
      var before := FindNodeBefore(node, nodeChain);
      if before == null {
        return false;
      }
      FrontDisjoint(node, nodeChain, |nodes| - |nodeChain|);
      RotateAfter(before, node, nodeChain, |nodes| - |nodeChain|);
      b := true;
    }

    /** The relinking step of `circularRotate`: `before` ends the list, `node` heads it and the front `nodes[..k]` follows `node`'s chain. */
    method RotateAfter(before: ListNode<T>, node: ListNode<T>, ghost nodeChain: seq<ListNode<T>>, ghost k: nat)
      requires Valid() && ChainFrom(node, nodeChain) && 1 <= k <= |nodes| && before == nodes[k - 1]
      requires Disjoint(nodes[..k], nodeChain)
      modifies this, nodes, nodeChain
      ensures Valid() && head == node && nodes == nodeChain + old(nodes)[..k] && tail == before
    {
      ghost var s, c := nodes, nodeChain;
      ghost var front := s[..k];
      var shift := head;
      var last := node.Last(nodeChain);
      assert before == front[k - 1] && before in front && last in c && front[0] == shift;
      label relink:
      before.next := null;
      head := node;
      last.next := shift;
      tail := before;
      nodes := c + s[..k];
      forall i | 0 <= i < k - 1 ensures Linked(s, i) {
        assert front[i] == s[i] && front[i] in front;
        assert old@relink(Linked(s, i));
      }
      forall i | 0 <= i < |c| - 1 ensures Linked(c, i) {
        assert c[i] in c;
        assert old@relink(Linked(c, i));
      }
      RotatedChain(s, k, c);
    }

    /** The front up to the node before a structural match shares no node with the match's chain. */
    lemma FrontDisjoint(node: ListNode<T>, nodeChain: seq<ListNode<T>>, k: int)
      requires Valid() && ChainFrom(node, nodeChain) && 1 <= k <= |nodes|
      requires node in nodes || Disjoint(nodes, nodeChain)
      requires node in nodes ==> nodeChain == nodes[IndexOf(nodes, node)..] && k == IndexOf(nodes, node)
      ensures Disjoint(nodes[..k], nodeChain)
    {
      forall x | x in nodes[..k] ensures x !in nodeChain {
        if node in nodes {
          var i :| 0 <= i < k && nodes[i] == x;
          assert forall j :: 0 <= j < |nodeChain| ==> nodeChain[j] == nodes[k + j];
        } else {
          assert x in nodes;
        }
      }
    }

    /** `makeIterator`: an iterator starting at the head. */
    method MakeIterator() returns (it: ListIterator<T>)
      requires Valid()
      ensures fresh(it) && it.Valid() && it.list == this && it.current == head && it.rest == nodes
    {
      it := new ListIterator(this, head, nodes);
    }

    /** `asArray`: the values met while iterating, in order. */
    method AsArray() returns (vs: seq<T>)
      requires Valid()
      ensures vs == Contents()
    {
      var it := MakeIterator();
      ghost var ns := nodes;
      vs := [];
      var n := it.Next();
      ghost var i := 0;
      while n != null
        invariant it.Valid() && 0 <= i <= |ns|
        invariant vs == Values(ns[..i])
        invariant n == if i < |ns| then ns[i] else null
        invariant n != null ==> it.rest == ns[i + 1..]
        decreases |ns| - i
      {
        ValuesSnoc(ns, i);
        vs := vs + [n.value];
        n := it.Next();
        i := i + 1;
      }
      assert ns[..i] == ns;
    }
  }

  /** `ListIterator`: walks a chain, handing out each node before stepping past it. */
  class ListIterator<T(==)> {
    const list: LinkedList<T>
    var current: ListNode?<T>
    ghost var rest: seq<ListNode<T>>

    ghost predicate Valid()
      reads this, rest
    {
      ChainFrom(current, rest)
    }

    /** Starts at `current`, or at the list's first node when `current` is null. */
    constructor (list: LinkedList<T>, current: ListNode?<T>, ghost chain: seq<ListNode<T>>)
      requires current != null ==> ChainFrom(current, chain)
      requires current == null ==> list.Valid()
      ensures this.list == list && this.current == if current != null then current else list.head
      ensures Valid() && rest == if current != null then chain else list.nodes
    {
      this.list := list;
      this.current := if current != null then current else list.head;
      rest := if current != null then chain else list.nodes;
    }

    /** The current node, after which the iterator moves to its successor; once exhausted it stays exhausted. */
    method Next() returns (n: ListNode?<T>)
      requires Valid()
      modifies this
      ensures Valid() && n == old(current)
      ensures n == null ==> current == null && rest == []
      ensures n != null ==> current == n.next && rest == old(rest)[1..]
    {
      n := current;
      if current != null {
        ChainSuffix(rest, 1);
        ChainNext(rest, 0);
        current := current.next;
        rest := rest[1..];
      }
    }
  }
}
