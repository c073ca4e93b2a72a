/**
 * `ModuloUtils.numberAtLeast`: the first number at or after `atLeast` that
 * leaves remainder `d` modulo `mod`. Swift's `%` truncates toward zero, which
 * `Rem` spells out (Dafny's own `%` is Euclidean).
 */
module ModuloUtils {
  function Abs(a: int): nat
  {
    if a < 0 then -a else a
  }

  /** Swift's `a % m`: the sign of `a`, the magnitude of `|a| mod |m|`. */
  function Rem(a: int, m: int): (r: int)
    requires m != 0
    ensures Abs(r) < Abs(m)
    ensures a >= 0 ==> r >= 0
    ensures a <= 0 ==> r <= 0
  {
    if a >= 0 then a % Abs(m) else -((-a) % Abs(m))
  }

  /** On non-negative operands Swift's `%` and Dafny's agree. */
  lemma RemNonNegative(a: int, m: int)
    requires a >= 0 && m > 0
    ensures Rem(a, m) == a % m
  {
  }

  /** The value `numberAtLeast` computes, for use by other functions. */
  function NumberAtLeast(atLeast: int, mod: int, d: int): int
  {
    if mod == 0 then 0
    else
      var n := atLeast - Rem(atLeast, mod) + d;
      if n < atLeast then n + mod else n
  }

  /** `numberAtLeast(_:whereModulo:equals:)`, step by step as the source does it. */
  method ComputeNumberAtLeast(atLeast: int, mod: int, d: int) returns (n: int)
    ensures mod == 0 ==> n == 0
    ensures atLeast >= 0 && mod > 0 && d >= 0 ==> atLeast <= n && n % mod == d % mod
    ensures atLeast >= 0 && mod > 0 && 0 <= d < mod ==> n < atLeast + mod
    ensures n == NumberAtLeast(atLeast, mod, d)
  {
    if mod == 0 {
      return 0;
    }
    n := atLeast - Rem(atLeast, mod) + d;
    if n < atLeast {
      n := n + mod;
    }
    if atLeast >= 0 && mod > 0 && d >= 0 {
      NumberAtLeastSpec(atLeast, mod, d);
    }
  }

  /**
   * For a non-negative start, a positive modulus and a non-negative remainder the
   * result is at least `atLeast` and congruent to `d`; for `d < mod` it is the
   * least such number.
   */
  lemma NumberAtLeastSpec(atLeast: int, mod: int, d: int)
    requires atLeast >= 0 && mod > 0 && d >= 0
    ensures var n := NumberAtLeast(atLeast, mod, d);
      atLeast <= n && n % mod == d % mod &&
      (d < mod ==> n < atLeast + mod && forall m :: atLeast <= m < n ==> m % mod != d)
  {
    var k := NumberAtLeastShape(atLeast, mod, d);
    var n := NumberAtLeast(atLeast, mod, d);
    var dq, dr := d / mod, d % mod;
    ModUnique(d, mod, dq, dr);
    assert n == k * mod + dq * mod + dr;
    MulAdd(k, dq, mod);
    ModUnique(n, mod, k + dq, dr);
    if d < mod {
      forall m | atLeast <= m < n ensures m % mod != d {
        NotEarlier(atLeast, mod, d, k, m);
      }
    }
  }

  /** The result is `k * mod + d` for the multiple `k * mod` at most `mod` below `atLeast`. */
  lemma NumberAtLeastShape(atLeast: int, mod: int, d: int) returns (k: int)
    requires atLeast >= 0 && mod > 0 && d >= 0
    ensures NumberAtLeast(atLeast, mod, d) == k * mod + d
    ensures atLeast <= k * mod + d
    ensures d < mod ==> k * mod + d - mod < atLeast
  {
    var q := atLeast / mod;
    RemNonNegative(atLeast, mod);
    var base := q * mod;
    assert atLeast == base + atLeast % mod;
    if base + d < atLeast {
      k := q + 1;
      MulAdd(q, 1, mod);
    } else {
      k := q;
    }
  }

  lemma NotEarlier(atLeast: int, mod: int, d: int, k: int, m: int)
    requires mod > 0 && 0 <= d < mod
    requires atLeast <= m < k * mod + d && k * mod + d - mod < atLeast
    ensures m % mod != d
  {
    if m % mod == d {
      var j := m / mod;
      assert m == j * mod + d;
      if j < k {
        MulMono(j + 1, k, mod);
        MulAdd(j, 1, mod);
      } else {
        MulMono(k, j, mod);
      }
    }
  }

  lemma MulAdd(a: int, b: int, m: int)
    ensures (a + b) * m == a * m + b * m
  {
  }

  lemma MulMono(a: int, b: int, m: int)
    requires a <= b && m >= 0
    ensures a * m <= b * m
  {
    var c := b - a;
    MulAdd(a, c, m);
  }

  /** Euclidean division is unique: a decomposition `k * m + r` with `0 <= r < m` is `a / m`, `a % m`. */
  lemma ModUnique(a: int, m: int, k: int, r: int)
    requires m > 0 && 0 <= r < m && a == k * m + r
    ensures a % m == r && a / m == k
  {
    var k', r' := a / m, a % m;
    assert a == k' * m + r';
    if k < k' {
      MulMono(k + 1, k', m);
      MulAdd(k, 1, m);
    } else if k > k' {
      MulMono(k' + 1, k, m);
      MulAdd(k', 1, m);
    }
  }

  /** The table of the source's unit test. */
  lemma NumberAtLeastExamples()
    ensures NumberAtLeast(0, 1, 0) == 0
    ensures NumberAtLeast(0, 1, 1) == 1
    ensures NumberAtLeast(0, 3, 2) == 2
    ensures NumberAtLeast(100, 3, 2) == 101
    ensures NumberAtLeast(101, 27, 7) == 115
  {
    assert Rem(0, 1) == 0 && Rem(0, 3) == 0;
    assert Rem(100, 3) == 1 by {
      ModUnique(100, 3, 33, 1);
    }
    assert Rem(101, 27) == 20 by {
      ModUnique(101, 27, 3, 20);
    }
  }
}
