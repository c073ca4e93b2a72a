/** `IntLoc`: a two-dimensional integer location with component-wise `+` and `+=`. */
module IntLocs {
  /** Equality of the datatype is structural on `(x, y)`, as Swift's synthesised `Equatable`. */
  datatype IntLoc = IntLoc(x: int, y: int)

  function Plus(lhs: IntLoc, rhs: IntLoc): IntLoc
  {
    IntLoc(lhs.x + rhs.x, lhs.y + rhs.y)
  }

  /** `lhs += rhs` on an `inout` location: the new value of `lhs` is `lhs + rhs`. */
  method AddAssign(lhs: IntLoc, rhs: IntLoc) returns (lhs': IntLoc)
    ensures lhs'.x == lhs.x + rhs.x && lhs'.y == lhs.y + rhs.y
    ensures lhs' == Plus(lhs, rhs)
  {
    lhs' := Plus(lhs, rhs);
  }

  /** `+` is component-wise integer addition: commutative, associative, with `(0, 0)` as identity. */
  lemma PlusLaws(a: IntLoc, b: IntLoc, c: IntLoc)
    ensures Plus(a, b) == Plus(b, a)
    ensures Plus(Plus(a, b), c) == Plus(a, Plus(b, c))
    ensures Plus(a, IntLoc(0, 0)) == a
  {
  }
}
