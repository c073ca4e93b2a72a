/** `Set.toggle`: flip the membership of one element, or of each element of a list in turn. */
module SetToggle {
  import opened Seqs

  /** `toggle(_ e:)`: remove `e` when present, insert it otherwise. */
  function Toggle<T(!new)>(s: set<T>, e: T): (r: set<T>)
    ensures e in r <==> e !in s
    ensures forall x :: x != e ==> (x in r <==> x in s)
  {
    if e in s then s - {e} else s + {e}
  }

  /** Toggling the same element twice restores the set. */
  lemma ToggleTwice<T(!new)>(s: set<T>, e: T)
    ensures Toggle(Toggle(s, e), e) == s
  {
  }

  /** `toggle(_ es:)`: the toggles applied in list order; an element ends up flipped iff it occurs an odd number of times. */
  method ToggleAll<T(==,!new)>(s: set<T>, es: seq<T>) returns (r: set<T>)
    ensures forall x :: x in r <==> (x in s) != (Count(es, x) % 2 == 1)
  {
    r := s;
    for i := 0 to |es|
      invariant forall x :: x in r <==> (x in s) != (Count(es[..i], x) % 2 == 1)
    {
      CountSnoc(es[..i], es[i]);
      assert es[..i + 1] == es[..i] + [es[i]];
      r := Toggle(r, es[i]);
    }
    assert es[..|es|] == es;
  }

  lemma {:induction false} CountSnoc<T>(s: seq<T>, e: T)
    ensures forall x :: Count(s + [e], x) == Count(s, x) + (if x == e then 1 else 0)
  {
    if s != [] {
      CountSnoc(s[1..], e);
      assert (s + [e])[1..] == s[1..] + [e];
    }
  }
}
