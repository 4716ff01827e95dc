/** The reducer fold that `flushSetStateQueue` performs with `reduce`. */
module Reducers {

  /** Applies `reducers` to `s` oldest first: the left fold `reducers.reduce(s, apply)`. */
  function Fold<S>(s: S, reducers: seq<S -> S>): S
    decreases |reducers|
  {
    if |reducers| == 0 then s else Fold(reducers[0](s), reducers[1..])
  }

  /** Folding a concatenation is folding the first part, then the second over its result. */
  lemma {:induction false} FoldAppend<S>(s: S, a: seq<S -> S>, b: seq<S -> S>)
    ensures Fold(s, a + b) == Fold(Fold(s, a), b)
    decreases |a|
  {
    if |a| == 0 {
      assert a + b == b;
    } else {
      assert (a + b)[0] == a[0];
      assert (a + b)[1..] == a[1..] + b;
      FoldAppend(a[0](s), a[1..], b);
    }
  }

  /** Appending one reducer applies it last, to the result of all earlier ones. */
  lemma {:induction false} FoldSnoc<S>(s: S, a: seq<S -> S>, f: S -> S)
    ensures Fold(s, a + [f]) == f(Fold(s, a))
  {
    FoldAppend(s, a, [f]);
    assert [f][1..] == [];
  }
}
