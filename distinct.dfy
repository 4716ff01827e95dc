/** The `distinctUntilChanged` filter that `observable` applies to the state subject. */
module Distinct {

  /** No two neighbouring values are equal. */
  predicate NoStutter<S(==)>(xs: seq<S>)
  {
    forall i :: 0 < i < |xs| ==> xs[i - 1] != xs[i]
  }

  /**
   * What a subscriber sees of the pushes `xs`: each pushed value is delivered
   * unless it equals the value pushed just before it.
   */
  function DistinctUntilChanged<S(==)>(xs: seq<S>): (r: seq<S>)
    ensures |r| <= |xs|
    ensures |xs| > 0 ==> |r| > 0 && r[0] == xs[0] && r[|r| - 1] == xs[|xs| - 1]
    decreases |xs|
  {
    if |xs| <= 1 then xs
    else
      var init := xs[..|xs| - 1];
      if xs[|xs| - 1] == init[|init| - 1] then DistinctUntilChanged(init)
      else DistinctUntilChanged(init) + [xs[|xs| - 1]]
  }

  /** The delivered sequence never repeats a value twice in a row. */
  lemma {:induction false} DistinctNoStutter<S>(xs: seq<S>)
    ensures NoStutter(DistinctUntilChanged(xs))
    decreases |xs|
  {
    if |xs| > 1 {
      var init := xs[..|xs| - 1];
      DistinctNoStutter(init);
    }
  }

  /** Every pushed value is delivered at some point, and nothing else is. */
  lemma {:induction false} DistinctSameElements<S>(xs: seq<S>)
    ensures forall x :: x in DistinctUntilChanged(xs) <==> x in xs
    decreases |xs|
  {
    if |xs| > 1 {
      var init := xs[..|xs| - 1];
      DistinctSameElements(init);
      assert xs == init + [xs[|xs| - 1]];
    }
  }

  /** A sequence without stutter passes the filter unchanged. */
  lemma {:induction false} DistinctOfNoStutter<S>(xs: seq<S>)
    requires NoStutter(xs)
    ensures DistinctUntilChanged(xs) == xs
    decreases |xs|
  {
    if |xs| > 1 {
      var init := xs[..|xs| - 1];
      assert NoStutter(init);
      DistinctOfNoStutter(init);
      assert xs[|xs| - 2] != xs[|xs| - 1];
      assert xs == init + [xs[|xs| - 1]];
    }
  }

  /** Filtering twice is filtering once. */
  lemma {:induction false} DistinctIdempotent<S>(xs: seq<S>)
    ensures DistinctUntilChanged(DistinctUntilChanged(xs)) == DistinctUntilChanged(xs)
  {
    DistinctNoStutter(xs);
    DistinctOfNoStutter(DistinctUntilChanged(xs));
  }

  /**
   * The positions at which `xs` changes value, in increasing order;
   * `ChangesAreChangePoints` says which positions these are.
   */
  function Changes<S(==)>(xs: seq<S>): (k: seq<nat>)
    ensures forall j :: 0 <= j < |k| ==> k[j] < |xs|
    ensures forall a, b :: 0 <= a < b < |k| ==> k[a] < k[b]
    decreases |xs|
  {
    if |xs| == 0 then []
    else
      var n := |xs| - 1;
      Changes(xs[..n]) + if n == 0 || xs[n - 1] != xs[n] then [n] else []
  }

  /** A position is a change exactly when it is 0 or its value differs from the one before. */
  lemma {:induction false} ChangesAreChangePoints<S>(xs: seq<S>)
    ensures forall i :: 0 <= i < |xs| ==> (i in Changes(xs) <==> i == 0 || xs[i - 1] != xs[i])
    decreases |xs|
  {
    if |xs| > 0 {
      var n := |xs| - 1;
      var init := xs[..n];
      ChangesAreChangePoints(init);
      var c := Changes(init);
      var tail: seq<nat> := if n == 0 || xs[n - 1] != xs[n] then [n] else [];
      assert Changes(xs) == c + tail;
      forall i | 0 <= i < |xs|
        ensures i in Changes(xs) <==> i == 0 || xs[i - 1] != xs[i]
      {
        assert i in Changes(xs) <==> i in c || i in tail;
        if i < n {
          assert i !in tail;
          assert i in c <==> i == 0 || init[i - 1] != init[i];
          assert i > 0 ==> init[i - 1] == xs[i - 1] && init[i] == xs[i];
        } else {
          assert n !in c;
        }
      }
    }
  }

  /**
   * The delivered sequence is `xs` read at its change positions, in push
   * order: the `j`-th delivered value is the push at the `j`-th change.
   */
  lemma {:induction false} DistinctAtChanges<S>(xs: seq<S>)
    ensures |DistinctUntilChanged(xs)| == |Changes(xs)|
    ensures forall j :: 0 <= j < |Changes(xs)| ==> DistinctUntilChanged(xs)[j] == xs[Changes(xs)[j]]
    decreases |xs|
  {
    if |xs| > 1 {
      var n := |xs| - 1;
      var init := xs[..n];
      DistinctAtChanges(init);
      assert forall j :: 0 <= j < |Changes(init)| ==> xs[Changes(init)[j]] == init[Changes(init)[j]];
    }
  }

  /** One more push: the filter delivers it iff it differs from the push before. */
  lemma DistinctDropLast<S>(xs: seq<S>, init: seq<S>, last: seq<S>)
    requires |xs| > 1 && init == xs[..|xs| - 1]
    requires last == if xs[|xs| - 2] == xs[|xs| - 1] then [] else [xs[|xs| - 1]]
    ensures DistinctUntilChanged(xs) == DistinctUntilChanged(init) + last
  {
  }

  /**
   * A subscriber that attaches after push `i` sees `DistinctUntilChanged(xs[i..])`.
   * Apart from its first value, that is exactly what a subscriber present from
   * the start receives after push `i - 1`; the first value is new to it only
   * when push `i` changed the value.
   */
  lemma {:induction false} DistinctSplit<S>(xs: seq<S>, i: nat)
    requires 0 < i < |xs|
    ensures DistinctUntilChanged(xs) ==
      DistinctUntilChanged(xs[..i]) +
        if xs[i - 1] == xs[i] then DistinctUntilChanged(xs[i..])[1..] else DistinctUntilChanged(xs[i..])
    decreases |xs|
  {
    var n := |xs| - 1;
    if n == i {
      assert xs[i..] == [xs[i]];
      DistinctDropLast(xs, xs[..i], if xs[i - 1] == xs[i] then [] else [xs[i]]);
    } else {
      var init, q, before, mid := xs[..n], xs[i..], xs[..i], xs[i..n];
      var last: seq<S> := if xs[n - 1] == xs[n] then [] else [xs[n]];
      DistinctDropLast(xs, init, last);
      assert q[..|q| - 1] == mid && q[|q| - 1] == xs[n] && q[|q| - 2] == xs[n - 1];
      DistinctDropLast(q, mid, last);
      DistinctSplit(init, i);
      assert init[..i] == before && init[i..] == mid && init[i - 1] == xs[i - 1] && init[i] == xs[i];
      SplitCompose(DistinctUntilChanged(xs), DistinctUntilChanged(init), DistinctUntilChanged(before),
        DistinctUntilChanged(mid), DistinctUntilChanged(q), last, xs[i - 1] == xs[i]);
    }
  }

  /** The sequence algebra behind one step of `DistinctSplit`. */
  lemma SplitCompose<S>(whole: seq<S>, init: seq<S>, before: seq<S>, mid: seq<S>, after: seq<S>, last: seq<S>, same: bool)
    requires |mid| > 0
    requires whole == init + last && after == mid + last
    requires init == before + if same then mid[1..] else mid
    ensures whole == before + if same then after[1..] else after
  {
    if same {
      assert after[1..] == mid[1..] + last;
    }
  }
}
