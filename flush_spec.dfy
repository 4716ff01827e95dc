/**
 * What one run of `flushQueues` does, stated as a function of the state and
 * the two queues it starts from.
 */
module FlushSpec {
  import opened Reducers
  import opened JobQueue

  /** A read block with tag `tag` was called with `state`. */
  datatype Observation<S> = Observation(tag: nat, state: S)

  /** The state a flush ends in, the values it pushes to the subject, and the read calls it makes. */
  datatype Outcome<S> = Outcome(state: S, pushes: seq<S>, observed: seq<Observation<S>>)

  /** Every reducer the blocks `rs` enqueue, block by block. */
  function SetsOf<S>(rs: seq<Read<S>>): seq<S -> S>
  {
    if |rs| == 0 then [] else rs[0].sets + SetsOf(rs[1..])
  }

  /** No block of `rs` enqueues a further read. */
  predicate Flat<S>(rs: seq<Read<S>>)
  {
    forall i :: 0 <= i < |rs| ==> |rs[i].gets| == 0
  }

  /**
   * Flushing from state `v` with pending reducers `ws` and pending read blocks
   * `rs`: drain and fold the reducers (one push if there were any), run the
   * oldest block on the result, and go on with what is left plus what that
   * block enqueued. Every block runs exactly once; the state ends at the last
   * value pushed, or at `v` when nothing was pushed.
   */
  function Drain<S>(v: S, ws: seq<S -> S>, rs: seq<Read<S>>): (o: Outcome<S>)
    ensures |o.observed| == SizeAll(rs)
    ensures |o.pushes| <= SizeAll(rs) + 1
    ensures o.state == if |o.pushes| == 0 then v else o.pushes[|o.pushes| - 1]
    decreases SizeAll(rs)
  {
    var v1 := Fold(v, ws);
    var p := if |ws| == 0 then [] else [v1];
    if |rs| == 0 then Outcome(v1, p, [])
    else
      SizeAllStep(rs);
      var o := Drain(v1, rs[0].sets, rs[1..] + rs[0].gets);
      Outcome(o.state, p + o.pushes, [Observation(rs[0].tag, v1)] + o.observed)
  }

  /**
   * The order in which a flush runs the blocks `rs` and every block they
   * enqueue: oldest first, each enqueued block joining the end of the queue.
   */
  function Order<S>(rs: seq<Read<S>>): (o: seq<Read<S>>)
    ensures |o| == SizeAll(rs)
    decreases SizeAll(rs)
  {
    if |rs| == 0 then []
    else
      SizeAllStep(rs);
      [rs[0]] + Order(rs[1..] + rs[0].gets)
  }

  /** The blocks queued when the flush starts run first, in FIFO order. */
  lemma {:induction false} OrderStartsWithQueue<S>(rs: seq<Read<S>>)
    ensures |rs| <= |Order(rs)| && Order(rs)[..|rs|] == rs
    decreases SizeAll(rs)
  {
    if |rs| > 0 {
      var rest := rs[1..] + rs[0].gets;
      SizeAllStep(rs);
      OrderStartsWithQueue(rest);
      assert rest[..|rs| - 1] == rs[1..];
      assert Order(rs)[..|rs|] == [rs[0]] + Order(rest)[..|rs| - 1];
    }
  }

  lemma SetsOfCons<S>(r: Read<S>, t: seq<Read<S>>)
    ensures SetsOf([r] + t) == r.sets + SetsOf(t)
  {
    assert ([r] + t)[0] == r && ([r] + t)[1..] == t;
  }

  /**
   * The `k`-th block the flush runs, in run order, sees the state after every
   * pending reducer and every reducer enqueued by the blocks run before it,
   * applied in enqueue order. This covers the blocks enqueued during the flush.
   */
  lemma {:induction false} DrainObservesInRunOrder<S>(v: S, ws: seq<S -> S>, rs: seq<Read<S>>, k: nat)
    requires k < SizeAll(rs)
    ensures |Order(rs)| == |Drain(v, ws, rs).observed|
    ensures Drain(v, ws, rs).observed[k] == Observation(Order(rs)[k].tag, Fold(v, ws + SetsOf(Order(rs)[..k])))
    decreases SizeAll(rs)
  {
    var v1 := Fold(v, ws);
    var rest := rs[1..] + rs[0].gets;
    SizeAllStep(rs);
    DrainStep(v, ws, rs);
    var o := Drain(v1, rs[0].sets, rest);
    if k == 0 {
      assert Order(rs)[..0] == [];
      assert ws + [] == ws;
    } else {
      DrainObservesInRunOrder(v1, rs[0].sets, rest, k - 1);
      assert Drain(v, ws, rs).observed[k] == o.observed[k - 1];
      var before := Order(rest)[..k - 1];
      assert Order(rs)[k] == Order(rest)[k - 1];
      assert Order(rs)[..k] == [rs[0]] + before;
      SetsOfCons(rs[0], before);
      FoldAppend(v, ws, rs[0].sets + SetsOf(before));
    }
  }

  /**
   * A flush ends in the fold, over the starting state, of the pending reducers
   * followed by the reducers of every block it runs, in run order.
   */
  lemma {:induction false} DrainFinalState<S>(v: S, ws: seq<S -> S>, rs: seq<Read<S>>)
    ensures Drain(v, ws, rs).state == Fold(v, ws + SetsOf(Order(rs)))
    decreases SizeAll(rs)
  {
    if |rs| == 0 {
      assert ws + [] == ws;
    } else {
      var v1 := Fold(v, ws);
      var rest := rs[1..] + rs[0].gets;
      SizeAllStep(rs);
      DrainFinalState(v1, rs[0].sets, rest);
      SetsOfCons(rs[0], Order(rest));
      FoldAppend(v, ws, rs[0].sets + SetsOf(Order(rest)));
      FoldAppend(v1, rs[0].sets, SetsOf(Order(rest)));
    }
  }

  /**
   * Each read block already queued when the flush starts runs in FIFO order,
   * and block `k` sees the state after every pending reducer and every reducer
   * enqueued by blocks `0..k-1` has been applied, in enqueue order.
   */
  lemma {:induction false} DrainReadAfterWrite<S>(v: S, ws: seq<S -> S>, rs: seq<Read<S>>, k: nat)
    requires k < |rs|
    ensures k < |Drain(v, ws, rs).observed|
    ensures Drain(v, ws, rs).observed[k] == Observation(rs[k].tag, Fold(v, ws + SetsOf(rs[..k])))
  {
    OrderStartsWithQueue(rs);
    DrainObservesInRunOrder(v, ws, rs, k);
    assert Order(rs)[k] == Order(rs)[..|rs|][k];
    assert Order(rs)[..k] == Order(rs)[..|rs|][..k];
  }

  /**
   * When no block enqueues a further read, the flush runs exactly the queued
   * blocks and ends in the fold of all pending reducers followed by every
   * reducer the blocks enqueued.
   */
  lemma {:induction false} DrainFlat<S>(v: S, ws: seq<S -> S>, rs: seq<Read<S>>)
    requires Flat(rs)
    ensures |Drain(v, ws, rs).observed| == |rs|
    ensures Drain(v, ws, rs).state == Fold(v, ws + SetsOf(rs))
    decreases |rs|
  {
    if |rs| == 0 {
      assert ws + [] == ws;
    } else {
      var v1 := Fold(v, ws);
      assert rs[0].gets == [];
      assert rs[1..] + rs[0].gets == rs[1..];
      DrainFlat(v1, rs[0].sets, rs[1..]);
      FoldAppend(v, ws, SetsOf(rs));
      FoldAppend(v1, rs[0].sets, SetsOf(rs[1..]));
    }
  }

  /** One round of the flush: the reducers, then the oldest read block, then the rest. */
  lemma DrainStep<S>(v: S, ws: seq<S -> S>, rs: seq<Read<S>>)
    requires |rs| > 0
    ensures var o := Drain(Fold(v, ws), rs[0].sets, rs[1..] + rs[0].gets);
      Drain(v, ws, rs) ==
        Outcome(o.state, (if |ws| == 0 then [] else [Fold(v, ws)]) + o.pushes,
                [Observation(rs[0].tag, Fold(v, ws))] + o.observed)
  {
  }

  /** With no read block left, the flush is the reducer fold alone. */
  lemma DrainNoReads<S>(v: S, ws: seq<S -> S>)
    ensures Drain(v, ws, []) == Outcome(Fold(v, ws), if |ws| == 0 then [] else [Fold(v, ws)], [])
  {
  }

  lemma AppendAssoc<T>(a: seq<T>, b: seq<T>, c: seq<T>)
    ensures (a + b) + c == a + (b + c)
  {
  }
}
