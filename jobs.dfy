/** The `Jobs` holder of pending writes and reads, and what a read block does. */
module JobQueue {

  datatype Option<T> = None | Some(value: T)

  /**
   * A read block (`StateBlock`). When run it records the state it is given
   * under `tag`, then calls `set` with each of `sets` and `get` with each
   * of `gets`, in that order.
   */
  datatype Read<!S> = Read(tag: nat, sets: seq<S -> S>, gets: seq<Read<S>>)

  /** How many read blocks will run for `rs`, counting those they enqueue in turn. */
  function SizeAll<S>(rs: seq<Read<S>>): (n: nat)
    ensures n >= |rs|
    decreases rs
  {
    if |rs| == 0 then 0
    else
      assert rs[0] in rs;
      1 + SizeAll(rs[0].gets) + SizeAll(rs[1..])
  }

  lemma {:induction false} SizeAllAppend<S>(a: seq<Read<S>>, b: seq<Read<S>>)
    ensures SizeAll(a + b) == SizeAll(a) + SizeAll(b)
    decreases |a|
  {
    if |a| == 0 {
      assert a + b == b;
    } else {
      assert (a + b)[0] == a[0];
      assert (a + b)[1..] == a[1..] + b;
      SizeAllAppend(a[1..], b);
    }
  }

  /** Running the oldest block replaces it by the blocks it enqueues: one fewer to run. */
  lemma SizeAllStep<S>(rs: seq<Read<S>>)
    requires |rs| > 0
    ensures SizeAll(rs[1..] + rs[0].gets) == SizeAll(rs) - 1
  {
    SizeAllAppend(rs[1..], rs[0].gets);
  }

  /** The two FIFO queues of pending work. */
  class Jobs<S> {
    var getStateQueue: seq<Read<S>>
    var setStateQueue: seq<S -> S>

    constructor ()
      ensures getStateQueue == [] && setStateQueue == []
    {
      getStateQueue := [];
      setStateQueue := [];
    }

    method EnqueueGetStateBlock(block: Read<S>)
      modifies this
      ensures getStateQueue == old(getStateQueue) + [block]
      ensures setStateQueue == old(setStateQueue)
    {
      getStateQueue := getStateQueue + [block];
    }

    method EnqueueSetStateBlock(block: S -> S)
      modifies this
      ensures setStateQueue == old(setStateQueue) + [block]
      ensures getStateQueue == old(getStateQueue)
    {
      setStateQueue := setStateQueue + [block];
    }

    /** The oldest read block, removed from the queue; `None` when there is none. */
    method DequeueGetStateBlock() returns (block: Option<Read<S>>)
      modifies this
      ensures block.None? <==> |old(getStateQueue)| == 0
      ensures block.None? ==> getStateQueue == old(getStateQueue)
      ensures block.Some? ==>
        block.value == old(getStateQueue)[0] && getStateQueue == old(getStateQueue)[1..]
      ensures setStateQueue == old(setStateQueue)
    {
      if |getStateQueue| == 0 {
        return None;
      }
      block := Some(getStateQueue[0]);
      getStateQueue := getStateQueue[1..];
    }

    /** Every pending reducer in enqueue order, leaving none; `None` when there is none. */
    method DequeueAllSetStateBlocks() returns (blocks: Option<seq<S -> S>>)
      modifies this
      ensures blocks.None? <==> |old(setStateQueue)| == 0
      ensures blocks.None? ==> setStateQueue == old(setStateQueue)
      ensures blocks.Some? ==> blocks.value == old(setStateQueue) && setStateQueue == []
      ensures getStateQueue == old(getStateQueue)
    {
      if |setStateQueue| == 0 {
        return None;
      }
      var queue := setStateQueue;
      setStateQueue := [];
      blocks := Some(queue);
    }
  }
}
