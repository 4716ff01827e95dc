/** `MvRxViewState`: the state subject, its distinct observable, and the flush engine. */
module ViewState {
  import opened Reducers
  import opened Distinct
  import opened JobQueue
  import opened FlushSpec

  class MvRxViewState<S(==)> {
    const jobs: Jobs<S>
    /** The subject's current value, read through `state`. */
    var value: S
    ghost const initialState: S
    /** Every value pushed to the subject with `onNext`, the initial state first. */
    ghost var pushes: seq<S>
    /** What `observable` has delivered so far. */
    var emitted: seq<S>
    /** Every call of a read block, in call order. */
    var observed: seq<Observation<S>>

    ghost predicate Valid()
      reads this
    {
      |pushes| > 0 && pushes[0] == initialState &&
      value == pushes[|pushes| - 1] &&
      emitted == DistinctUntilChanged(pushes)
    }

    constructor (initialState: S)
      ensures Valid() && fresh(jobs)
      ensures this.initialState == initialState && value == initialState
      ensures pushes == [initialState] && emitted == [initialState] && observed == []
      ensures jobs.getStateQueue == [] && jobs.setStateQueue == []
    {
      jobs := new Jobs();
      value := initialState;
      this.initialState := initialState;
      pushes := [initialState];
      emitted := [initialState];
      observed := [];
    }

    /** `state`: the value last pushed, which is also the value last delivered. */
    function State(): (s: S)
      reads this
      requires Valid()
      ensures s == pushes[|pushes| - 1]
      ensures |emitted| > 0 && s == emitted[|emitted| - 1]
    {
      value
    }

    /**
     * `observable`: starts with the initial state, ends with the current one,
     * never delivers the same value twice in a row, and delivers exactly the
     * values ever pushed.
     */
    function Observable(): (o: seq<S>)
      reads this
      requires Valid()
      ensures |o| > 0 && o[0] == initialState && o[|o| - 1] == value
      ensures NoStutter(o)
      ensures forall i :: 0 <= i < |pushes| ==> pushes[i] in o
      ensures forall i :: 0 <= i < |o| ==> o[i] in pushes
    {
      DistinctNoStutter(pushes);
      DistinctSameElements(pushes);
      emitted
    }

    /**
     * What a subscriber that attaches after push `since` receives: the subject
     * first replays the value current then, and the filter runs over the later
     * pushes. Past its first value, this is what `Observable()` delivered after
     * push `since - 1`; the first value is new only if push `since` changed the
     * state.
     */
    ghost function ObservableFrom(since: nat): (o: seq<S>)
      reads this
      requires Valid() && since < |pushes|
      ensures |o| > 0 && o[0] == pushes[since] && o[|o| - 1] == value
      ensures NoStutter(o)
      ensures since > 0 ==>
        emitted == DistinctUntilChanged(pushes[..since]) + (if pushes[since - 1] == pushes[since] then o[1..] else o)
    {
      var o := DistinctUntilChanged(pushes[since..]);
      DistinctNoStutter(pushes[since..]);
      if since == 0 then o else DistinctSplit(pushes, since); o
    }

    /** `get`: enqueue a read block. */
    method Get(block: Read<S>)
      modifies jobs
      ensures jobs.getStateQueue == old(jobs.getStateQueue) + [block]
      ensures jobs.setStateQueue == old(jobs.setStateQueue)
    {
      jobs.EnqueueGetStateBlock(block);
    }

    /** `set`: enqueue a reducer. */
    method Set(reducer: S -> S)
      modifies jobs
      ensures jobs.setStateQueue == old(jobs.setStateQueue) + [reducer]
      ensures jobs.getStateQueue == old(jobs.getStateQueue)
    {
      jobs.EnqueueSetStateBlock(reducer);
    }

    /** `subject.onNext`: the observable delivers `x` unless it equals the current value. */
    method Push(x: S)
      requires Valid()
      modifies this
      ensures Valid() && value == x && pushes == old(pushes) + [x] && observed == old(observed)
      ensures emitted == if old(value) == x then old(emitted) else old(emitted) + [x]
    {
      assert (pushes + [x])[..|pushes|] == pushes;
      DistinctDropLast(pushes + [x], pushes, if value == x then [] else [x]);
      if emitted[|emitted| - 1] != x {
        emitted := emitted + [x];
      }
      value := x;
      pushes := pushes + [x];
    }

    /**
     * `flushSetStateQueue`: takes every pending reducer, folds them over the
     * current state in enqueue order and pushes the result once; pushes
     * nothing when no reducer is pending. The observable delivers the result
     * only when it differs from the state before.
     */
    method FlushSetStateQueue()
      requires Valid()
      modifies this, jobs
      ensures Valid() && observed == old(observed)
      ensures jobs.setStateQueue == [] && jobs.getStateQueue == old(jobs.getStateQueue)
      ensures value == Fold(old(value), old(jobs.setStateQueue))
      ensures pushes == old(pushes) + if |old(jobs.setStateQueue)| == 0 then [] else [value]
      ensures emitted == if value == old(value) then old(emitted) else old(emitted) + [value]
    {
      var blocks := jobs.DequeueAllSetStateBlocks();
      if blocks.None? {
        return;
      }
      var newState := Fold(value, blocks.value);
      Push(newState);
    }

    /** `block(state)`: the block records the state, then calls `set` and `get`. */
    method RunBlock(block: Read<S>)
      requires Valid()
      modifies this, jobs
      ensures Valid() && value == old(value) && pushes == old(pushes) && emitted == old(emitted)
      ensures observed == old(observed) + [Observation(block.tag, value)]
      ensures jobs.setStateQueue == old(jobs.setStateQueue) + block.sets
      ensures jobs.getStateQueue == old(jobs.getStateQueue) + block.gets
    {
      observed := observed + [Observation(block.tag, State())];
      var i := 0;
      while i < |block.sets|
        invariant 0 <= i <= |block.sets|
        invariant jobs.setStateQueue == old(jobs.setStateQueue) + block.sets[..i]
        invariant jobs.getStateQueue == old(jobs.getStateQueue)
        modifies jobs
      {
        Set(block.sets[i]);
        i := i + 1;
      }
      assert block.sets[..i] == block.sets;
      var j := 0;
      while j < |block.gets|
        invariant 0 <= j <= |block.gets|
        invariant jobs.getStateQueue == old(jobs.getStateQueue) + block.gets[..j]
        invariant jobs.setStateQueue == old(jobs.setStateQueue) + block.sets
        modifies jobs
      {
        Get(block.gets[j]);
        j := j + 1;
      }
      assert block.gets[..j] == block.gets;
    }

    /**
     * `flushQueues`: flush the reducers, run the oldest read block on the
     * resulting state, and repeat until no read block is left. It behaves as
     * `Drain` says and leaves both queues empty.
     */
    method FlushQueues()
      requires Valid()
      modifies this, jobs
      ensures Valid()
      ensures jobs.setStateQueue == [] && jobs.getStateQueue == []
      ensures var o := Drain(old(value), old(jobs.setStateQueue), old(jobs.getStateQueue));
        value == o.state && pushes == old(pushes) + o.pushes && observed == old(observed) + o.observed
      decreases SizeAll(jobs.getStateQueue)
    {
      ghost var v, ws, rs := value, jobs.setStateQueue, jobs.getStateQueue;
      ghost var p0, obs0 := pushes, observed;
      FlushSetStateQueue();
      ghost var v1, p1 := value, pushes;
      ghost var pw: seq<S> := if |ws| == 0 then [] else [Fold(v, ws)];
      assert v1 == Fold(v, ws) && p1 == p0 + pw;
      var block := jobs.DequeueGetStateBlock();
      if block.None? {
        DrainNoReads(v, ws);
        return;
      }
      RunBlock(block.value);
      assert observed == obs0 + [Observation(rs[0].tag, v1)];
      assert jobs.setStateQueue == rs[0].sets && jobs.getStateQueue == rs[1..] + rs[0].gets;
      SizeAllStep(rs);
      FlushQueues();
      DrainStep(v, ws, rs);
      ghost var o := Drain(v1, rs[0].sets, rs[1..] + rs[0].gets);
      assert pushes == p1 + o.pushes;
      AppendAssoc(p0, pw, o.pushes);
      AppendAssoc(obs0, [Observation(rs[0].tag, v1)], o.observed);
    }
  }
}
