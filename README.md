# MvRx view state: the queue-and-flush engine

A Dafny model of `MvRxViewState`, the state container of the MvRx view-model
library. Callers enqueue write reducers with `set` and read blocks with
`get`. A flush drains all pending reducers and folds them over the current
state in enqueue order. It pushes the result to the state subject once, then
runs the oldest read block on the new state, and repeats until no read block
is left. The `observable` is the subject filtered by `distinctUntilChanged`.

The model is sequential. Each queue operation is one atomic step, and the
flush is an explicit call (`FlushQueues`) rather than a signal handled on the
main scheduler.

- `Reducers`: `Fold`, the left fold of reducers that `flushSetStateQueue` computes.
- `Distinct`: `DistinctUntilChanged`, what subscribers see of the values pushed.
  `Changes` lists the positions that are delivered, so the delivered values
  are characterised without the filter's own recursion.
- `JobQueue`: the `Jobs` class with its two FIFO queues. Also the `Read`
  datatype: a read block records the state it is called with under a tag, then
  calls `set` with a fixed list of reducers and `get` with a fixed list of
  further blocks. `SizeAll` counts the blocks a queue will run, including
  those they enqueue; each flush round lowers it by one, which is why the
  flush terminates.
- `FlushSpec`: `Drain`, the outcome of one `flushQueues` call as a function of
  the starting state and queues, with the ordering lemmas.
- `ViewState`: the `MvRxViewState` class. It has the subject's value, the
  history of pushes (ghost), what the observable has delivered, and a log of
  read-block calls. `FlushQueues` is recursive like the source and is proved
  to behave as `Drain` says. `ObservableFrom` is what a subscriber that
  attaches later receives, since the subject replays its current value first.
- `Examples`: the test fixture's `TestViewState` and scenarios verified against the model.

Three points about the source that shape the model:
- `flushSetStateQueue` pushes the fold result to the subject unconditionally
  (Sources/MvRx/MvRxViewState.swift:103). Only the `distinctUntilChanged`
  observable filters out repeats. The model keeps every push in `pushes` and
  the filtered sequence in `emitted`.
- `flushQueues` calls itself after each read block (Sources/MvRx/MvRxViewState.swift:81-88);
  the model keeps that recursion.
- Each trigger signal leads to its own `flushQueues` call; signals are not
  merged. A flush with nothing queued changes nothing, so the model has one
  explicit call in their place.

## Model

| member | source | states |
|---|---|---|
| Reducers.FoldAppend | Sources/MvRx/MvRxViewState.swift:98-102 | folding reducers `a + b` is folding `a`, then `b` over that result: batches can be split or joined without changing the state |
| Reducers.FoldSnoc | Sources/MvRx/MvRxViewState.swift:98-102 | a reducer enqueued last is applied last, to the result of all earlier reducers |
| Distinct.DistinctUntilChanged | Sources/MvRx/MvRxViewState.swift:36 | the delivered sequence is no longer than the pushes, starts with the first push (the initial state) and ends with the last one |
| Distinct.Changes | Sources/MvRx/MvRxViewState.swift:36 | the change positions of a push sequence are in range and strictly increasing |
| Distinct.ChangesAreChangePoints | Sources/MvRx/MvRxViewState.swift:36 | a position is a change position iff it is 0 or its push differs from the one before |
| Distinct.DistinctAtChanges | Sources/MvRx/MvRxViewState.swift:36 | the delivered sequence is the pushes read at their change positions, in push order: the `j`-th delivered value is the push at the `j`-th change |
| Distinct.DistinctSplit | Sources/MvRx/MvRxViewState.swift:35-36 | what a subscriber attaching after push `i` sees, past its first value, is exactly what a subscriber present from the start receives after push `i - 1`; its first value is new only if push `i` changed the value |
| Distinct.DistinctNoStutter | Sources/MvRx/MvRxViewState.swift:36 | no two consecutive delivered values are equal |
| Distinct.DistinctSameElements | Sources/MvRx/MvRxViewState.swift:36 | a value is delivered iff it was pushed at some point |
| Distinct.DistinctOfNoStutter | Sources/MvRx/MvRxViewState.swift:36 | a push sequence without repeats is delivered unchanged |
| Distinct.DistinctIdempotent | Sources/MvRx/MvRxViewState.swift:36 | filtering the delivered sequence again changes nothing |
| JobQueue.SizeAll | Sources/MvRx/MvRxViewState.swift:81-88 | the number of block runs a read queue causes is at least its length |
| JobQueue.Jobs.constructor | Sources/MvRx/MvRxViewState.swift:106-110 | both queues start empty |
| JobQueue.Jobs.EnqueueGetStateBlock | Sources/MvRx/MvRxViewState.swift:112-116 | the block is appended at the end of the read queue; the write queue is unchanged |
| JobQueue.Jobs.EnqueueSetStateBlock | Sources/MvRx/MvRxViewState.swift:118-122 | the reducer is appended at the end of the write queue; the read queue is unchanged |
| JobQueue.Jobs.DequeueGetStateBlock | Sources/MvRx/MvRxViewState.swift:124-131 | returns `None` iff the read queue is empty, and then changes nothing; otherwise returns the oldest block and leaves the tail; the write queue is unchanged |
| JobQueue.Jobs.DequeueAllSetStateBlocks | Sources/MvRx/MvRxViewState.swift:133-143 | returns `None` iff the write queue is empty, and then changes nothing; otherwise returns the whole queue in enqueue order and leaves it empty; the read queue is unchanged |
| FlushSpec.Drain | Sources/MvRx/MvRxViewState.swift:81-104 | a flush runs one block per block queued or enqueued during it; it pushes at most once per round; the state ends at the last value pushed, or unchanged when nothing was pushed |
| FlushSpec.Order | Sources/MvRx/MvRxViewState.swift:81-88 | the run order of a flush holds one entry per block run, counting the blocks enqueued during the flush |
| FlushSpec.OrderStartsWithQueue | Sources/MvRx/MvRxViewState.swift:124-131 | the blocks queued when the flush starts run first, in FIFO order, before any block enqueued during the flush |
| FlushSpec.DrainObservesInRunOrder | Sources/MvRx/MvRxViewState.swift:81-88 | the `k`-th block run, in run order and including blocks enqueued during the flush, sees the fold of the pending reducers and of every reducer enqueued by the blocks run before it, in enqueue order |
| FlushSpec.DrainFinalState | Sources/MvRx/MvRxViewState.swift:81-104 | a flush ends in the fold of the pending reducers followed by the reducers of every block it runs, in run order |
| FlushSpec.DrainReadAfterWrite | Sources/MvRx/MvRxViewState.swift:49-52 | block `k` of the queue at the start of the flush is the `k`-th to run and sees the fold of all pending reducers plus every reducer blocks `0..k-1` enqueued, in enqueue order |
| FlushSpec.DrainFlat | Sources/MvRx/MvRxViewState.swift:81-104 | when no block enqueues a read, exactly the queued blocks run, and the final state is the fold of the pending reducers followed by those the blocks enqueued |
| ViewState.MvRxViewState.constructor | Sources/MvRx/MvRxViewState.swift:34-36 | the subject and the observable start with the initial state; nothing is queued or observed |
| ViewState.MvRxViewState.State | Sources/MvRx/MvRxViewState.swift:29-32 | `state` is the last value pushed to the subject, which is also the last value the observable delivered |
| ViewState.MvRxViewState.Observable | Sources/MvRx/MvRxViewState.swift:34-36 | for a subscriber present since construction, the observable starts with the initial state, ends with the current one, never repeats a value twice in a row, and delivers exactly the values ever pushed |
| ViewState.MvRxViewState.ObservableFrom | Sources/MvRx/MvRxViewState.swift:35-36 | a subscriber attaching after push `since` first receives the value current then, ends with the current value and never sees a repeat; past its first value it receives what an early subscriber received after push `since - 1` |
| ViewState.MvRxViewState.Get | Sources/MvRx/MvRxViewState.swift:53-56 | `get` appends the block to the read queue and touches nothing else |
| ViewState.MvRxViewState.Set | Sources/MvRx/MvRxViewState.swift:68-71 | `set` appends the reducer to the write queue and touches nothing else |
| ViewState.MvRxViewState.Push | Sources/MvRx/MvRxViewState.swift:103 | `onNext` makes the value current and records the push; the observable delivers it iff it differs from the previous value |
| ViewState.MvRxViewState.FlushSetStateQueue | Sources/MvRx/MvRxViewState.swift:93-104 | the write queue is emptied, the state becomes the fold of the drained reducers over the old state, exactly one push happens when reducers were pending and none otherwise, and the observable delivers the result iff it differs from the old state |
| ViewState.MvRxViewState.RunBlock | Sources/MvRx/MvRxViewState.swift:86 | the block records the current state, then its reducers and blocks are appended to the queues in order; the state is unchanged |
| ViewState.MvRxViewState.FlushQueues | Sources/MvRx/MvRxViewState.swift:81-88 | when the flush returns, both queues are empty, and the state, pushes and block calls are exactly those `Drain` gives for the starting state and queues |
| Examples.ElementCountScenario | Tests/MvRxTests/MvRxTests.swift:6-46 | from `elementCount = 0`, one increment and a flush give `elementCount = 1`, and the banner is hidden, as `test_elementCount` (lines 6-19) and `test_shouldNotShowBanner` (lines 33-46) expect |
| Examples.InitialBannerScenario | Tests/MvRxTests/MvRxTests.swift:21-31 | a new view model shows the banner |
| Examples.CoalescingScenario | Sources/MvRx/MvRxViewState.swift:91-104 | three increments then a read: the read sees 3, and the observable delivers only 0 and 3 |
| Examples.ReadOnlyScenario | Sources/MvRx/MvRxViewState.swift:49-56 | a read with no write before it sees the initial state, and nothing new is delivered |
| Examples.ReadAfterWriteScenario | Sources/MvRx/MvRxViewState.swift:73-88 | a write enqueued by one read block is seen by the next queued block but not by itself; a block enqueued during the flush runs after the blocks already queued |

## Left out

- The `DispatchQueue` lock in `Jobs` (Sources/MvRx/MvRxViewState.swift:107, 113-142): each queue operation is one atomic step, and calls from other threads during a flush are not modelled.
- The trigger subject, `observeOn(MainScheduler.instance)`, `bind` and the `DisposeBag` (Sources/MvRx/MvRxViewState.swift:19, 38-46, 55, 70): these are RxSwift scheduling plumbing. The flush is an explicit `FlushQueues` call, and disposal is not modelled.
- Sources/MvRx/MvRxViewModel.swift (`stateOf`, `getState`): these are `map`/`distinctUntilChanged`/`withLatestFrom` chains over `observable` and have no logic of their own.
- Read blocks are finite values: the sets and gets a block makes are fixed when it is built, not chosen from the state it observes. Reducers can still branch on the state. A block that enqueues work without end cannot be written, so the flush always terminates.
- Read blocks record the state they are called with and call `set`/`get`; they have no other side effects. Reducers are pure `S -> S` functions: they cannot call `set` or `get` and have no side effects at all. Faults thrown from reducers or read blocks are not modelled.
- ViewState.MvRxViewState.FlushQueues: its promise that the write queue ends empty relies on reducers not calling `set`. In the source a reducer runs inside `reduce` (Sources/MvRx/MvRxViewState.swift:98-102), after the write queue was reset (:140). A `set` from inside a reducer lands in that emptied queue. If no read block is pending, `flushQueues` then returns at :83-84 with the write still queued, and only the later flush signalled at :70 applies it. The model cannot express this case.
- Examples.ElementCountScenario: `elementCount` is an unbounded integer, so Swift's overflow trap on `+= 1` is not modelled. The fixture's `increaseCount(by:)` ignores its argument and always adds one (Tests/MvRxTests/MvRxTests.swift:74-76); the model's `Increase` does the same.
- The XCTest harness and `toBlocking` are not modelled.
