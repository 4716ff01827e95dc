/** The test fixture's view state, and scenarios verified against the model. */
module Examples {
  import opened Reducers
  import opened JobQueue
  import opened FlushSpec
  import opened ViewState

  datatype TestViewState = TestViewState(elementCount: int)
  {
    predicate ShouldShowBanner()
    {
      elementCount == 0
    }
  }

  const Default := TestViewState(0)

  /** The reducer `increaseCount` enqueues: add one to the element count. */
  function Increase(s: TestViewState): TestViewState
  {
    s.(elementCount := s.elementCount + 1)
  }

  /** `increaseCount` followed by a flush: the count is one and the banner is hidden. */
  method ElementCountScenario() returns (count: int, showBanner: bool)
    ensures count == 1 && !showBanner
  {
    var model := new MvRxViewState(Default);
    model.Set(Increase);
    assert model.jobs.setStateQueue == [Increase] && model.jobs.getStateQueue == [];
    model.FlushQueues();
    DrainNoReads(Default, [Increase]);
    assert Fold(Default, [Increase]) == TestViewState(1) by {
      assert [Increase][1..] == [];
    }
    count := model.State().elementCount;
    showBanner := model.State().ShouldShowBanner();
  }

  /** A fresh view model shows the banner. */
  method InitialBannerScenario() returns (showBanner: bool)
    ensures showBanner
  {
    var model := new MvRxViewState(Default);
    showBanner := model.State().ShouldShowBanner();
  }

  /**
   * Three increments and then a read: the read sees a count of three, and the
   * observable delivers only the initial state and the coalesced result.
   */
  method CoalescingScenario() returns (seen: seq<Observation<TestViewState>>, delivered: seq<TestViewState>)
    ensures seen == [Observation(0, TestViewState(3))]
    ensures delivered == [TestViewState(0), TestViewState(3)]
  {
    var model := new MvRxViewState(Default);
    model.Set(Increase);
    model.Set(Increase);
    model.Set(Increase);
    var read := Read(0, [], []);
    model.Get(read);
    assert model.jobs.setStateQueue == [Increase, Increase, Increase];
    assert model.jobs.getStateQueue == [read];
    model.FlushQueues();
    DrainStep(Default, [Increase, Increase, Increase], [read]);
    assert [read][1..] + read.gets == [];
    DrainNoReads(TestViewState(3), []);
    assert Fold(Default, [Increase, Increase, Increase]) == TestViewState(3) by {
      assert [Increase, Increase, Increase][1..] == [Increase, Increase];
      assert [Increase, Increase][1..] == [Increase];
      assert [Increase][1..] == [];
      assert Fold(TestViewState(2), [Increase]) == TestViewState(3);
      assert Fold(TestViewState(1), [Increase, Increase]) == TestViewState(3);
    }
    assert model.pushes == [Default, TestViewState(3)];
    seen := model.observed;
    delivered := model.Observable();
    assert [Default, TestViewState(3)][..1] == [Default];
  }

  /** A read with no write before it sees the initial state, and nothing new is delivered. */
  method ReadOnlyScenario() returns (seen: seq<Observation<TestViewState>>, delivered: seq<TestViewState>)
    ensures seen == [Observation(0, Default)]
    ensures delivered == [Default]
  {
    var model := new MvRxViewState(Default);
    var read := Read(0, [], []);
    model.Get(read);
    model.FlushQueues();
    DrainStep(Default, [], [read]);
    DrainNoReads(Default, []);
    assert model.pushes == [Default];
    seen := model.observed;
    delivered := model.Observable();
  }

  /**
   * Block 0 increments and enqueues block 2; block 1 was queued behind it.
   * Block 0 sees the initial state, block 1 sees its write, and block 2 runs
   * last.
   */
  method ReadAfterWriteScenario() returns (seen: seq<Observation<TestViewState>>)
    ensures seen == [Observation(0, Default), Observation(1, TestViewState(1)), Observation(2, TestViewState(1))]
  {
    var model := new MvRxViewState(Default);
    var later := Read(2, [], []);
    var first := Read(0, [Increase], [later]);
    var second := Read(1, [], []);
    model.Get(first);
    model.Get(second);
    model.FlushQueues();
    DrainStep(Default, [], [first, second]);
    assert [first, second][1..] + first.gets == [second, later];
    DrainStep(Default, [Increase], [second, later]);
    assert [second, later][1..] + second.gets == [later];
    DrainStep(TestViewState(1), [], [later]);
    DrainNoReads(TestViewState(1), []);
    seen := model.observed;
  }
}
