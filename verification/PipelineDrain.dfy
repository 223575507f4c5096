/** Deadlock freedom and drain: with finite sources every schedule is bounded and can only
    stop when everything has been delivered. */
module PipelineDrain {
  import opened Wrappers
  import opened Chainstream
  import opened Pipeline
  import opened PipelineSafety
  import opened PipelineTheorems

  /** Nothing is left to do anywhere. */
  ghost predicate Quiescent(c: Config, s: State)
    requires Shape(c, s)
  {
    && (forall i :: 0 <= i < |c.names| ==> s.taken[i] == |c.sources[i]| && s.hands[i].None?)
    && s.preCheckpointCh == [] && s.retryFailureCh == [] && s.dispatchFailureCh == [] && s.finalOut == []
    && s.retrier.RetryIdle? && s.checkpointer.CheckpointIdle? && s.consumer.None? && s.notifier.None?
  }

  /** A goroutine downstream of the dispatchers that can move. */
  lemma DownstreamProgress(c: Config, s: State)
    requires ValidConfig(c) && Inv(c, s)
    requires s.preCheckpointCh != [] || s.retryFailureCh != [] || s.dispatchFailureCh != [] || s.finalOut != []
             || !s.retrier.RetryIdle? || !s.checkpointer.CheckpointIdle? || s.consumer.Some? || s.notifier.Some?
    ensures exists l :: Enabled(c, s, l)
  {
    if s.consumer.Some? {
      assert Enabled(c, s, ConsumerHandle);
    } else if s.finalOut != [] {
      assert Enabled(c, s, ConsumerReceive);
    } else if s.checkpointer.Saved? {
      assert Enabled(c, s, CheckpointForward);
    } else if s.checkpointer.Unsaved? {
      assert Enabled(c, s, CheckpointSave(true));
    } else if s.preCheckpointCh != [] {
      assert Enabled(c, s, CheckpointReceive);
    } else if s.notifier.Some? {
      assert Enabled(c, s, NotifierReport);
    } else if s.dispatchFailureCh != [] {
      assert Enabled(c, s, NotifierReceive);
    } else if s.retrier.Reporting? {
      assert Enabled(c, s, RetryReport);
    } else if s.retrier.Sending? {
      assert Enabled(c, s, RetrySend);
    } else if s.retrier.Trying? {
      if |s.retrier.errs| == c.retry.value.attempts {
        assert Enabled(c, s, RetryGiveUp);
      } else {
        assert Enabled(c, s, RetryFetch(Failure("fetch")));
      }
    } else {
      assert Enabled(c, s, RetryReceive);
    }
  }

  /** Deadlock freedom, exactly: no step is enabled if and only if nothing is left to do. */
  lemma StuckExactlyWhenQuiescent(c: Config, s: State)
    requires ValidConfig(c) && Inv(c, s)
    ensures Quiescent(c, s) <==> forall l :: !Enabled(c, s, l)
  {
    if !Quiescent(c, s) {
      if s.preCheckpointCh != [] || s.retryFailureCh != [] || s.dispatchFailureCh != [] || s.finalOut != []
         || !s.retrier.RetryIdle? || !s.checkpointer.CheckpointIdle? || s.consumer.Some? || s.notifier.Some? {
        DownstreamProgress(c, s);
      } else {
        var i :| 0 <= i < |c.names| && !(s.taken[i] == |c.sources[i]| && s.hands[i].None?);
        assert Enabled(c, s, if s.hands[i].Some? then Dispatch(i) else Receive(i));
      }
    }
  }

  // ---------- a measure that every step lowers ----------

  function Attempts(c: Config): nat {
    if c.retry.Some? then c.retry.value.attempts else 0
  }

  /** A retried event may become a block (five more steps) and a report (three) besides its
      fetches, so an event not yet dispatched has to be worth all of these. */
  function NetworkWeight(c: Config, s: State, i: nat): nat
    requires Shape(c, s) && i < |c.names|
  {
    (|c.sources[i]| - s.taken[i]) * (Attempts(c) + 13) + if s.hands[i].Some? then Attempts(c) + 12 else 0
  }

  function NetworkWeights(c: Config, s: State, n: nat): nat
    requires Shape(c, s) && n <= |c.names|
  {
    if n == 0 then 0 else NetworkWeights(c, s, n - 1) + NetworkWeight(c, s, n - 1)
  }

  function RetryWeight(c: Config, w: RetryWorker): nat {
    match w
    case RetryIdle => 0
    case Trying(_, errs) => 10 + if |errs| <= Attempts(c) then Attempts(c) - |errs| else 0
    case Sending(_, _) => 9
    case Reporting(_) => 3
  }

  function DownstreamWeight(c: Config, s: State): nat {
    5 * |s.preCheckpointCh| + 2 * |s.finalOut| + 2 * |s.dispatchFailureCh|
    + |s.retryFailureCh| * (Attempts(c) + 11)
    + RetryWeight(c, s.retrier)
    + (match s.checkpointer case CheckpointIdle => 0 case Unsaved(_) => 4 case Saved(_) => 3)
    + |Slot(s.consumer)| + |Slot(s.notifier)|
  }

  function Measure(c: Config, s: State): nat
    requires Shape(c, s)
  {
    NetworkWeights(c, s, |c.names|) + DownstreamWeight(c, s)
  }

  lemma {:induction false} OneNetworkChanges(c: Config, s: State, t: State, n: nat, i: nat)
    requires Shape(c, s) && Shape(c, t) && n <= |c.names| && i < |c.names|
    requires forall j :: 0 <= j < |c.names| && j != i ==> s.taken[j] == t.taken[j] && s.hands[j] == t.hands[j]
    ensures NetworkWeights(c, t, n) - NetworkWeights(c, s, n)
            == if i < n then NetworkWeight(c, t, i) - NetworkWeight(c, s, i) else 0
  {
    if n > 0 {
      OneNetworkChanges(c, s, t, n - 1, i);
    }
  }

  lemma NoNetworkChanges(c: Config, s: State, t: State, n: nat)
    requires Shape(c, s) && Shape(c, t) && n <= |c.names|
    requires s.taken == t.taken && s.hands == t.hands
    ensures NetworkWeights(c, t, n) == NetworkWeights(c, s, n)
  {
    if n > 0 {
      OneNetworkChanges(c, s, t, n, 0);
    }
  }

  lemma ReceiveLowers(c: Config, s: State, i: nat)
    requires Shape(c, s) && Enabled(c, s, Receive(i))
    ensures Measure(c, Next(c, s, Receive(i))) < Measure(c, s)
  {
    var t := Next(c, s, Receive(i));
    OneNetworkChanges(c, s, t, |c.names|, i);
    var x, u := |c.sources[i]| - s.taken[i], Attempts(c) + 13;
    assert (x - 1) * u == x * u - u;
  }

  lemma RetryReceiveLowers(c: Config, s: State)
    requires Shape(c, s) && Enabled(c, s, RetryReceive)
    ensures Measure(c, Next(c, s, RetryReceive)) < Measure(c, s)
  {
    NoNetworkChanges(c, s, Next(c, s, RetryReceive), |c.names|);
    var x, u := |s.retryFailureCh|, Attempts(c) + 11;
    assert (x - 1) * u == x * u - u;
  }

  lemma DispatchLowers(c: Config, s: State, i: nat)
    requires Shape(c, s) && Enabled(c, s, Dispatch(i))
    ensures Measure(c, Next(c, s, Dispatch(i))) < Measure(c, s)
  {
    OneNetworkChanges(c, s, Next(c, s, Dispatch(i)), |c.names|, i);
    var x, u := |s.retryFailureCh|, Attempts(c) + 11;
    assert (x + 1) * u == x * u + u;
  }

  lemma StepLowersMeasure(c: Config, s: State, l: Label)
    requires Shape(c, s) && Enabled(c, s, l)
    ensures Measure(c, Next(c, s, l)) < Measure(c, s)
  {
    match l
    case Receive(i) => ReceiveLowers(c, s, i);
    case Dispatch(i) => DispatchLowers(c, s, i);
    case RetryReceive => RetryReceiveLowers(c, s);
    case _ => NoNetworkChanges(c, s, Next(c, s, l), |c.names|);
  }

  /** No schedule, fair or not, is longer than the measure of the state it starts in. */
  lemma {:induction false} SchedulesAreBounded(c: Config, s: State, ls: seq<Label>, t: State)
    requires Shape(c, s) && Reaches(c, s, ls, t)
    ensures Shape(c, t) && |ls| + Measure(c, t) <= Measure(c, s)
    decreases |ls|
  {
    if ls != [] {
      StepLowersMeasure(c, s, ls[0]);
      SchedulesAreBounded(c, Next(c, s, ls[0]), ls[1..], t);
    }
  }

  /** Every state can be driven to a quiescent one, whatever happened before. */
  lemma {:induction false} Drain(c: Config, s: State) returns (ls: seq<Label>, t: State)
    requires ValidConfig(c) && Inv(c, s)
    ensures Reaches(c, s, ls, t) && Inv(c, t) && Quiescent(c, t)
    decreases Measure(c, s)
  {
    StuckExactlyWhenQuiescent(c, s);
    if Quiescent(c, s) {
      ls, t := [], s;
    } else {
      var l :| Enabled(c, s, l);
      StepKeepsInv(c, s, l);
      StepLowersMeasure(c, s, l);
      ls, t := Drain(c, Next(c, s, l));
      assert ([l] + ls)[1..] == ls;
      ls := [l] + ls;
    }
  }

  /** A run that has come to rest has handled every successful event of every network
      exactly once and in order, each after one save attempt. */
  lemma DrainedBlocks(c: Config, t: State, i: nat)
    requires Reachable(c, t) && Shape(c, t) && Quiescent(c, t) && i < |c.names|
    ensures DirectBlocks(t.handled, c.names[i]) == Successes(c.sources[i])
    ensures SavedItems(t.saves) == t.handled
  {
    hide Reaches;
    ReachableInv(c, t);
    assert BlocksConserved(c, t, i);
    assert c.sources[i][..t.taken[i]] == c.sources[i];
    assert Line(t) == t.handled;
  }

  /** It has also disposed of every failed event: reported it, or finished its retry. */
  lemma DrainedFailures(c: Config, t: State, i: nat)
    requires Reachable(c, t) && Shape(c, t) && Quiescent(c, t) && i < |c.names|
    ensures FailuresOn(if c.retry.Some? then Originals(t.outcomes) else t.reported, c.names[i])
            == Failures(c.names[i], c.sources[i])
  {
    hide Reaches;
    ReachableInv(c, t);
    assert FailuresConserved(c, t, i);
    assert c.sources[i][..t.taken[i]] == c.sources[i];
    assert Intake(c, t) == if c.retry.Some? then Originals(t.outcomes) else t.reported;
  }

  /** And what the retries recovered has been handled, what they did not has been reported. */
  lemma DrainedRetries(c: Config, t: State)
    requires Reachable(c, t) && Shape(c, t) && Quiescent(c, t) && c.retry.Some?
    ensures RecoveredBlocks(t.handled) == RecoveredBy(t.outcomes)
    ensures t.reported == ReportedBy(c.retry.value.shape, t.outcomes)
  {
    hide Reaches;
    ReachableInv(c, t);
    assert Line(t) == t.handled && Reports(t) == t.reported && Settled(t) == t.outcomes;
  }
}
