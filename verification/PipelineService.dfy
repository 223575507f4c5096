/**
 The goroutines of the pipeline in the form the source gives them: loops over channels,
 updating their own variables. Each runs here as far as it gets without another goroutine,
 and is proved to move by steps of the system in Pipeline, its own only, until it blocks.
 */
module PipelineService {
  import opened Wrappers
  import opened HexNumbers
  import opened Chainstream
  import opened Chflow
  import opened Pipeline
  import opened PipelineDrain

  datatype Goroutine = Dispatcher(i: nat) | Retrier | Checkpointer | Notifier | Consumer

  /** Whose statement a step is. */
  predicate Owns(w: Goroutine, l: Label) {
    match w
    case Dispatcher(i) => l == Receive(i) || l == Dispatch(i)
    case Retrier => l.RetryReceive? || l.RetryFetch? || l.RetrySend? || l.RetryGiveUp? || l.RetryReport?
    case Checkpointer => l.CheckpointReceive? || l.CheckpointSave? || l.CheckpointForward?
    case Notifier => l.NotifierReceive? || l.NotifierReport?
    case Consumer => l.ConsumerReceive? || l.ConsumerHandle?
  }

  /** What the outside answers a goroutine at its next statement: the node of a network a
      fetch, and the checkpoint store a save. */
  datatype Outside = Outside(node: (string, Hex) -> Result<Block, Error>, saves: bool)

  const NOT_REGISTERED: Error := "network not registered"

  /** A turn of the scheduler. */
  datatype Turn = Turn(who: Goroutine, outside: Outside)

  /** What a step records of the outside is what the outside said. */
  ghost predicate SaidBy(outside: Outside, l: Label) {
    match l
    case CheckpointSave(ok) => ok == outside.saves
    case RetryFetch(result) =>
      result == Failure(NOT_REGISTERED) || exists network, height :: result == outside.node(network, height)
    case _ => true
  }

  /** Steps of one goroutine, the k-th of them answered by outside(k). */
  ghost predicate OwnTrail(w: Goroutine, outside: nat -> Outside, ls: seq<Label>) {
    forall k :: 0 <= k < |ls| ==> Owns(w, ls[k]) && SaidBy(outside(k), ls[k])
  }

  lemma OneMoreStep(w: Goroutine, outside: nat -> Outside, ls: seq<Label>, l: Label)
    requires OwnTrail(w, outside, ls) && Owns(w, l) && SaidBy(outside(|ls|), l)
    ensures OwnTrail(w, outside, ls + [l])
  {
  }

  /** The j-th step is made, and answered, at turn at[j]; some turns make none. */
  ghost predicate Trail(schedule: seq<Turn>, ls: seq<Label>, at: seq<nat>) {
    && |at| == |ls| && (forall j :: 0 <= j < |ls| ==> at[j] < |schedule|)
    && (forall i, j :: 0 <= i < j < |at| ==> at[i] < at[j])
    && forall j :: 0 <= j < |ls| ==> Owns(schedule[at[j]].who, ls[j]) && SaidBy(schedule[at[j]].outside, ls[j])
  }

  lemma OneMoreTurn(schedule: seq<Turn>, k: nat, ls: seq<Label>, at: seq<nat>, step: Option<Label>)
    requires k < |schedule| && Trail(schedule[..k], ls, at)
    requires step.Some? ==> Owns(schedule[k].who, step.value) && SaidBy(schedule[k].outside, step.value)
    ensures if step.Some? then Trail(schedule[..k + 1], ls + [step.value], at + [k]) else Trail(schedule[..k + 1], ls, at)
  {
    hide Owns, SaidBy;
  }

  class Service {
    ghost const conf: Config
    const networks: seq<string>
    const retry: Option<RetryPolicy>
    const eventsCh: seq<seq<BlockchainEvent>>

    const preCheckpointCh: Channel<Item>
    const finalOut: Channel<Item>
    const retryFailureCh: Channel?<BlockDispatchFailure>
    const dispatchFailureCh: Channel<BlockDispatchFailure>
    const errorSubmissionCh: Channel<BlockDispatchFailure>

    var received: seq<nat>
    var events: seq<Option<BlockchainEvent>>
    var retrier: RetryWorker
    var checkpointer: CheckpointWorker
    var block: Option<Item>
    var dispatchFailure: Option<BlockDispatchFailure>

    var saves: seq<SaveAttempt>
    var handled: seq<Item>
    var reported: seq<BlockDispatchFailure>
    ghost var outcomes: seq<Outcome>

    ghost predicate Valid()
      reads this, preCheckpointCh, finalOut, dispatchFailureCh, errorSubmissionCh
    {
      && conf == Config(networks, eventsCh, retry) && ValidConfig(conf)
      && preCheckpointCh != finalOut
      && (retryFailureCh != null <==> retry.Some?) && retryFailureCh != dispatchFailureCh
      && errorSubmissionCh == (if retryFailureCh != null then retryFailureCh else dispatchFailureCh)
      && preCheckpointCh.capacity == finalOut.capacity == OBSERVED_BLOCK_BUFFER
      && dispatchFailureCh.capacity == DISPATCH_FAILURE_BUFFER
      && (retryFailureCh != null ==> retryFailureCh.capacity == RETRY_FAILURE_BUFFER)
      && !preCheckpointCh.closed && !finalOut.closed && !dispatchFailureCh.closed && !errorSubmissionCh.closed
      && Shape(conf, View())
      && (retry.Some? && retrier.Trying? ==> |retrier.errs| <= retry.value.attempts)
    }

    ghost function View(): State
      reads this, preCheckpointCh, finalOut, dispatchFailureCh, errorSubmissionCh
    {
      State(received, events, preCheckpointCh.buffer,
            if retry.Some? then errorSubmissionCh.buffer else [],
            dispatchFailureCh.buffer, finalOut.buffer,
            retrier, checkpointer, block, dispatchFailure, saves, handled, reported, outcomes)
    }

    ghost function Channels(): set<object> {
      {preCheckpointCh as object, finalOut as object, dispatchFailureCh as object, errorSubmissionCh as object}
    }

    /** No statement of this goroutine can go on. */
    ghost predicate Blocked(w: Goroutine)
      requires Valid()
      reads this, preCheckpointCh, finalOut, dispatchFailureCh, errorSubmissionCh
    {
      forall l :: Owns(w, l) ==> !Enabled(conf, View(), l)
    }

    /** Start up to the point where the goroutines run. */
    constructor (networks: seq<string>, eventsCh: seq<seq<BlockchainEvent>>, retry: Option<RetryPolicy>)
      requires ValidConfig(Config(networks, eventsCh, retry))
      ensures Valid() && conf == Config(networks, eventsCh, retry)
      ensures View() == Init(conf) && fresh(Channels())
    {
      this.conf := Config(networks, eventsCh, retry);
      this.networks, this.eventsCh, this.retry := networks, eventsCh, retry;
      var retryCh: Channel?<BlockDispatchFailure> := null;
      var dispatchCh := new Channel(DISPATCH_FAILURE_BUFFER);
      if retry.Some? {
        retryCh := new Channel(RETRY_FAILURE_BUFFER);
      }
      var first := FirstNonNil([retryCh, dispatchCh]);
      assert [retryCh, dispatchCh][1] == dispatchCh && [retryCh, dispatchCh][0] == retryCh;
      this.retryFailureCh, this.dispatchFailureCh, this.errorSubmissionCh := retryCh, dispatchCh, first;
      this.preCheckpointCh := new Channel(OBSERVED_BLOCK_BUFFER);
      this.finalOut := new Channel(OBSERVED_BLOCK_BUFFER);
      received, events := seq(|networks|, _ => 0), seq(|networks|, _ => None);
      retrier, checkpointer, block, dispatchFailure := RetryIdle, CheckpointIdle, None, None;
      saves, handled, reported, outcomes := [], [], [], [];
    }

    /** The next statement of checkpointAndForward, or None while it blocks. */
    method CheckpointStep(outside: Outside) returns (step: Option<Label>)
      requires Valid()
      modifies this`checkpointer, this`saves, preCheckpointCh`buffer, finalOut`buffer
      ensures Valid()
      ensures step.None? ==> View() == old(View()) && Blocked(Checkpointer)
      ensures step.Some? ==> Owns(Checkpointer, step.value) && Enabled(conf, old(View()), step.value)
                             && View() == Next(conf, old(View()), step.value)
      ensures old(checkpointer).Unsaved? ==> step == Some(CheckpointSave(outside.saves))
    {
      match checkpointer {
        case CheckpointIdle =>
          var observedBlock := preCheckpointCh.Receive();
          if observedBlock.None? {
            return None;
          }
          checkpointer := Unsaved(observedBlock.value);
          return Some(CheckpointReceive);
        case Unsaved(item) =>
          saves := saves + [SaveAttempt(item, outside.saves)];
          checkpointer := Saved(item);
          return Some(CheckpointSave(outside.saves));
        case Saved(item) =>
          var ok := finalOut.Send(item);
          if !ok {
            return None;
          }
          checkpointer := CheckpointIdle;
          return Some(CheckpointForward);
      }
    }

    /** The next statement of dispatchSubscriptionEvents, or None while it blocks. */
    method DispatchStep(i: nat) returns (step: Option<Label>)
      requires Valid()
      requires i < |networks|
      modifies this`received, this`events, preCheckpointCh`buffer, errorSubmissionCh`buffer
      ensures Valid()
      ensures step.None? ==> View() == old(View()) && Blocked(Dispatcher(i))
      ensures step.Some? ==> Owns(Dispatcher(i), step.value) && Enabled(conf, old(View()), step.value)
                             && View() == Next(conf, old(View()), step.value)
    {
      if events[i].None? {
        if received[i] == |eventsCh[i]| {
          return None;
        }
        events := events[i := Some(eventsCh[i][received[i]])];
        received := received[i := received[i] + 1];
        return Some(Receive(i));
      }
      var event := events[i].value;
      var ok: bool;
      if event.err.Some? {
        ok := errorSubmissionCh.Send(BlockDispatchFailure(networks[i], event.height, [event.err.value]));
      } else {
        ok := preCheckpointCh.Send(Item(ObservedBlock(networks[i], event.block), Direct));
      }
      if !ok {
        return None;
      }
      events := events[i := None];
      return Some(Dispatch(i));
    }

    /** The next statement of retryFailedBlockFetches, or None while it blocks. */
    method RetryStep(outside: Outside) returns (step: Option<Label>)
      requires Valid()
      modifies this`retrier, this`outcomes, preCheckpointCh`buffer, errorSubmissionCh`buffer, dispatchFailureCh`buffer
      ensures Valid()
      ensures step.None? ==> View() == old(View()) && Blocked(Retrier)
      ensures step.Some? ==> Owns(Retrier, step.value) && Enabled(conf, old(View()), step.value)
                             && View() == Next(conf, old(View()), step.value)
      ensures retry.Some? && old(retrier).Trying? ==>
                var failure := old(retrier).failure;
                step == Some(if |old(retrier).errs| == retry.value.attempts then RetryGiveUp
                             else if failure.network in networks
                               then RetryFetch(outside.node(failure.network, failure.height))
                             else RetryFetch(Failure(NOT_REGISTERED)))
    {
      if retryFailureCh == null {
        assert retry.None?;
        return None;  // Start does not launch the worker
      }
      match retrier {
        case RetryIdle =>
          var netErr := retryFailureCh.Receive();
          if netErr.None? {
            return None;
          }
          retrier := Trying(netErr.value, []);
          return Some(RetryReceive);
        case Trying(netErr, errs) =>
          if |errs| != retry.value.attempts {
            var result: Result<Block, Error> := Failure(NOT_REGISTERED);
            if netErr.network in networks {
              result := outside.node(netErr.network, netErr.height);
            }
            match result {
              case Failure(err) => retrier := Trying(netErr, errs + [err]);
              case Success(b) => retrier := Sending(netErr, b);
            }
            return Some(RetryFetch(result));
          }
          retrier := Reporting(Outcome(netErr, errs, None));
          return Some(RetryGiveUp);
        case Sending(netErr, b) =>
          var ok := preCheckpointCh.Send(Item(ObservedBlock(netErr.network, b), Recovered));
          if !ok {
            return None;
          }
          if retry.value.shape == NilSlice {
            retrier, outcomes := RetryIdle, outcomes + [Outcome(netErr, [], Some(b))];
          } else {
            retrier := Reporting(Outcome(netErr, [], Some(b)));
          }
          return Some(RetrySend);
        case Reporting(o) =>
          var netErr := o.original.(errors := o.original.errors + o.retryErrs);
          var ok := dispatchFailureCh.Send(netErr);
          if !ok {
            return None;
          }
          retrier, outcomes := RetryIdle, outcomes + [o];
          return Some(RetryReport);
      }
    }

    /** The next statement of handleDispatchFailures, or None while it blocks. */
    method NotifierStep() returns (step: Option<Label>)
      requires Valid()
      modifies this`dispatchFailure, this`reported, dispatchFailureCh`buffer
      ensures Valid()
      ensures step.None? ==> View() == old(View()) && Blocked(Notifier)
      ensures step.Some? ==> Owns(Notifier, step.value) && Enabled(conf, old(View()), step.value)
                             && View() == Next(conf, old(View()), step.value)
    {
      if dispatchFailure.None? {
        dispatchFailure := dispatchFailureCh.Receive();
        return if dispatchFailure.Some? then Some(NotifierReceive) else None;
      }
      reported, dispatchFailure := reported + [dispatchFailure.value], None;
      return Some(NotifierReport);
    }

    /** The next statement of handleWalletActivity, or None while it blocks. */
    method ConsumerStep() returns (step: Option<Label>)
      requires Valid()
      modifies this`block, this`handled, finalOut`buffer
      ensures Valid()
      ensures step.None? ==> View() == old(View()) && Blocked(Consumer)
      ensures step.Some? ==> Owns(Consumer, step.value) && Enabled(conf, old(View()), step.value)
                             && View() == Next(conf, old(View()), step.value)
    {
      if block.None? {
        block := finalOut.Receive();
        return if block.Some? then Some(ConsumerReceive) else None;
      }
      handled, block := handled + [block.value], None;
      return Some(ConsumerHandle);
    }

    method Step(w: Goroutine, outside: Outside) returns (step: Option<Label>)
      requires Valid() && (w.Dispatcher? ==> w.i < |networks|)
      modifies this, preCheckpointCh`buffer, finalOut`buffer, dispatchFailureCh`buffer, errorSubmissionCh`buffer
      ensures Valid()
      ensures step.None? ==> View() == old(View()) && Blocked(w)
      ensures step.Some? ==> Owns(w, step.value) && Enabled(conf, old(View()), step.value)
                             && View() == Next(conf, old(View()), step.value)
      ensures step.Some? ==> SaidBy(outside, step.value)
    {
      match w {
        case Dispatcher(i) => step := DispatchStep(i);
        case Retrier =>
          assert retry.Some? && retrier.RetryIdle? ==> !Enabled(conf, View(), RetryFetch(Failure(NOT_REGISTERED)));
          step := RetryStep(outside);
        case Checkpointer => step := CheckpointStep(outside);
        case Notifier => step := NotifierStep();
        case Consumer => step := ConsumerStep();
      }
    }

    /** The loop of a goroutine, left to itself: dispatchSubscriptionEvents,
        retryFailedBlockFetches, checkpointAndForward, handleDispatchFailures and
        handleWalletActivity. */
    method Loop(w: Goroutine, outside: nat -> Outside) returns (ghost ls: seq<Label>)
      requires Valid() && (w.Dispatcher? ==> w.i < |networks|)
      modifies this, preCheckpointCh`buffer, finalOut`buffer, dispatchFailureCh`buffer, errorSubmissionCh`buffer
      ensures Valid() && Reaches(conf, old(View()), ls, View())
      ensures OwnTrail(w, outside, ls)
      ensures Blocked(w)
    {
      ls := [];
      var k: nat := 0;
      while true
        invariant Valid() && Reaches(conf, old(View()), ls, View()) && k == |ls|
        invariant OwnTrail(w, outside, ls)
        decreases Measure(conf, View())
      {
        hide Next, Enabled, OwnTrail;
        ghost var s := View();
        var step := Step(w, outside(k));
        if step.None? {
          return;
        }
        ReachesSnoc(conf, old(View()), ls, s, step.value);
        StepLowersMeasure(conf, s, step.value);
        OneMoreStep(w, outside, ls, step.value);
        ls, k := ls + [step.value], k + 1;
      }
    }

    /** Any interleaving of the goroutines, as the scheduler picks them. `at` gives for each
        step of the system the turn that made it. */
    method Run(schedule: seq<Turn>) returns (ghost ls: seq<Label>, ghost at: seq<nat>)
      requires Valid()
      requires forall k :: 0 <= k < |schedule| && schedule[k].who.Dispatcher? ==> schedule[k].who.i < |networks|
      modifies this, preCheckpointCh`buffer, finalOut`buffer, dispatchFailureCh`buffer, errorSubmissionCh`buffer
      ensures Valid() && Reaches(conf, old(View()), ls, View())
      ensures old(View()) == Init(conf) ==> Reachable(conf, View())
      ensures Trail(schedule, ls, at)
    {
      ls, at := [], [];
      for k := 0 to |schedule|
        invariant Valid() && Reaches(conf, old(View()), ls, View())
        invariant Trail(schedule[..k], ls, at)
      {
        hide Next, Enabled, Trail;
        ghost var s := View();
        var step := Step(schedule[k].who, schedule[k].outside);
        if step.Some? {
          ReachesSnoc(conf, old(View()), ls, s, step.value);
        }
        OneMoreTurn(schedule, k, ls, at, step);
        if step.Some? {
          ls, at := ls + [step.value], at + [k];
        }
      }
      assert schedule[..|schedule|] == schedule;
    }
  }
}
