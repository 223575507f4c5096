/**
 The chainstream pipeline as a step system (internal/chainstream, internal/blockproc/wallet.go).

 Every receive, every send, every store write and every foreign call of a goroutine is one
 step; steps of different goroutines interleave freely until the context is cancelled. What
 a goroutine has received and not yet passed on is in its "hand".
 */
module Pipeline {
  import opened Wrappers
  import opened Chainstream

  const OBSERVED_BLOCK_BUFFER := 10
  const DISPATCH_FAILURE_BUFFER := 5
  const RETRY_FAILURE_BUFFER := 5

  /** What a Retry implementation returns after a successful operation: the worker expects
      nil, the repository's own retrier returns an empty slice. */
  datatype SuccessShape = NilSlice | EmptySlice

  datatype RetryPolicy = RetryPolicy(attempts: nat, shape: SuccessShape)

  /** The registered networks (keys of a Go map, hence distinct), what each subscription
      will deliver, and the optional retry. */
  datatype Config = Config(
    names: seq<string>, sources: seq<seq<BlockchainEvent>>, retry: Option<RetryPolicy>)

  ghost predicate ValidConfig(c: Config) {
    && |c.names| == |c.sources|
    && (forall i, j :: 0 <= i < j < |c.names| ==> c.names[i] != c.names[j])
    && (c.retry.Some? ==> c.retry.value.attempts >= 1)
  }

  /** History only, no step looks at it: which goroutine put a block on preCheckpointCh. */
  datatype Origin = Direct | Recovered

  datatype Item = Item(block: ObservedBlock, origin: Origin)

  /** How the retry of one failure ended. */
  datatype Outcome = Outcome(original: BlockDispatchFailure, retryErrs: seq<Error>, recovered: Option<Block>)

  datatype RetryWorker =
    | RetryIdle
    | Trying(failure: BlockDispatchFailure, errs: seq<Error>)
    | Sending(failure: BlockDispatchFailure, block: Block)
    | Reporting(outcome: Outcome)

  datatype CheckpointWorker = CheckpointIdle | Unsaved(item: Item) | Saved(item: Item)

  datatype SaveAttempt = SaveAttempt(item: Item, ok: bool)

  datatype State = State(
    taken: seq<nat>,                                // events received per subscription
    hands: seq<Option<BlockchainEvent>>,            // dispatchSubscriptionEvents, one per network
    preCheckpointCh: seq<Item>,
    retryFailureCh: seq<BlockDispatchFailure>,
    dispatchFailureCh: seq<BlockDispatchFailure>,
    finalOut: seq<Item>,
    retrier: RetryWorker,                           // retryFailedBlockFetches
    checkpointer: CheckpointWorker,                 // checkpointAndForward
    consumer: Option<Item>,                         // handleWalletActivity
    notifier: Option<BlockDispatchFailure>,         // handleDispatchFailures
    saves: seq<SaveAttempt>,                        // SaveCheckpoint calls that returned
    handled: seq<Item>,                             // NotifyWatchedTransactions calls that returned
    reported: seq<BlockDispatchFailure>,            // NotifyDispatchFailure calls that returned
    outcomes: seq<Outcome>)                         // failures the retry worker is done with

  function Init(c: Config): State {
    State(seq(|c.names|, _ => 0), seq(|c.names|, _ => None),
          [], [], [], [], RetryIdle, CheckpointIdle, None, None, [], [], [], [])
  }

  predicate Shape(c: Config, s: State) {
    && |c.names| == |c.sources| == |s.taken| == |s.hands|
    && forall i :: 0 <= i < |s.taken| ==> s.taken[i] <= |c.sources[i]|
  }

  datatype Label =
    | Receive(i: nat) | Dispatch(i: nat)
    | RetryReceive | RetryFetch(result: Result<Block, Error>) | RetrySend | RetryGiveUp | RetryReport
    | CheckpointReceive | CheckpointSave(ok: bool) | CheckpointForward
    | NotifierReceive | NotifierReport
    | ConsumerReceive | ConsumerHandle

  /** FirstNonNil(retryFailureCh, dispatchFailureCh) has room. */
  predicate ErrorChannelHasRoom(c: Config, s: State) {
    if c.retry.Some? then |s.retryFailureCh| < RETRY_FAILURE_BUFFER
    else |s.dispatchFailureCh| < DISPATCH_FAILURE_BUFFER
  }

  predicate Enabled(c: Config, s: State, l: Label)
    requires Shape(c, s)
  {
    match l
    case Receive(i) => i < |s.hands| && s.hands[i].None? && s.taken[i] < |c.sources[i]|
    case Dispatch(i) =>
      i < |s.hands| && s.hands[i].Some?
      && if s.hands[i].value.err.None? then |s.preCheckpointCh| < OBSERVED_BLOCK_BUFFER
         else ErrorChannelHasRoom(c, s)
    case RetryReceive => c.retry.Some? && s.retrier.RetryIdle? && s.retryFailureCh != []
    case RetryFetch(result) =>
      c.retry.Some? && s.retrier.Trying? && |s.retrier.errs| < c.retry.value.attempts
      && (s.retrier.failure.network !in c.names ==> result.Failure?)
    case RetrySend => c.retry.Some? && s.retrier.Sending? && |s.preCheckpointCh| < OBSERVED_BLOCK_BUFFER
    case RetryGiveUp => c.retry.Some? && s.retrier.Trying? && |s.retrier.errs| == c.retry.value.attempts
    case RetryReport => c.retry.Some? && s.retrier.Reporting? && |s.dispatchFailureCh| < DISPATCH_FAILURE_BUFFER
    case CheckpointReceive => s.checkpointer.CheckpointIdle? && s.preCheckpointCh != []
    case CheckpointSave(_) => s.checkpointer.Unsaved?
    case CheckpointForward => s.checkpointer.Saved? && |s.finalOut| < OBSERVED_BLOCK_BUFFER
    case NotifierReceive => s.notifier.None? && s.dispatchFailureCh != []
    case NotifierReport => s.notifier.Some?
    case ConsumerReceive => s.consumer.None? && s.finalOut != []
    case ConsumerHandle => s.consumer.Some?
  }

  function FailureOf(name: string, e: BlockchainEvent): BlockDispatchFailure
    requires e.err.Some?
  {
    BlockDispatchFailure(name, e.height, [e.err.value])
  }

  /** What the retry worker sends on the failure channel, if anything: nothing only after a
      recovery answered by a nil slice. */
  function ReportOf(shape: SuccessShape, o: Outcome): Option<BlockDispatchFailure> {
    if o.recovered.Some? && shape == NilSlice then None
    else Some(BlockDispatchFailure(o.original.network, o.original.height, o.original.errors + o.retryErrs))
  }

  function Next(c: Config, s: State, l: Label): (t: State)
    requires Shape(c, s) && Enabled(c, s, l)
    ensures Shape(c, t)
  {
    match l
    case Receive(i) =>
      s.(hands := s.hands[i := Some(c.sources[i][s.taken[i]])], taken := s.taken[i := s.taken[i] + 1])
    case Dispatch(i) =>
      var e := s.hands[i].value;
      var s' := s.(hands := s.hands[i := None]);
      if e.err.None? then
        s'.(preCheckpointCh := s.preCheckpointCh + [Item(ObservedBlock(c.names[i], e.block), Direct)])
      else if c.retry.Some? then s'.(retryFailureCh := s.retryFailureCh + [FailureOf(c.names[i], e)])
      else s'.(dispatchFailureCh := s.dispatchFailureCh + [FailureOf(c.names[i], e)])
    case RetryReceive =>
      s.(retrier := Trying(s.retryFailureCh[0], []), retryFailureCh := s.retryFailureCh[1..])
    case RetryFetch(result) =>
      (match result
       case Failure(e) => s.(retrier := Trying(s.retrier.failure, s.retrier.errs + [e]))
       case Success(b) => s.(retrier := Sending(s.retrier.failure, b)))
    case RetrySend =>
      var f, b := s.retrier.failure, s.retrier.block;
      var o := Outcome(f, [], Some(b));
      var s' := s.(preCheckpointCh := s.preCheckpointCh + [Item(ObservedBlock(f.network, b), Recovered)]);
      if c.retry.value.shape == NilSlice then s'.(retrier := RetryIdle, outcomes := s.outcomes + [o])
      else s'.(retrier := Reporting(o))
    case RetryGiveUp =>
      s.(retrier := Reporting(Outcome(s.retrier.failure, s.retrier.errs, None)))
    case RetryReport =>
      var o := s.retrier.outcome;
      s.(retrier := RetryIdle, outcomes := s.outcomes + [o],
         dispatchFailureCh := s.dispatchFailureCh
         + [BlockDispatchFailure(o.original.network, o.original.height, o.original.errors + o.retryErrs)])
    case CheckpointReceive =>
      s.(checkpointer := Unsaved(s.preCheckpointCh[0]), preCheckpointCh := s.preCheckpointCh[1..])
    case CheckpointSave(ok) =>
      s.(checkpointer := Saved(s.checkpointer.item), saves := s.saves + [SaveAttempt(s.checkpointer.item, ok)])
    case CheckpointForward =>
      s.(checkpointer := CheckpointIdle, finalOut := s.finalOut + [s.checkpointer.item])
    case NotifierReceive =>
      s.(notifier := Some(s.dispatchFailureCh[0]), dispatchFailureCh := s.dispatchFailureCh[1..])
    case NotifierReport =>
      s.(notifier := None, reported := s.reported + [s.notifier.value])
    case ConsumerReceive =>
      s.(consumer := Some(s.finalOut[0]), finalOut := s.finalOut[1..])
    case ConsumerHandle =>
      s.(consumer := None, handled := s.handled + [s.consumer.value])
  }

  /** `ls` is a schedule that leads from s to t. */
  ghost predicate Reaches(c: Config, s: State, ls: seq<Label>, t: State)
    requires Shape(c, s)
    decreases |ls|
  {
    if ls == [] then s == t
    else Enabled(c, s, ls[0]) && Reaches(c, Next(c, s, ls[0]), ls[1..], t)
  }

  lemma {:induction false} ReachesSnoc(c: Config, s: State, ls: seq<Label>, t: State, l: Label)
    requires Shape(c, s) && Reaches(c, s, ls, t)
    requires Shape(c, t) && Enabled(c, t, l)
    ensures Reaches(c, s, ls + [l], Next(c, t, l))
    decreases |ls|
  {
    if ls == [] {
      assert ([] + [l])[1..] == [];
    } else {
      assert (ls + [l])[1..] == ls[1..] + [l];
      ReachesSnoc(c, Next(c, s, ls[0]), ls[1..], t, l);
    }
  }

  /** t is a state of some uncancelled run of the configuration. */
  ghost predicate Reachable(c: Config, t: State) {
    ValidConfig(c) && exists ls :: Reaches(c, Init(c), ls, t)
  }

  // ---------- the lines things travel on ----------

  function CheckpointSlot(w: CheckpointWorker): seq<Item> {
    if w.CheckpointIdle? then [] else [w.item]
  }

  /** Every block on its way, read from the consumer back to preCheckpointCh. */
  function Line(s: State): seq<Item> {
    s.handled + Slot(s.consumer) + s.finalOut + CheckpointSlot(s.checkpointer) + s.preCheckpointCh
  }

  /** Everything sent on finalOut so far. */
  function Forwarded(s: State): seq<Item> {
    s.handled + Slot(s.consumer) + s.finalOut
  }

  /** Every failure on its way to the notifier, oldest first. */
  function Reports(s: State): seq<BlockDispatchFailure> {
    s.reported + Slot(s.notifier) + s.dispatchFailureCh
  }

  function RetrySlot(w: RetryWorker): seq<BlockDispatchFailure> {
    match w
    case RetryIdle => []
    case Trying(f, _) => [f]
    case Sending(f, _) => [f]
    case Reporting(o) => [o.original]
  }

  function Originals(os: seq<Outcome>): seq<BlockDispatchFailure> {
    if os == [] then [] else Originals(os[..|os| - 1]) + [os[|os| - 1].original]
  }

  /** Every failure handed to the retry worker, oldest first. */
  function Retries(s: State): seq<BlockDispatchFailure> {
    Originals(s.outcomes) + RetrySlot(s.retrier) + s.retryFailureCh
  }

  /** Every failure the dispatchers have sent, oldest first. */
  function Intake(c: Config, s: State): seq<BlockDispatchFailure> {
    if c.retry.Some? then Retries(s) else Reports(s)
  }

  /** The retries whose result is known, the one being reported included. */
  function Settled(s: State): seq<Outcome> {
    s.outcomes + if s.retrier.Reporting? then [s.retrier.outcome] else []
  }

  // ---------- what enters each line ----------

  function EnteringBlock(c: Config, s: State, l: Label): seq<Item>
    requires Shape(c, s) && Enabled(c, s, l)
  {
    match l
    case Dispatch(i) =>
      if s.hands[i].value.err.None? then [Item(ObservedBlock(c.names[i], s.hands[i].value.block), Direct)] else []
    case RetrySend => [Item(ObservedBlock(s.retrier.failure.network, s.retrier.block), Recovered)]
    case _ => []
  }

  function EnteringFailure(c: Config, s: State, l: Label): seq<BlockDispatchFailure>
    requires Shape(c, s) && Enabled(c, s, l)
  {
    if l.Dispatch? && s.hands[l.i].value.err.Some? then [FailureOf(c.names[l.i], s.hands[l.i].value)] else []
  }

  function EnteringReport(c: Config, s: State, l: Label): seq<BlockDispatchFailure>
    requires Shape(c, s) && Enabled(c, s, l)
  {
    if l.RetryReport? then
      var o := s.retrier.outcome;
      [BlockDispatchFailure(o.original.network, o.original.height, o.original.errors + o.retryErrs)]
    else if c.retry.None? then EnteringFailure(c, s, l)
    else []
  }

  function EnteringOutcome(c: Config, s: State, l: Label): seq<Outcome>
    requires Shape(c, s) && Enabled(c, s, l)
  {
    match l
    case RetrySend => [Outcome(s.retrier.failure, [], Some(s.retrier.block))]
    case RetryGiveUp => [Outcome(s.retrier.failure, s.retrier.errs, None)]
    case _ => []
  }

  /** Only the checkpoint worker adds to what has been sent on finalOut. */
  lemma ForwardedIsFifo(c: Config, s: State, l: Label)
    requires Shape(c, s) && Enabled(c, s, l)
    ensures Forwarded(Next(c, s, l)) == Forwarded(s) + if l.CheckpointForward? then [s.checkpointer.item] else []
  {
    if l.ConsumerReceive? {
      assert s.finalOut == [s.finalOut[0]] + s.finalOut[1..];
    }
  }

  lemma QueueIsFifo(c: Config, s: State, l: Label)
    requires Shape(c, s) && Enabled(c, s, l)
    ensures (if l.CheckpointForward? then [s.checkpointer.item] else [])
            + (CheckpointSlot(Next(c, s, l).checkpointer) + Next(c, s, l).preCheckpointCh)
            == CheckpointSlot(s.checkpointer) + s.preCheckpointCh + EnteringBlock(c, s, l)
  {
    if l.CheckpointReceive? {
      assert s.preCheckpointCh == [s.preCheckpointCh[0]] + s.preCheckpointCh[1..];
    }
  }

  lemma LineSplits(s: State)
    ensures Line(s) == Forwarded(s) + (CheckpointSlot(s.checkpointer) + s.preCheckpointCh)
  {
  }

  /** First in, first out over four goroutines and three channels: a step can only add a
      block at the far end of the line; it never reorders, drops or copies one. */
  lemma LineIsFifo(c: Config, s: State, l: Label)
    requires Shape(c, s) && Enabled(c, s, l)
    ensures Line(Next(c, s, l)) == Line(s) + EnteringBlock(c, s, l)
  {
    hide Line, Forwarded, CheckpointSlot, EnteringBlock, Next;
    var t := Next(c, s, l);
    LineSplits(s);
    LineSplits(t);
    ForwardedIsFifo(c, s, l);
    QueueIsFifo(c, s, l);
    var moved := if l.CheckpointForward? then [s.checkpointer.item] else [];
    assert Line(t) == Forwarded(s) + (moved + (CheckpointSlot(t.checkpointer) + t.preCheckpointCh));
  }

  lemma ReportsAreFifo(c: Config, s: State, l: Label)
    requires Shape(c, s) && Enabled(c, s, l)
    ensures Reports(Next(c, s, l)) == Reports(s) + EnteringReport(c, s, l)
  {
    match l
    case NotifierReceive => assert s.dispatchFailureCh == [s.dispatchFailureCh[0]] + s.dispatchFailureCh[1..];
    case _ =>
  }

  lemma {:induction false} OriginalsSnoc(os: seq<Outcome>, o: Outcome)
    ensures Originals(os + [o]) == Originals(os) + [o.original]
  {
    assert (os + [o])[..|os|] == os;
  }

  lemma RetriesAreFifo(c: Config, s: State, l: Label)
    requires Shape(c, s) && Enabled(c, s, l)
    ensures Retries(Next(c, s, l)) == Retries(s) + if c.retry.Some? then EnteringFailure(c, s, l) else []
  {
    hide Originals;
    match l
    case RetryReceive => assert s.retryFailureCh == [s.retryFailureCh[0]] + s.retryFailureCh[1..];
    case RetrySend => OriginalsSnoc(s.outcomes, Outcome(s.retrier.failure, [], Some(s.retrier.block)));
    case RetryReport => OriginalsSnoc(s.outcomes, s.retrier.outcome);
    case _ =>
  }

  lemma SettledGrows(c: Config, s: State, l: Label)
    requires Shape(c, s) && Enabled(c, s, l)
    ensures Settled(Next(c, s, l)) == Settled(s) + EnteringOutcome(c, s, l)
  {
  }

  // ---------- projections ----------

  /** The blocks of one network that its own dispatcher put on the line, in line order. */
  function DirectBlocks(line: seq<Item>, name: string): seq<Block> {
    if line == [] then []
    else
      var x := line[|line| - 1];
      DirectBlocks(line[..|line| - 1], name)
      + if x.origin.Direct? && x.block.network == name then [x.block.block] else []
  }

  /** All blocks of one network, in line order. */
  function BlocksOn(line: seq<Item>, name: string): seq<Block> {
    if line == [] then []
    else
      var x := line[|line| - 1];
      BlocksOn(line[..|line| - 1], name) + if x.block.network == name then [x.block.block] else []
  }

  function RecoveredBlocks(line: seq<Item>): seq<ObservedBlock> {
    if line == [] then []
    else
      var x := line[|line| - 1];
      RecoveredBlocks(line[..|line| - 1]) + if x.origin.Recovered? then [x.block] else []
  }

  function FailuresOn(fs: seq<BlockDispatchFailure>, name: string): seq<BlockDispatchFailure> {
    if fs == [] then []
    else
      var x := fs[|fs| - 1];
      FailuresOn(fs[..|fs| - 1], name) + if x.network == name then [x] else []
  }

  /** The blocks a subscription delivered without an error. */
  function Successes(events: seq<BlockchainEvent>): seq<Block> {
    if events == [] then []
    else
      var e := events[|events| - 1];
      Successes(events[..|events| - 1]) + if e.err.None? then [e.block] else []
  }

  /** The events a subscription delivered with an error, as failures of the network. */
  function Failures(name: string, events: seq<BlockchainEvent>): seq<BlockDispatchFailure> {
    if events == [] then []
    else
      var e := events[|events| - 1];
      Failures(name, events[..|events| - 1]) + if e.err.Some? then [FailureOf(name, e)] else []
  }

  function RecoveredBy(os: seq<Outcome>): seq<ObservedBlock> {
    if os == [] then []
    else
      var o := os[|os| - 1];
      RecoveredBy(os[..|os| - 1])
      + if o.recovered.Some? then [ObservedBlock(o.original.network, o.recovered.value)] else []
  }

  function ReportedBy(shape: SuccessShape, os: seq<Outcome>): seq<BlockDispatchFailure> {
    if os == [] then []
    else ReportedBy(shape, os[..|os| - 1]) + Slot(ReportOf(shape, os[|os| - 1]))
  }

  function SavedItems(saves: seq<SaveAttempt>): seq<Item> {
    if saves == [] then [] else SavedItems(saves[..|saves| - 1]) + [saves[|saves| - 1].item]
  }
}
