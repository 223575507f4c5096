/** The promises of the pipeline, for every reachable state of every configuration. */
module PipelineTheorems {
  import opened Wrappers
  import opened Chainstream
  import opened Pipeline
  import opened PipelineSafety

  /** Conservation. Place by place from the consumer back to the dispatcher, the blocks a
      network's dispatcher has sent or holds are its successful events so far: each event
      is in exactly one place, in order, and nothing else is there. */
  lemma Conservation(c: Config, t: State, i: nat)
    requires Reachable(c, t) && i < |c.names|
    ensures Shape(c, t)
    ensures DirectBlocks(t.handled, c.names[i])
            + DirectBlocks(Slot(t.consumer), c.names[i])
            + DirectBlocks(t.finalOut, c.names[i])
            + DirectBlocks(CheckpointSlot(t.checkpointer), c.names[i])
            + DirectBlocks(t.preCheckpointCh, c.names[i])
            + HandBlock(t.hands[i])
            == Successes(c.sources[i][..t.taken[i]])
  {
    ReachableInv(c, t);
    var name := c.names[i];
    var a, b, d, e := t.handled, Slot(t.consumer), t.finalOut, CheckpointSlot(t.checkpointer);
    DirectBlocksConcat(a, b, name);
    DirectBlocksConcat(a + b, d, name);
    DirectBlocksConcat(a + b + d, e, name);
    DirectBlocksConcat(a + b + d + e, t.preCheckpointCh, name);
    assert BlocksConserved(c, t, i);
  }

  /** The same for failed events: reported, at the notifier or queued for it when there is
      no retry; finished, at the retry worker or queued for it when there is. */
  lemma FailureConservation(c: Config, t: State, i: nat)
    requires Reachable(c, t) && i < |c.names|
    ensures Shape(c, t)
    ensures c.retry.None? ==>
              FailuresOn(t.reported, c.names[i]) + FailuresOn(Slot(t.notifier), c.names[i])
              + FailuresOn(t.dispatchFailureCh, c.names[i]) + HandFailure(c.names[i], t.hands[i])
              == Failures(c.names[i], c.sources[i][..t.taken[i]])
    ensures c.retry.Some? ==>
              FailuresOn(Originals(t.outcomes), c.names[i]) + FailuresOn(RetrySlot(t.retrier), c.names[i])
              + FailuresOn(t.retryFailureCh, c.names[i]) + HandFailure(c.names[i], t.hands[i])
              == Failures(c.names[i], c.sources[i][..t.taken[i]])
  {
    ReachableInv(c, t);
    var name := c.names[i];
    assert FailuresConserved(c, t, i);
    FailuresOnConcat(t.reported, Slot(t.notifier), name);
    FailuresOnConcat(t.reported + Slot(t.notifier), t.dispatchFailureCh, name);
    FailuresOnConcat(Originals(t.outcomes), RetrySlot(t.retrier), name);
    FailuresOnConcat(Originals(t.outcomes) + RetrySlot(t.retrier), t.retryFailureCh, name);
  }

  lemma {:induction false} NoneRecovered(line: seq<Item>, name: string)
    requires RecoveredBlocks(line) == []
    ensures BlocksOn(line, name) == DirectBlocks(line, name)
  {
    if line != [] {
      NoneRecovered(line[..|line| - 1], name);
    }
  }

  /** Per-network order. However the networks interleave, what a network's dispatcher got
      forwarded is a prefix of the network's successful events in source order; with no
      retry that is everything forwarded for the network. */
  lemma NetworkOrder(c: Config, t: State, i: nat)
    requires Reachable(c, t) && i < |c.names|
    ensures Shape(c, t)
    ensures DirectBlocks(Forwarded(t), c.names[i]) <= Successes(c.sources[i][..t.taken[i]]) <= Successes(c.sources[i])
    ensures c.retry.None? ==> BlocksOn(Forwarded(t), c.names[i]) == DirectBlocks(Forwarded(t), c.names[i])
  {
    ReachableInv(c, t);
    assert BlocksConserved(c, t, i);
    LineSplits(t);
    DirectBlocksConcat(Forwarded(t), CheckpointSlot(t.checkpointer) + t.preCheckpointCh, c.names[i]);
    SuccessesPrefix(c.sources[i], t.taken[i]);
    if c.retry.None? {
      assert Settled(t) == [];
      RecoveredBlocksConcat(Forwarded(t), CheckpointSlot(t.checkpointer) + t.preCheckpointCh);
      NoneRecovered(Forwarded(t), c.names[i]);
    }
  }

  lemma {:induction false} SavedItemsLength(saves: seq<SaveAttempt>)
    ensures |SavedItems(saves)| == |saves|
  {
    if saves != [] {
      SavedItemsLength(saves[..|saves| - 1]);
    }
  }

  /** Loss window. The blocks whose save has been attempted are those handled so far
      followed by at most twelve that a crash would lose: the consumer's, those in
      finalOut, and the one the checkpoint worker is about to forward. */
  lemma LossWindow(c: Config, t: State)
    requires Reachable(c, t)
    ensures t.handled <= SavedItems(t.saves)
    ensures |t.saves| - |t.handled| <= OBSERVED_BLOCK_BUFFER + 2 == 12
  {
    ReachableInv(c, t);
    SavedItemsLength(t.saves);
  }

  /** Failures that are not yet disposed of wait in two channels of five and two hands. */
  lemma FailureWindow(c: Config, t: State)
    requires Reachable(c, t)
    ensures |Reports(t)| - |t.reported| <= DISPATCH_FAILURE_BUFFER + 1 == 6
    ensures c.retry.Some? ==> |Retries(t)| - |t.outcomes| <= RETRY_FAILURE_BUFFER + 1 == 6
  {
    ReachableInv(c, t);
    OriginalsLength(t.outcomes);
  }

  lemma {:induction false} OriginalsLength(os: seq<Outcome>)
    ensures |Originals(os)| == |os|
  {
    if os != [] {
      OriginalsLength(os[..|os| - 1]);
    }
  }

  // ---------- what becomes of a failed event ----------

  lemma {:induction false} ReportedByCount(shape: SuccessShape, os: seq<Outcome>)
    ensures shape == EmptySlice ==> |ReportedBy(shape, os)| == |os|
    ensures shape == NilSlice ==> |ReportedBy(shape, os)| + |RecoveredBy(os)| == |os|
  {
    if os != [] {
      ReportedByCount(shape, os[..|os| - 1]);
    }
  }

  /** With a Retry that answers success by nil, every finished retry is either a recovered
      block or a report, never both; with the repository's retrier, which answers by an
      empty slice, every finished retry is reported, the recovered ones included. */
  lemma RetryCounts(c: Config, t: State)
    requires Reachable(c, t) && c.retry.Some?
    ensures c.retry.value.shape == EmptySlice ==>
              |Reports(t)| == |t.outcomes| && |RecoveredBlocks(Line(t))| <= |t.outcomes| + 1
    ensures c.retry.value.shape == NilSlice ==>
              |Reports(t)| + |RecoveredBlocks(Line(t))| == |t.outcomes|
  {
    ReachableInv(c, t);
    var tail := if t.retrier.Reporting? then [t.retrier.outcome] else [];
    RecoveredByConcat(t.outcomes, tail);
    assert tail != [] ==> tail[..0] == [];
    ReportedByCount(c.retry.value.shape, t.outcomes);
    ReportedByCount(NilSlice, t.outcomes);
  }

  lemma {:induction false} FailuresComeFromEvents(name: string, events: seq<BlockchainEvent>, f: BlockDispatchFailure)
    requires f in Failures(name, events)
    ensures exists k :: 0 <= k < |events| && events[k].err.Some? && f == FailureOf(name, events[k])
  {
    var n := |events| - 1;
    if f in Failures(name, events[..n]) {
      FailuresComeFromEvents(name, events[..n], f);
      var k :| 0 <= k < n && events[..n][k].err.Some? && f == FailureOf(name, events[..n][k]);
      assert events[k] == events[..n][k];
    } else {
      assert f == FailureOf(name, events[n]);
    }
  }

  lemma {:induction false} OnNetwork(fs: seq<BlockDispatchFailure>, f: BlockDispatchFailure)
    requires f in fs
    ensures f in FailuresOn(fs, f.network)
  {
    var n := |fs| - 1;
    assert fs == fs[..n] + [fs[n]];
    if f != fs[n] {
      OnNetwork(fs[..n], f);
    }
  }

  lemma {:induction false} ReportComesFromOutcome(shape: SuccessShape, os: seq<Outcome>, r: BlockDispatchFailure)
    requires r in ReportedBy(shape, os)
    ensures exists o :: o in os && ReportOf(shape, o) == Some(r)
  {
    var n := |os| - 1;
    if r in ReportedBy(shape, os[..n]) {
      ReportComesFromOutcome(shape, os[..n], r);
      var o :| o in os[..n] && ReportOf(shape, o) == Some(r);
      assert o in os;
    } else {
      assert os[n] in os;
    }
  }

  lemma {:induction false} OriginalOf(os: seq<Outcome>, o: Outcome)
    requires o in os
    ensures o.original in Originals(os)
  {
    var n := |os| - 1;
    assert os == os[..n] + [os[n]];
    if o != os[n] {
      OriginalOf(os[..n], o);
    }
  }

  /** A failure on its way through the pipeline is one of the events taken from its network. */
  lemma IntakeComesFromEvents(c: Config, t: State, f: BlockDispatchFailure) returns (i: nat, k: nat)
    requires ValidConfig(c) && Inv(c, t) && f in Intake(c, t)
    ensures i < |c.names| && k < t.taken[i] && c.sources[i][k].err.Some?
    ensures f == FailureOf(c.names[i], c.sources[i][k])
  {
    assert f.network in c.names;
    i :| 0 <= i < |c.names| && c.names[i] == f.network;
    OnNetwork(Intake(c, t), f);
    assert FailuresConserved(c, t, i);
    var events := c.sources[i][..t.taken[i]];
    FailuresComeFromEvents(c.names[i], events, f);
    var j :| 0 <= j < |events| && events[j].err.Some? && f == FailureOf(c.names[i], events[j]);
    k := j;
  }

  /** A recovered block belongs to exactly one retry, and a retry to at most one recovered
      block: the recovered blocks on the line are, in order, those of the settled retries. */
  lemma RecoveredAtMostOnce(c: Config, t: State)
    requires Reachable(c, t)
    ensures RecoveredBlocks(Line(t)) == RecoveredBy(Settled(t))
    ensures c.retry.None? ==> RecoveredBlocks(Line(t)) == []
    ensures forall o :: o in Settled(t) && o.recovered.Some? ==> o.retryErrs == []
  {
    ReachableInv(c, t);
  }
}
