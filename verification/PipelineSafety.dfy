/** What every reachable state of the pipeline satisfies, over all interleavings. */
module PipelineSafety {
  import opened Wrappers
  import opened Chainstream
  import opened Pipeline

  // ---------- projections distribute over concatenation ----------

  lemma {:induction false} DirectBlocksConcat(a: seq<Item>, b: seq<Item>, name: string)
    ensures DirectBlocks(a + b, name) == DirectBlocks(a, name) + DirectBlocks(b, name)
  {
    if b == [] {
      assert a + b == a;
    } else {
      assert (a + b)[..|a + b| - 1] == a + b[..|b| - 1];
      DirectBlocksConcat(a, b[..|b| - 1], name);
    }
  }

  lemma {:induction false} RecoveredBlocksConcat(a: seq<Item>, b: seq<Item>)
    ensures RecoveredBlocks(a + b) == RecoveredBlocks(a) + RecoveredBlocks(b)
  {
    if b == [] {
      assert a + b == a;
    } else {
      assert (a + b)[..|a + b| - 1] == a + b[..|b| - 1];
      RecoveredBlocksConcat(a, b[..|b| - 1]);
    }
  }

  lemma {:induction false} FailuresOnConcat(a: seq<BlockDispatchFailure>, b: seq<BlockDispatchFailure>, name: string)
    ensures FailuresOn(a + b, name) == FailuresOn(a, name) + FailuresOn(b, name)
  {
    if b == [] {
      assert a + b == a;
    } else {
      assert (a + b)[..|a + b| - 1] == a + b[..|b| - 1];
      FailuresOnConcat(a, b[..|b| - 1], name);
    }
  }

  lemma {:induction false} SuccessesPrefix(events: seq<BlockchainEvent>, k: nat)
    requires k <= |events|
    ensures Successes(events[..k]) <= Successes(events)
  {
    if k < |events| {
      SuccessesPrefix(events[..|events| - 1], k);
      assert events[..|events| - 1][..k] == events[..k];
    } else {
      assert events[..k] == events;
    }
  }

  // ---------- the invariant ----------

  function HandBlock(h: Option<BlockchainEvent>): seq<Block> {
    if h.Some? && h.value.err.None? then [h.value.block] else []
  }

  function HandFailure(name: string, h: Option<BlockchainEvent>): seq<BlockDispatchFailure> {
    if h.Some? && h.value.err.Some? then [FailureOf(name, h.value)] else []
  }

  ghost predicate Capacities(s: State) {
    && |s.preCheckpointCh| <= OBSERVED_BLOCK_BUFFER && |s.finalOut| <= OBSERVED_BLOCK_BUFFER
    && |s.retryFailureCh| <= RETRY_FAILURE_BUFFER && |s.dispatchFailureCh| <= DISPATCH_FAILURE_BUFFER
  }

  /** Network i's dispatched blocks, from the consumer back to its dispatcher's hand, are
      exactly its successful events so far, in order. */
  ghost predicate BlocksConserved(c: Config, s: State, i: nat)
    requires Shape(c, s) && i < |c.names|
  {
    DirectBlocks(Line(s), c.names[i]) + HandBlock(s.hands[i]) == Successes(c.sources[i][..s.taken[i]])
  }

  /** The same for its failed events. */
  ghost predicate FailuresConserved(c: Config, s: State, i: nat)
    requires Shape(c, s) && i < |c.names|
  {
    FailuresOn(Intake(c, s), c.names[i]) + HandFailure(c.names[i], s.hands[i])
      == Failures(c.names[i], c.sources[i][..s.taken[i]])
  }

  /** Recovered blocks and failure reports are those of the finished retries, in order. */
  ghost predicate RetryAccounted(c: Config, s: State) {
    && RecoveredBlocks(Line(s)) == RecoveredBy(Settled(s))
    && (c.retry.Some? ==> Reports(s) == ReportedBy(c.retry.value.shape, s.outcomes))
    && (c.retry.None? ==> s.retrier.RetryIdle? && s.outcomes == [] && s.retryFailureCh == [])
  }

  ghost predicate OutcomesWellFormed(c: Config, s: State) {
    && (forall o :: o in Settled(s) ==> (o.recovered.Some? <==> o.retryErrs == []))
    && (s.retrier.Reporting? && c.retry.Some? && c.retry.value.shape == NilSlice ==> s.retrier.outcome.recovered.None?)
    && (s.retrier.Trying? && c.retry.Some? ==> |s.retrier.errs| <= c.retry.value.attempts)
  }

  /** Only registered networks occur, so the lookup in the retry worker never misses. */
  ghost predicate Registered(c: Config, s: State) {
    && (forall x :: x in Line(s) ==> x.block.network in c.names)
    && (forall f :: f in Retries(s) ==> f.network in c.names)
    && (forall f :: f in Reports(s) ==> f.network in c.names)
  }

  /** A save is attempted for every block before it is forwarded, once, in line order. */
  ghost predicate SavesAccounted(s: State) {
    SavedItems(s.saves) == Forwarded(s) + if s.checkpointer.Saved? then [s.checkpointer.item] else []
  }

  ghost predicate Inv(c: Config, s: State) {
    && Shape(c, s) && Capacities(s)
    && (forall i :: 0 <= i < |c.names| ==> BlocksConserved(c, s, i))
    && (forall i :: 0 <= i < |c.names| ==> FailuresConserved(c, s, i))
    && RetryAccounted(c, s) && OutcomesWellFormed(c, s) && Registered(c, s) && SavesAccounted(s)
  }

  lemma InitHolds(c: Config)
    requires ValidConfig(c)
    ensures Inv(c, Init(c))
  {
    var s := Init(c);
    assert Line(s) == [] && Reports(s) == [] && Retries(s) == [] && Settled(s) == [];
    forall i | 0 <= i < |c.names| ensures BlocksConserved(c, s, i) && FailuresConserved(c, s, i) {
      assert c.sources[i][..s.taken[i]] == [];
    }
  }

  lemma TakeOne(c: Config, s: State, i: nat)
    requires Shape(c, s) && Enabled(c, s, Receive(i))
    ensures var e := c.sources[i][s.taken[i]];
            && Successes(c.sources[i][..s.taken[i] + 1]) == Successes(c.sources[i][..s.taken[i]]) + HandBlock(Some(e))
            && Failures(c.names[i], c.sources[i][..s.taken[i] + 1])
               == Failures(c.names[i], c.sources[i][..s.taken[i]]) + HandFailure(c.names[i], Some(e))
  {
    assert c.sources[i][..s.taken[i] + 1][..s.taken[i]] == c.sources[i][..s.taken[i]];
  }

  lemma OwnHand(c: Config, s: State, l: Label, i: nat)
    requires Shape(c, s) && Enabled(c, s, l) && i < |c.names|
    ensures var t := Next(c, s, l);
            if l == Receive(i) then
              s.hands[i].None? && t.hands[i] == Some(c.sources[i][s.taken[i]]) && t.taken[i] == s.taken[i] + 1
            else
              t.taken[i] == s.taken[i]
              && t.hands[i] == if l == Dispatch(i) then None else s.hands[i]
  {
  }

  lemma BlocksStayConserved(c: Config, s: State, l: Label, i: nat)
    requires ValidConfig(c) && Shape(c, s) && Enabled(c, s, l) && i < |c.names|
    requires BlocksConserved(c, s, i)
    ensures BlocksConserved(c, Next(c, s, l), i)
  {
    hide Next, Line;
    LineIsFifo(c, s, l);
    DirectBlocksConcat(Line(s), EnteringBlock(c, s, l), c.names[i]);
    OwnHand(c, s, l, i);
    if l == Receive(i) {
      TakeOne(c, s, i);
    }
  }

  lemma IntakeIsFifo(c: Config, s: State, l: Label)
    requires Shape(c, s) && Enabled(c, s, l)
    ensures Intake(c, Next(c, s, l)) == Intake(c, s) + EnteringFailure(c, s, l)
  {
    hide Next, Reports, Retries;
    ReportsAreFifo(c, s, l);
    RetriesAreFifo(c, s, l);
    assert c.retry.Some? ==> Intake(c, s) == Retries(s);
  }

  lemma FailuresStayConserved(c: Config, s: State, l: Label, i: nat)
    requires ValidConfig(c) && Shape(c, s) && Enabled(c, s, l) && i < |c.names|
    requires FailuresConserved(c, s, i)
    ensures FailuresConserved(c, Next(c, s, l), i)
  {
    hide Next, Intake;
    IntakeIsFifo(c, s, l);
    FailuresOnConcat(Intake(c, s), EnteringFailure(c, s, l), c.names[i]);
    OwnHand(c, s, l, i);
    if l == Receive(i) {
      TakeOne(c, s, i);
    }
  }

  lemma {:induction false} RecoveredByConcat(a: seq<Outcome>, b: seq<Outcome>)
    ensures RecoveredBy(a + b) == RecoveredBy(a) + RecoveredBy(b)
  {
    if b == [] {
      assert a + b == a;
    } else {
      assert (a + b)[..|a + b| - 1] == a + b[..|b| - 1];
      RecoveredByConcat(a, b[..|b| - 1]);
    }
  }

  lemma RecoveriesStayAccounted(c: Config, s: State, l: Label)
    requires Shape(c, s) && Enabled(c, s, l)
    requires RecoveredBlocks(Line(s)) == RecoveredBy(Settled(s))
    ensures RecoveredBlocks(Line(Next(c, s, l))) == RecoveredBy(Settled(Next(c, s, l)))
  {
    hide Next, Line, Settled;
    LineIsFifo(c, s, l);
    RecoveredBlocksConcat(Line(s), EnteringBlock(c, s, l));
    SettledGrows(c, s, l);
    RecoveredByConcat(Settled(s), EnteringOutcome(c, s, l));
  }

  lemma FinishedBy(c: Config, s: State, l: Label)
    requires Shape(c, s) && Enabled(c, s, l) && c.retry.Some? && OutcomesWellFormed(c, s)
    ensures var t := Next(c, s, l);
            || (t.outcomes == s.outcomes && EnteringReport(c, s, l) == [])
            || (exists o :: t.outcomes == s.outcomes + [o] && EnteringReport(c, s, l) == Slot(ReportOf(c.retry.value.shape, o)))
  {
    match l
    case RetrySend =>
      var o := Outcome(s.retrier.failure, [], Some(s.retrier.block));
      assert c.retry.value.shape == NilSlice ==>
          Next(c, s, l).outcomes == s.outcomes + [o] && Slot(ReportOf(c.retry.value.shape, o)) == [];
    case RetryReport =>
      assert Next(c, s, l).outcomes == s.outcomes + [s.retrier.outcome];
    case _ =>
  }

  lemma ReportsStayAccounted(c: Config, s: State, l: Label)
    requires Shape(c, s) && Enabled(c, s, l) && c.retry.Some? && OutcomesWellFormed(c, s)
    requires Reports(s) == ReportedBy(c.retry.value.shape, s.outcomes)
    ensures Reports(Next(c, s, l)) == ReportedBy(c.retry.value.shape, Next(c, s, l).outcomes)
  {
    hide Next, Reports, OutcomesWellFormed, ReportOf;
    var t := Next(c, s, l);
    ReportsAreFifo(c, s, l);
    FinishedBy(c, s, l);
    if t.outcomes != s.outcomes {
      var o :| t.outcomes == s.outcomes + [o] && EnteringReport(c, s, l) == Slot(ReportOf(c.retry.value.shape, o));
      assert t.outcomes[..|s.outcomes|] == s.outcomes;
    }
  }

  lemma RetryStaysOff(c: Config, s: State, l: Label)
    requires Shape(c, s) && Enabled(c, s, l) && c.retry.None?
    requires s.retrier.RetryIdle? && s.outcomes == [] && s.retryFailureCh == []
    ensures var t := Next(c, s, l); t.retrier.RetryIdle? && t.outcomes == [] && t.retryFailureCh == []
  {
  }

  lemma RetryStaysAccounted(c: Config, s: State, l: Label)
    requires Shape(c, s) && Enabled(c, s, l) && RetryAccounted(c, s) && OutcomesWellFormed(c, s)
    ensures RetryAccounted(c, Next(c, s, l))
  {
    hide Next, Enabled, Line, Reports, Settled;
    RecoveriesStayAccounted(c, s, l);
    if c.retry.Some? {
      ReportsStayAccounted(c, s, l);
    } else {
      RetryStaysOff(c, s, l);
    }
  }

  lemma OutcomesStayWellFormed(c: Config, s: State, l: Label)
    requires ValidConfig(c) && Shape(c, s) && Enabled(c, s, l) && OutcomesWellFormed(c, s)
    ensures OutcomesWellFormed(c, Next(c, s, l))
  {
    SettledGrows(c, s, l);
  }

  lemma StaysRegistered(c: Config, s: State, l: Label)
    requires Shape(c, s) && Enabled(c, s, l) && Registered(c, s)
    ensures Registered(c, Next(c, s, l))
  {
    LineIsFifo(c, s, l);
    ReportsAreFifo(c, s, l);
    RetriesAreFifo(c, s, l);
    if s.retrier != RetryIdle {
      var f := RetrySlot(s.retrier)[0];
      assert Retries(s)[|Originals(s.outcomes)|] == f;
      assert f in Retries(s);
    }
  }

  lemma SavesStayAccounted(c: Config, s: State, l: Label)
    requires Shape(c, s) && Enabled(c, s, l) && SavesAccounted(s)
    ensures SavesAccounted(Next(c, s, l))
  {
    hide Forwarded;
    ForwardedIsFifo(c, s, l);
    if l.CheckpointSave? {
      assert (s.saves + [SaveAttempt(s.checkpointer.item, l.ok)])[..|s.saves|] == s.saves;
    }
  }

  lemma StepKeepsInv(c: Config, s: State, l: Label)
    requires ValidConfig(c) && Inv(c, s) && Enabled(c, s, l)
    ensures Inv(c, Next(c, s, l))
  {
    var t := Next(c, s, l);
    assert Capacities(t);
    forall i | 0 <= i < |c.names| ensures BlocksConserved(c, t, i) && FailuresConserved(c, t, i) {
      BlocksStayConserved(c, s, l, i);
      FailuresStayConserved(c, s, l, i);
    }
    RetryStaysAccounted(c, s, l);
    OutcomesStayWellFormed(c, s, l);
    StaysRegistered(c, s, l);
    SavesStayAccounted(c, s, l);
  }

  lemma {:induction false} RunKeepsInv(c: Config, s: State, ls: seq<Label>, t: State)
    requires ValidConfig(c) && Inv(c, s) && Reaches(c, s, ls, t)
    ensures Inv(c, t)
    decreases |ls|
  {
    if ls != [] {
      StepKeepsInv(c, s, ls[0]);
      RunKeepsInv(c, Next(c, s, ls[0]), ls[1..], t);
    }
  }

  lemma ReachableInv(c: Config, t: State)
    requires Reachable(c, t)
    ensures Inv(c, t)
  {
    var ls :| Reaches(c, Init(c), ls, t);
    InitHolds(c);
    RunKeepsInv(c, Init(c), ls, t);
  }
}
