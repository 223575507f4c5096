/** With a retrier that answers success by an empty slice, one failed event becomes a block
    and a report at once. */
module RetryWitness {
  import opened Wrappers
  import opened Chainstream
  import opened Pipeline

  ghost predicate OneFailure(c: Config) {
    && c.names == ["network"] && |c.sources| == 1
    && c.retry.Some? && c.retry.value.shape == EmptySlice && c.retry.value.attempts >= 1
    && c.sources[0] != [] && c.sources[0][0].err.Some?
  }

  function Failed(c: Config): BlockDispatchFailure
    requires OneFailure(c)
  {
    FailureOf("network", c.sources[0][0])
  }

  function Again(b: Block): Item {
    Item(ObservedBlock("network", b), Recovered)
  }

  /** The failed event is received and handed to the retry worker. */
  lemma HandOver(c: Config) returns (ls: seq<Label>, t: State)
    requires OneFailure(c)
    ensures Shape(c, Init(c)) && Reaches(c, Init(c), ls, t)
    ensures t == Init(c).(taken := [1], retrier := Trying(Failed(c), []))
  {
    var s := Init(c);
    assert Reaches(c, s, [], s);
    hide Reaches;
    ReachesSnoc(c, s, [], s, Receive(0));
    var u := Next(c, s, Receive(0));
    assert u == s.(taken := [1], hands := [Some(c.sources[0][0])]);
    ReachesSnoc(c, s, [] + [Receive(0)], u, Dispatch(0));
    var v := Next(c, u, Dispatch(0));
    assert v == s.(taken := [1], retryFailureCh := [Failed(c)]);
    ls := [] + [Receive(0)] + [Dispatch(0)];
    ReachesSnoc(c, s, ls, v, RetryReceive);
    ls, t := ls + [RetryReceive], Next(c, v, RetryReceive);
  }

  /** Its first retry gets the block, which is sent on, and so is the failure. */
  lemma RecoverAndReport(c: Config, b: Block) returns (ls: seq<Label>, t: State)
    requires OneFailure(c)
    ensures Shape(c, Init(c)) && Reaches(c, Init(c), ls, t)
    ensures t.preCheckpointCh == [Again(b)] && t.dispatchFailureCh == [Failed(c)]
  {
    var s;
    ls, s := HandOver(c);
    hide Reaches;
    ReachesSnoc(c, Init(c), ls, s, RetryFetch(Success(b)));
    var u := Next(c, s, RetryFetch(Success(b)));
    assert u == s.(retrier := Sending(Failed(c), b));
    ReachesSnoc(c, Init(c), ls + [RetryFetch(Success(b))], u, RetrySend);
    var v := Next(c, u, RetrySend);
    assert v == u.(retrier := Reporting(Outcome(Failed(c), [], Some(b))), preCheckpointCh := [Again(b)]);
    ls := ls + [RetryFetch(Success(b))] + [RetrySend];
    ReachesSnoc(c, Init(c), ls, v, RetryReport);
    ls, t := ls + [RetryReport], Next(c, v, RetryReport);
    assert Failed(c).errors + [] == Failed(c).errors;
  }

  /** Whatever the failed event and the block got for it: some run has the block on its way
      to the consumer and the event's failure on its way to the notifier. */
  lemma RecoveredAndReported(c: Config, b: Block)
    requires OneFailure(c)
    ensures exists t :: Reachable(c, t) && Again(b) in Line(t) && Failed(c) in Reports(t)
  {
    hide Reaches;
    var ls, t := RecoverAndReport(c, b);
    assert ValidConfig(c) && Reachable(c, t);
    assert Again(b) in t.preCheckpointCh && Failed(c) in t.dispatchFailureCh;
  }
}
