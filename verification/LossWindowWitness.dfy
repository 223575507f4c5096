/** The bound of LossWindow is met: twelve saved blocks can be in flight at once. */
module LossWindowWitness {
  import opened Wrappers
  import opened Chainstream
  import opened Pipeline

  ghost predicate OneNetwork(c: Config) {
    && c.names == ["network"] && |c.sources| == 1 && c.retry.None? && |c.sources[0]| == 12
    && forall k :: 0 <= k < 12 ==> c.sources[0][k].err.None?
  }

  /** Between two blocks: dispatcher, queue and checkpoint worker are empty-handed. */
  ghost predicate Between(c: Config, ls: seq<Label>, s: State, n: nat) {
    && Shape(c, Init(c)) && Reaches(c, Init(c), ls, s) && Shape(c, s)
    && s.taken == [n] && s.hands == [None] && s.preCheckpointCh == [] && s.checkpointer == CheckpointIdle
    && s.handled == [] && |s.saves| == n
  }

  /** The next block is taken, queued, received and saved. */
  lemma SaveOne(c: Config, ls: seq<Label>, s: State, n: nat) returns (ls': seq<Label>, t: State)
    requires OneNetwork(c) && Between(c, ls, s, n) && n < 12
    ensures Shape(c, Init(c)) && Reaches(c, Init(c), ls', t) && Shape(c, t)
    ensures t.taken == [n + 1] && t.hands == [None] && t.preCheckpointCh == [] && t.checkpointer.Saved?
    ensures t.handled == [] && |t.saves| == n + 1 && t.finalOut == s.finalOut && t.consumer == s.consumer
  {
    hide Reaches;
    var s1 := Next(c, s, Receive(0));
    ReachesSnoc(c, Init(c), ls, s, Receive(0));
    assert s1.hands == [Some(c.sources[0][n])] && s1.taken == [n + 1];
    var s2 := Next(c, s1, Dispatch(0));
    ReachesSnoc(c, Init(c), ls + [Receive(0)], s1, Dispatch(0));
    assert s2.hands == [None] && |s2.preCheckpointCh| == 1;
    var s3 := Next(c, s2, CheckpointReceive);
    ReachesSnoc(c, Init(c), ls + [Receive(0)] + [Dispatch(0)], s2, CheckpointReceive);
    ls' := ls + [Receive(0)] + [Dispatch(0)] + [CheckpointReceive];
    t := Next(c, s3, CheckpointSave(true));
    ReachesSnoc(c, Init(c), ls', s3, CheckpointSave(true));
    ls' := ls' + [CheckpointSave(true)];
  }

  /** And forwarded, while there is room. */
  lemma PassOne(c: Config, ls: seq<Label>, s: State, n: nat) returns (ls': seq<Label>, t: State)
    requires OneNetwork(c) && Between(c, ls, s, n) && n < 12 && |s.finalOut| < OBSERVED_BLOCK_BUFFER
    ensures Between(c, ls', t, n + 1) && t.consumer == s.consumer && |t.finalOut| == |s.finalOut| + 1
  {
    var u;
    ls', u := SaveOne(c, ls, s, n);
    hide Reaches;
    ReachesSnoc(c, Init(c), ls', u, CheckpointForward);
    ls', t := ls' + [CheckpointForward], Next(c, u, CheckpointForward);
  }

  lemma Busy(c: Config) returns (ls: seq<Label>, s: State)
    requires OneNetwork(c)
    ensures Between(c, ls, s, 1) && s.consumer.Some? && s.finalOut == []
  {
    assert Between(c, [], Init(c), 0);
    var t;
    ls, t := PassOne(c, [], Init(c), 0);
    hide Reaches;
    ReachesSnoc(c, Init(c), ls, t, ConsumerReceive);
    ls, s := ls + [ConsumerReceive], Next(c, t, ConsumerReceive);
  }

  /** The consumer is busy with the first block and n more wait in finalOut. */
  lemma {:induction false} Fill(c: Config, n: nat) returns (ls: seq<Label>, s: State)
    requires OneNetwork(c) && n <= 10
    ensures Between(c, ls, s, n + 1) && s.consumer.Some? && |s.finalOut| == n
  {
    if n == 0 {
      ls, s := Busy(c);
    } else {
      ls, s := Fill(c, n - 1);
      ls, s := PassOne(c, ls, s, n);
    }
  }

  /** With any twelve blocks there is a reachable state in which all are saved and none handled. */
  lemma LossWindowIsTight(c: Config)
    requires OneNetwork(c)
    ensures exists t :: Reachable(c, t) && |t.saves| - |t.handled| == 12
  {
    var ls, s := Fill(c, 10);
    var ls', t := SaveOne(c, ls, s, 11);
    assert Reachable(c, t);
  }
}
