/**
 What the node answers the retry worker and the store answers the checkpoint worker, and
 what becomes of it. The answers are read off the schedule; the state is compared with them.
 */
module PipelineAnswers {
  import opened Wrappers
  import opened Chainstream
  import opened Pipeline
  import opened PipelineSafety
  import opened PipelineTheorems

  type Fetch = Result<Block, Error>

  /** The answers to the fetches of a schedule, one list for each failure the retry worker
      has received. */
  function Answers(ls: seq<Label>): seq<seq<Fetch>> {
    if ls == [] then []
    else
      var rest := Answers(ls[..|ls| - 1]);
      match ls[|ls| - 1]
      case RetryReceive => rest + [[]]
      case RetryFetch(result) =>
        if rest == [] then rest else rest[..|rest| - 1] + [rest[|rest| - 1] + [result]]
      case _ => rest
  }

  /** The answers to the saves of a schedule. */
  function SaveAnswers(ls: seq<Label>): seq<bool> {
    if ls == [] then []
    else
      var l := ls[|ls| - 1];
      SaveAnswers(ls[..|ls| - 1]) + if l.CheckpointSave? then [l.ok] else []
  }

  /** Errors only, these, in this order. */
  ghost predicate AllFailed(answers: seq<Fetch>, errs: seq<Error>) {
    |answers| == |errs| && forall i :: 0 <= i < |answers| ==> answers[i] == Failure(errs[i])
  }

  /** Errors, and then this block. */
  ghost predicate EndsWith(answers: seq<Fetch>, b: Block) {
    && answers != [] && answers[|answers| - 1] == Success(b)
    && forall i :: 0 <= i < |answers| - 1 ==> answers[i].Failure?
  }

  /** A retry ends with the first block the node gives, or with the errors of all its
      attempts. */
  ghost predicate Settles(attempts: nat, o: Outcome, answers: seq<Fetch>) {
    |answers| <= attempts
    && if o.recovered.Some? then o.retryErrs == [] && EndsWith(answers, o.recovered.value)
       else |answers| == attempts && AllFailed(answers, o.retryErrs)
  }

  /** The k-th retry is that of the k-th failure received; the last one may be under way. */
  ghost predicate Answered(attempts: nat, s: State, answers: seq<seq<Fetch>>) {
    var os := Settled(s);
    && |answers| == |os| + (if s.retrier.Trying? || s.retrier.Sending? then 1 else 0)
    && (forall k :: 0 <= k < |os| ==> Settles(attempts, os[k], answers[k]))
    && (s.retrier.Trying? ==> |s.retrier.errs| <= attempts && AllFailed(answers[|os|], s.retrier.errs))
    && (s.retrier.Sending? ==> |answers[|os|]| <= attempts && EndsWith(answers[|os|], s.retrier.block))
  }

  lemma {:induction false} ReachesLast(c: Config, s: State, ls: seq<Label>, l: Label, u: State) returns (t: State)
    requires Shape(c, s) && Reaches(c, s, ls + [l], u)
    ensures Shape(c, t) && Reaches(c, s, ls, t) && Enabled(c, t, l) && u == Next(c, t, l)
    decreases |ls|
  {
    hide Next, Enabled;
    if ls == [] {
      assert [l][1..] == [];
      t := s;
    } else {
      assert (ls + [l])[0] == ls[0] && (ls + [l])[1..] == ls[1..] + [l];
      t := ReachesLast(c, Next(c, s, ls[0]), ls[1..], l, u);
    }
  }

  lemma RetrierMoves(c: Config, s: State, l: Label)
    requires Shape(c, s) && Enabled(c, s, l) && c.retry.Some?
    ensures var w, u := s.retrier, Next(c, s, l).retrier;
            match l
            case RetryReceive => w.RetryIdle? && u.Trying? && u.errs == []
            case RetryFetch(Failure(e)) => w.Trying? && u.Trying? && u.errs == w.errs + [e]
                                           && |w.errs| < c.retry.value.attempts
            case RetryFetch(Success(b)) => w.Trying? && u.Sending? && u.block == b && |w.errs| < c.retry.value.attempts
            case RetrySend => w.Sending? && !u.Trying? && !u.Sending?
            case RetryGiveUp => w.Trying? && |w.errs| == c.retry.value.attempts && u.Reporting?
            case RetryReport => w.Reporting? && u.RetryIdle?
            case _ => u == w
  {
  }

  lemma AnswersSnoc(ls: seq<Label>, l: Label)
    ensures var rest := Answers(ls);
            Answers(ls + [l]) ==
            if l.RetryReceive? then rest + [[]]
            else if l.RetryFetch? && rest != [] then rest[..|rest| - 1] + [rest[|rest| - 1] + [l.result]]
            else rest
  {
    assert (ls + [l])[..|ls|] == ls;
  }

  lemma OneMoreAnswer(answers: seq<Fetch>, errs: seq<Error>, result: Fetch)
    requires AllFailed(answers, errs)
    ensures result.Failure? ==> AllFailed(answers + [result], errs + [result.error])
    ensures result.Success? ==> EndsWith(answers + [result], result.value)
  {
  }

  lemma StepStaysAnswered(c: Config, s: State, l: Label, ls: seq<Label>)
    requires ValidConfig(c) && Shape(c, s) && Enabled(c, s, l) && c.retry.Some?
    requires Answered(c.retry.value.attempts, s, Answers(ls))
    ensures Answered(c.retry.value.attempts, Next(c, s, l), Answers(ls + [l]))
  {
    SettledGrows(c, s, l);
    RetrierMoves(c, s, l);
    AnswersSnoc(ls, l);
    if l.RetryFetch? {
      OneMoreAnswer(Answers(ls)[|Settled(s)|], s.retrier.errs, l.result);
      hide AllFailed, EndsWith;
    } else if l.RetryReceive? {
      assert AllFailed([], []);
    }
    hide Settled, Next, Enabled, Answers, AllFailed, EndsWith;
  }

  /** Over every schedule: the errors of a retry are those its fetches were answered, in
      order, all of them when it gives up; the block it recovers is the one it was answered. */
  lemma {:induction false} RetriesAreAnswered(c: Config, ls: seq<Label>, t: State)
    requires ValidConfig(c) && Reaches(c, Init(c), ls, t) && c.retry.Some?
    ensures Answered(c.retry.value.attempts, t, Answers(ls))
    decreases |ls|
  {
    if ls != [] {
      var n := |ls| - 1;
      assert ls == ls[..n] + [ls[n]];
      var s := ReachesLast(c, Init(c), ls[..n], ls[n], t);
      RetriesAreAnswered(c, ls[..n], s);
      StepStaysAnswered(c, s, ls[n], ls[..n]);
    }
  }

  lemma SaveStep(c: Config, s: State, l: Label)
    requires Shape(c, s) && Enabled(c, s, l)
    ensures l.CheckpointSave? ==> exists x :: Next(c, s, l).saves == s.saves + [SaveAttempt(x, l.ok)]
    ensures !l.CheckpointSave? ==> Next(c, s, l).saves == s.saves
  {
  }

  /** And every recorded save has the result the store answered. */
  lemma {:induction false} SavesAreAnswered(c: Config, ls: seq<Label>, t: State)
    requires ValidConfig(c) && Reaches(c, Init(c), ls, t)
    ensures |t.saves| == |SaveAnswers(ls)|
    ensures forall k :: 0 <= k < |t.saves| ==> t.saves[k].ok == SaveAnswers(ls)[k]
    decreases |ls|
  {
    if ls != [] {
      var n := |ls| - 1;
      assert ls == ls[..n] + [ls[n]];
      var s := ReachesLast(c, Init(c), ls[..n], ls[n], t);
      SaveStep(c, s, ls[n]);
      hide Reaches, Next, Enabled;
      SavesAreAnswered(c, ls[..n], s);
    }
  }

  // ---------- the retry under way ----------

  /** The answers to all fetches of a stretch of a schedule. */
  function Fetched(ls: seq<Label>): seq<Fetch> {
    if ls == [] then []
    else
      var l := ls[|ls| - 1];
      Fetched(ls[..|ls| - 1]) + if l.RetryFetch? then [l.result] else []
  }

  lemma {:induction false} AnswersSinceReceive(a: seq<Label>, b: seq<Label>)
    requires forall i :: 0 <= i < |b| ==> !b[i].RetryReceive?
    ensures Answers(a + [RetryReceive] + b) == Answers(a) + [Fetched(b)]
  {
    var ls := a + [RetryReceive] + b;
    if b == [] {
      assert ls == a + [RetryReceive];
      AnswersSnoc(a, RetryReceive);
      assert Fetched(b) == [];
    } else {
      var n := |b| - 1;
      AnswersSinceReceive(a, b[..n]);
      AnswersSnoc(a + [RetryReceive] + b[..n], b[n]);
      assert ls == a + [RetryReceive] + b[..n] + [b[n]];
      var rest := Answers(a) + [Fetched(b[..n])];
      assert rest[..|rest| - 1] == Answers(a) && rest[|rest| - 1] == Fetched(b[..n]);
      assert Fetched(b) == Fetched(b[..n]) + if b[n].RetryFetch? then [b[n].result] else [];
      assert !b[n].RetryFetch? ==> Fetched(b) == Fetched(b[..n]);
    }
  }

  /** Since the failure was received, the node has answered the worker these errors. */
  lemma ErrorsSinceReceive(c: Config, a: seq<Label>, b: seq<Label>, t: State)
    requires ValidConfig(c) && Reaches(c, Init(c), a + [RetryReceive] + b, t) && c.retry.Some?
    requires forall i :: 0 <= i < |b| ==> !b[i].RetryReceive?
    ensures t.retrier.Trying? ==> AllFailed(Fetched(b), t.retrier.errs)
    ensures t.retrier.Sending? ==> EndsWith(Fetched(b), t.retrier.block)
    ensures !t.retrier.Trying? && !t.retrier.Sending? ==>
              Settled(t) != [] && Settles(c.retry.value.attempts, Settled(t)[|Settled(t)| - 1], Fetched(b))
  {
    RetriesAreAnswered(c, a + [RetryReceive] + b, t);
    AnswersSinceReceive(a, b);
  }

  // ---------- reports ----------

  lemma {:induction false} OriginalsAt(os: seq<Outcome>, k: nat)
    requires k < |os|
    ensures |Originals(os)| == |os| && Originals(os)[k] == os[k].original
  {
    var n := |os| - 1;
    OriginalsLength(os[..n]);
    if k < n {
      OriginalsAt(os[..n], k);
    }
  }

  /** r reports the k-th event of network i with the event's own error, followed without a
      retry by nothing, and otherwise by the errors that the node answered the attempts of
      its retry, all of them and in order. Only a retrier that answers success by an empty
      slice reports a retry that got its block, and then without those errors. */
  ghost predicate ReportTraced(c: Config, ls: seq<Label>, t: State, r: BlockDispatchFailure, i: nat, k: nat)
    requires Shape(c, t)
  {
    && i < |c.names| && k < t.taken[i] && c.sources[i][k].err.Some?
    && var original := BlockDispatchFailure(c.names[i], c.sources[i][k].height, [c.sources[i][k].err.value]);
       if c.retry.None? then r == original
       else exists j, errs ::
         && 0 <= j < |Answers(ls)| && j < |Retries(t)| && Retries(t)[j] == original
         && r == original.(errors := original.errors + errs)
         && ((errs != [] && |errs| == c.retry.value.attempts && AllFailed(Answers(ls)[j], errs))
             || (errs == [] && c.retry.value.shape == EmptySlice && exists b :: EndsWith(Answers(ls)[j], b)))
  }

  lemma ReportsAreTraced(c: Config, ls: seq<Label>, t: State, r: BlockDispatchFailure)
    requires ValidConfig(c) && Reaches(c, Init(c), ls, t) && r in Reports(t)
    ensures Shape(c, t)
    ensures exists i, k :: ReportTraced(c, ls, t, r, i, k)
  {
    assert Reachable(c, t);
    ReachableInv(c, t);
    if c.retry.None? {
      var i, k := IntakeComesFromEvents(c, t, r);
      assert ReportTraced(c, ls, t, r, i, k);
    } else {
      var i, k := RetriedReportIsTraced(c, ls, t, r);
    }
  }

  lemma RetriedReportIsTraced(c: Config, ls: seq<Label>, t: State, r: BlockDispatchFailure) returns (i: nat, k: nat)
    requires ValidConfig(c) && Reaches(c, Init(c), ls, t) && Inv(c, t) && r in Reports(t) && c.retry.Some?
    ensures ReportTraced(c, ls, t, r, i, k)
  {
    var j, o := ReportOfRetry(c, ls, t, r);
    assert o.original in Retries(t);
    hide Reaches, Retries, Answers, AllFailed, EndsWith;
    assert Intake(c, t) == Retries(t);
    i, k := IntakeComesFromEvents(c, t, o.original);
    hide Inv;
  }

  lemma ReportOfRetry(c: Config, ls: seq<Label>, t: State, r: BlockDispatchFailure) returns (j: nat, o: Outcome)
    requires ValidConfig(c) && Reaches(c, Init(c), ls, t) && Inv(c, t) && r in Reports(t) && c.retry.Some?
    ensures j < |Answers(ls)| && j < |Retries(t)| && Retries(t)[j] == o.original
    ensures r == o.original.(errors := o.original.errors + o.retryErrs)
    ensures Settles(c.retry.value.attempts, o, Answers(ls)[j])
    ensures o.recovered.Some? ==> c.retry.value.shape == EmptySlice
  {
    RetriesAreAnswered(c, ls, t);
    ReportComesFromOutcome(c.retry.value.shape, t.outcomes, r);
    j :| 0 <= j < |t.outcomes| && ReportOf(c.retry.value.shape, t.outcomes[j]) == Some(r);
    o := t.outcomes[j];
    OriginalsAt(t.outcomes, j);
    hide Reaches, Inv, Answers, Settles, Originals;
    assert Settled(t)[j] == o;
  }
}
