/**
 The idempotency guard of one block, abstractly (internal/walletwatch/idempotency.go): what
 any number of workers that claim, notify and mark may assume of a guard store, and what its
 answers mean.

 An answer other than nil is right if it was true at some instant of its call. Each call
 therefore keeps a window: the kinds of status the block has had since the call began.
 */
module GuardSpec {
  import opened Wrappers

  type Worker = nat

  datatype Deadline = At(time: int) | Never

  datatype Guard = Free | Claimed(until: Deadline) | Done

  /** Redis drops a key at its deadline and takes a ttl of zero as none; PostgreSQL compares
      the deadline with <. */
  datatype Expiry = RedisExpiry | PostgresExpiry

  function Until(p: Expiry, clock: int, ttl: int): Deadline {
    if p.RedisExpiry? && ttl == 0 then Never else At(clock + ttl)
  }

  predicate Past(p: Expiry, d: Deadline, now: int) {
    d.At? && if p.RedisExpiry? then d.time <= now else d.time < now
  }

  /** Nobody has the block: it was never claimed, or the claim has expired. */
  predicate Open(p: Expiry, g: Guard, now: int) {
    g.Free? || (g.Claimed? && Past(p, g.until, now))
  }

  datatype Kind = IsFree | IsClaimed | IsDone

  function KindOf(p: Expiry, g: Guard, now: int): Kind {
    if Open(p, g, now) then IsFree else if g.Claimed? then IsClaimed else IsDone
  }

  /** What a claim answers: nil, one of the two sentinel errors, PostgreSQL's fallback, or
      the error of a failed command. */
  datatype Answer = Granted | StillInProgress | AlreadyFinished | ClaimFailedUnexpectedly | StoreError

  /** A claim answered by nil: the clock its ttl counts from, and when the store granted it. */
  datatype Grant = Grant(worker: Worker, clock: int, ttl: int, at: int)

  /** A call answered by ErrStillInProgress (IsClaimed) or ErrAlreadyFinished (IsDone), with
      its window. */
  datatype Reply = Reply(worker: Worker, kind: Kind, seen: set<Kind>)

  /** `calls` are the claims under way with their windows, `holders` the workers between
      their claim and their return with their deadlines. `grants`, `replies` and `finished`
      (the workers that returned nil) are histories; `unmarked` counts the marks that had no
      effect. */
  datatype State = State(
    policy: Expiry, now: int, guard: Guard,
    calls: map<Worker, set<Kind>>, holders: map<Worker, Deadline>,
    grants: seq<Grant>, replies: seq<Reply>, finished: seq<Worker>, unmarked: nat)

  datatype Step =
    | Stutter
    | Tick(d: nat)
    | Begin(w: Worker)
    | Claim(w: Worker, clock: int, ttl: int)
    | ClaimUnseen(w: Worker, clock: int, ttl: int)  // taken in the store, but the worker got an error
    | Abort(w: Worker)                              // any other error
    | Refuse(w: Worker, kind: Kind)                 // an answer that was true during the call
    | Mislead(w: Worker)                            // "in progress" of a block that went from free to done
    | GiveUp(w: Worker)                             // notification failed
    | Mark(w: Worker)                               // the store says done, whatever the reply
    | MarkFails(w: Worker)                          // no effect, logged, the worker returns nil all the same

  function StatusOf(s: State): Kind {
    KindOf(s.policy, s.guard, s.now)
  }

  /** The clock was read before the claim takes effect; Redis counts from the effect itself. */
  predicate Reading(s: State, clock: int) {
    clock <= s.now && (s.policy.RedisExpiry? ==> clock == s.now)
  }

  predicate Enabled(s: State, x: Step) {
    match x
    case Stutter => true
    case Tick(_) => true
    case Begin(w) => w !in s.calls && w !in s.holders
    case Claim(w, clock, _) => w in s.calls && Open(s.policy, s.guard, s.now) && Reading(s, clock)
    case ClaimUnseen(w, clock, _) => w in s.calls && Open(s.policy, s.guard, s.now) && Reading(s, clock)
    case Abort(w) => w in s.calls
    case Refuse(w, kind) => w in s.calls && kind in s.calls[w] && !kind.IsFree?
    case Mislead(w) => w in s.calls && s.calls[w] == {IsFree, IsDone}
    case GiveUp(w) => w in s.holders
    case Mark(w) => w in s.holders
    case MarkFails(w) => w in s.holders
  }

  function Effect(s: State, x: Step): State
    requires Enabled(s, x)
  {
    match x
    case Stutter => s
    case Tick(d) => s.(now := s.now + d)
    case Begin(w) => s.(calls := s.calls[w := {}])
    case Claim(w, clock, ttl) =>
      var until := Until(s.policy, clock, ttl);
      s.(guard := Claimed(until), calls := s.calls - {w}, holders := s.holders[w := until],
         grants := s.grants + [Grant(w, clock, ttl, s.now)])
    case ClaimUnseen(w, clock, ttl) =>
      s.(guard := Claimed(Until(s.policy, clock, ttl)), calls := s.calls - {w})
    case Abort(w) => s.(calls := s.calls - {w})
    case Refuse(w, kind) => s.(calls := s.calls - {w}, replies := s.replies + [Reply(w, kind, s.calls[w])])
    case Mislead(w) => s.(calls := s.calls - {w}, replies := s.replies + [Reply(w, IsClaimed, s.calls[w])])
    case GiveUp(w) => s.(holders := s.holders - {w})
    case Mark(w) => s.(guard := Done, holders := s.holders - {w}, finished := s.finished + [w])
    case MarkFails(w) =>
      s.(holders := s.holders - {w}, finished := s.finished + [w], unmarked := s.unmarked + 1)
  }

  /** Every call under way sees the status after the step. */
  function Seen(calls: map<Worker, set<Kind>>, k: Kind): map<Worker, set<Kind>> {
    map w | w in calls :: calls[w] + {k}
  }

  function Next(s: State, x: Step): State
    requires Enabled(s, x)
  {
    var t := Effect(s, x);
    t.(calls := Seen(t.calls, StatusOf(t)))
  }

  ghost predicate Runs(s: State, xs: seq<Step>, t: State)
    decreases |xs|
  {
    if xs == [] then s == t
    else Enabled(s, xs[0]) && Runs(Next(s, xs[0]), xs[1..], t)
  }

  // ---------- claims are a deadline apart ----------

  function Ends(s: State, i: nat): Deadline
    requires i < |s.grants|
  {
    Until(s.policy, s.grants[i].clock, s.grants[i].ttl)
  }

  ghost predicate GrantsApart(s: State) {
    forall i, j :: 0 <= i < j < |s.grants| ==> Past(s.policy, Ends(s, i), s.grants[j].at)
  }

  ghost predicate ApartInv(s: State) {
    && GrantsApart(s)
    && (forall i :: 0 <= i < |s.grants| ==> s.grants[i].clock <= s.grants[i].at <= s.now)
    && (s.policy.RedisExpiry? ==> forall i :: 0 <= i < |s.grants| ==> s.grants[i].clock == s.grants[i].at)
    && (s.guard.Free? ==> s.grants == [])
    && (s.guard.Claimed? ==> forall i :: 0 <= i < |s.grants| ==>
          Ends(s, i) == s.guard.until || Past(s.policy, Ends(s, i), s.now))
  }

  lemma StepKeepsApart(s: State, x: Step)
    requires Enabled(s, x) && ApartInv(s)
    ensures ApartInv(Next(s, x))
  {
    var t := Next(s, x);
    assert forall i :: 0 <= i < |s.grants| ==> t.grants[i] == s.grants[i] && Ends(t, i) == Ends(s, i);
    if x.Claim? {
      forall i, j | 0 <= i < j < |t.grants| ensures Past(t.policy, Ends(t, i), t.grants[j].at) {
        assert t.grants[i] == s.grants[i];
      }
    }
  }

  lemma {:induction false} RunKeepsApart(s: State, xs: seq<Step>, t: State)
    requires Runs(s, xs, t) && ApartInv(s)
    ensures ApartInv(t) && t.policy == s.policy
    decreases |xs|
  {
    if xs != [] {
      StepKeepsApart(s, xs[0]);
      RunKeepsApart(Next(s, xs[0]), xs[1..], t);
    }
  }

  /** Redis grants nothing before the earlier ttl has run out, and nothing after a ttl of
      zero. */
  lemma RedisApart(s: State)
    requires ApartInv(s) && s.policy.RedisExpiry?
    ensures forall i, j :: 0 <= i < j < |s.grants| ==> s.grants[i].at + s.grants[i].ttl <= s.grants[j].at
    ensures forall i :: 0 <= i < |s.grants| - 1 ==> s.grants[i].ttl != 0
  {
    forall i: int, j: int | 0 <= i < j < |s.grants| ensures s.grants[i].at + s.grants[i].ttl <= s.grants[j].at {
      assert Past(s.policy, Ends(s, i), s.grants[j].at);
    }
    forall i: int | 0 <= i < |s.grants| - 1 ensures s.grants[i].ttl != 0 {
      assert Past(s.policy, Ends(s, i), s.grants[i + 1].at);
    }
  }

  /** PostgreSQL grants nothing up to and including the earlier deadline, counted from the
      clock reading. */
  lemma PostgresApart(s: State)
    requires ApartInv(s) && s.policy.PostgresExpiry?
    ensures forall i, j :: 0 <= i < j < |s.grants| ==> s.grants[i].clock + s.grants[i].ttl < s.grants[j].at
  {
    forall i: int, j: int | 0 <= i < j < |s.grants| ensures s.grants[i].clock + s.grants[i].ttl < s.grants[j].at {
      assert Past(s.policy, Ends(s, i), s.grants[j].at);
    }
  }

  // ---------- done is terminal ----------

  lemma {:induction false} DoneIsTerminal(s: State, xs: seq<Step>, t: State)
    requires Runs(s, xs, t) && s.guard.Done?
    ensures t.guard.Done? && t.grants == s.grants
    decreases |xs|
  {
    if xs != [] {
      DoneIsTerminal(Next(s, xs[0]), xs[1..], t);
    }
  }

  // ---------- answers ----------

  /** The answer was true at an instant of its call. */
  predicate Right(r: Reply) {
    r.kind in r.seen
  }

  /** In progress, of a block that went from free to done while the call was under way. */
  predicate Misled(r: Reply) {
    r.kind.IsClaimed? && r.seen == {IsFree, IsDone}
  }

  ghost predicate Answered(s: State) {
    forall i :: 0 <= i < |s.replies| ==> Right(s.replies[i]) || Misled(s.replies[i])
  }

  ghost predicate Truthful(s: State) {
    forall i :: 0 <= i < |s.replies| ==> Right(s.replies[i])
  }

  ghost predicate Honest(xs: seq<Step>) {
    forall i :: 0 <= i < |xs| ==> !xs[i].Mislead?
  }

  /** Every refusing answer was true at an instant of its call, but for one case. */
  lemma {:induction false} AnswersExactly(s: State, xs: seq<Step>, t: State)
    requires Runs(s, xs, t) && Answered(s)
    ensures Answered(t)
    decreases |xs|
  {
    if xs != [] {
      AnswersExactly(Next(s, xs[0]), xs[1..], t);
    }
  }

  lemma {:induction false} HonestRunsAreTruthful(s: State, xs: seq<Step>, t: State)
    requires Runs(s, xs, t) && Honest(xs) && Truthful(s)
    ensures Truthful(t)
    decreases |xs|
  {
    if xs != [] {
      assert !xs[0].Mislead?;
      HonestRunsAreTruthful(Next(s, xs[0]), xs[1..], t);
    }
  }

  // ---------- mutual exclusion, if holders keep their deadlines ----------

  /** Nobody is still between claim and return when its deadline comes. */
  predicate Timely(s: State) {
    forall w :: w in s.holders && s.holders[w].At? ==> s.now < s.holders[w].time
  }

  ghost predicate TimelyRun(s: State, xs: seq<Step>, t: State)
    decreases |xs|
  {
    Timely(s)
    && if xs == [] then s == t
       else Enabled(s, xs[0]) && TimelyRun(Next(s, xs[0]), xs[1..], t)
  }

  predicate AtMostOneHolder(s: State) {
    forall v, w :: v in s.holders && w in s.holders ==> v == w
  }

  ghost predicate ExclusionInv(s: State) {
    && AtMostOneHolder(s)
    && (forall w :: w in s.holders ==> s.guard == Claimed(s.holders[w]))
    && (|s.finished| > s.unmarked ==> s.guard.Done?)
    && |s.finished| <= s.unmarked + 1
  }

  lemma StepKeepsExclusion(s: State, x: Step)
    requires Enabled(s, x) && Timely(s) && ExclusionInv(s)
    ensures ExclusionInv(Next(s, x))
  {
  }

  /** Over all interleavings: never two workers between claim and return, and all but one
      of the workers that return nil owe it to a mark that had no effect. */
  lemma {:induction false} MutualExclusion(s: State, xs: seq<Step>, t: State)
    requires TimelyRun(s, xs, t) && ExclusionInv(s)
    ensures ExclusionInv(t) && Timely(t)
    decreases |xs|
  {
    if xs != [] {
      StepKeepsExclusion(s, xs[0]);
      MutualExclusion(Next(s, xs[0]), xs[1..], t);
    }
  }

  /** A timely run is a run. */
  lemma {:induction false} TimelyRunsRun(s: State, xs: seq<Step>, t: State)
    requires TimelyRun(s, xs, t)
    ensures Runs(s, xs, t)
    decreases |xs|
  {
    if xs != [] {
      TimelyRunsRun(Next(s, xs[0]), xs[1..], t);
    }
  }
}
