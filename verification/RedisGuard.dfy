/**
 The Redis idempotency guard (internal/infra/storage/redis/walletwatch.go): a claim is a GET
 followed by a SETNX with an expiry, a mark is a SET without one. Other clients' commands
 may run between any two of them, and any command may answer with an error.
 */
module RedisGuard {
  import opened Wrappers
  import Spec = GuardSpec
  import Checkpoints

  type Worker = Spec.Worker

  // ---------- the store ----------

  datatype Entry = Entry(value: string, expires: Option<int>)

  datatype Store = Store(kv: map<string, Entry>, now: int)

  const DONE := "done"

  function IdempotencyKey(network: string, blockHash: string): string {
    "walletwatch:idempotency:" + network + ":" + blockHash
  }

  /** An expired key is as good as absent. */
  predicate Live(st: Store, key: string) {
    key in st.kv && (st.kv[key].expires.Some? ==> st.now < st.kv[key].expires.value)
  }

  function Get(st: Store, key: string): Option<string> {
    if Live(st, key) then Some(st.kv[key].value) else None
  }

  datatype Command = Wait(d: nat) | SetNX(key: string, ttl: nat) | SetDone(key: string)

  /** SET NX with an expiry of zero sets none. */
  function Expires(now: int, ttl: nat): Option<int> {
    if ttl == 0 then None else Some(now + ttl)
  }

  function Apply(st: Store, c: Command): Store {
    match c
    case Wait(d) => st.(now := st.now + d)
    case SetNX(key, ttl) =>
      if Live(st, key) then st else st.(kv := st.kv[key := Entry("", Expires(st.now, ttl))])
    case SetDone(key) => st.(kv := st.kv[key := Entry(DONE, None)])
  }

  function ApplyAll(st: Store, cs: seq<Command>): Store {
    if cs == [] then st else Apply(ApplyAll(st, cs[..|cs| - 1]), cs[|cs| - 1])
  }

  /** What is stored about a block, expired or not. */
  function GuardOf(st: Store, key: string): Spec.Guard {
    if key !in st.kv then Spec.Free
    else if st.kv[key].value == DONE then Spec.Done
    else Spec.Claimed(if st.kv[key].expires.None? then Spec.Never else Spec.At(st.kv[key].expires.value))
  }

  function KindIn(st: Store, key: string): Spec.Kind {
    Spec.KindOf(Spec.RedisExpiry, GuardOf(st, key), st.now)
  }

  /** Only a mark writes DONE under a guard key, and it sets no expiry. */
  predicate WellKept(st: Store, key: string) {
    key in st.kv && st.kv[key].value == DONE ==> st.kv[key].expires.None?
  }

  lemma {:induction false} ApplyAllKeeps(st: Store, cs: seq<Command>, key: string)
    requires WellKept(st, key)
    ensures WellKept(ApplyAll(st, cs), key)
    ensures KindIn(st, key).IsDone? ==> KindIn(ApplyAll(st, cs), key).IsDone?
  {
    if cs != [] {
      ApplyAllKeeps(st, cs[..|cs| - 1], key);
    }
  }

  /** How the two replies of a claim arrive; a command whose reply is lost may have run. */
  datatype Network = Delivered | GetFails | SetNXFails(applied: bool)

  class RedisClient {
    var kv: map<string, Entry>
    var now: int

    function View(): Store
      reads this
    {
      Store(kv, now)
    }

    constructor (now: int)
      ensures View() == Store(map[], now)
    {
      kv := map[];
      this.now := now;
    }

    method Execute(c: Command)
      modifies this
      ensures View() == Apply(old(View()), c)
    {
      match c {
        case Wait(d) => now := now + d;
        case SetNX(key, ttl) =>
          if !Live(View(), key) {
            kv := kv[key := Entry("", Expires(now, ttl))];
          }
        case SetDone(key) => kv := kv[key := Entry(DONE, None)];
      }
    }

    /** What other clients do between two commands of this one. */
    method Interference(others: seq<Command>)
      modifies this
      ensures View() == ApplyAll(old(View()), others)
    {
      for i := 0 to |others|
        invariant View() == ApplyAll(old(View()), others[..i])
      {
        Execute(others[i]);
        assert others[..i + 1][..i] == others[..i];
      }
      assert others[..|others|] == others;
    }

    /** `others` run between the GET and the SETNX. */
    method ClaimBlockForTxWatch(network: string, blockHash: string, ttl: nat, others: seq<Command>, net: Network)
      returns (answer: Spec.Answer)
      modifies this
      ensures answer == ClaimAnswer(old(View()), IdempotencyKey(network, blockHash), others, net)
      ensures View() == AfterClaim(old(View()), IdempotencyKey(network, blockHash), ttl, others, net)
    {
      var key := IdempotencyKey(network, blockHash);
      if net.GetFails? {
        return Spec.StoreError;
      }
      var val := if Live(View(), key) then kv[key].value else "";
      if val == DONE {
        return Spec.AlreadyFinished;
      }
      Interference(others);
      var ok := !Live(View(), key);
      if net != SetNXFails(false) {
        Execute(SetNX(key, ttl));
      }
      if net.SetNXFails? {
        return Spec.StoreError;
      }
      if !ok {
        return Spec.StillInProgress;
      }
      return Spec.Granted;
    }

    method MarkBlockTxWatchComplete(network: string, blockHash: string)
      modifies this
      ensures View() == Apply(old(View()), SetDone(IdempotencyKey(network, blockHash)))
    {
      Execute(SetDone(IdempotencyKey(network, blockHash)));
    }
  }

  function ClaimAnswer(st: Store, key: string, others: seq<Command>, net: Network): Spec.Answer {
    if net.GetFails? then Spec.StoreError
    else if Get(st, key) == Some(DONE) then Spec.AlreadyFinished
    else if net.SetNXFails? then Spec.StoreError
    else if Live(ApplyAll(st, others), key) then Spec.StillInProgress
    else Spec.Granted
  }

  function AfterClaim(st: Store, key: string, ttl: nat, others: seq<Command>, net: Network): Store {
    if net.GetFails? || Get(st, key) == Some(DONE) then st
    else if net == SetNXFails(false) then ApplyAll(st, others)
    else Apply(ApplyAll(st, others), SetNX(key, ttl))
  }

  // ---------- linearisation of the answers ----------

  /** A nil answer takes effect at the SETNX: the block is free just before it and claimed
      for the caller just after. AlreadyFinished is true at the GET. An error leaves the
      block claimed at most if it was free. */
  lemma ClaimTakesEffect(st: Store, key: string, ttl: nat, others: seq<Command>, net: Network)
    requires WellKept(st, key)
    ensures var before := ApplyAll(st, others);
            var after := AfterClaim(st, key, ttl, others, net);
            match ClaimAnswer(st, key, others, net)
            case Granted =>
              && KindIn(before, key).IsFree?
              && GuardOf(after, key) == Spec.Claimed(Spec.Until(Spec.RedisExpiry, before.now, ttl))
            case AlreadyFinished => KindIn(st, key).IsDone? && after == st
            case StillInProgress => !KindIn(st, key).IsDone? && !KindIn(before, key).IsFree? && after == before
            case ClaimFailedUnexpectedly => false
            case StoreError =>
              after == st || after == before
              || (KindIn(before, key).IsFree? && after == Apply(before, SetNX(key, ttl)))
  {
    ApplyAllKeeps(st, others, key);
  }

  /** At some instant between the GET and the SETNX the block is claimed. */
  ghost predicate InProgressSometime(st: Store, key: string, others: seq<Command>) {
    exists i :: 0 <= i <= |others| && KindIn(ApplyAll(st, others[..i]), key).IsClaimed?
  }

  predicate Touches(c: Command, key: string) {
    (c.SetNX? && c.key == key) || c == SetDone(key)
  }

  /** The others mark the block before any of them tries to claim it. */
  ghost predicate MarkedFirst(key: string, others: seq<Command>) {
    exists k :: 0 <= k < |others| && others[k] == SetDone(key) && forall j :: 0 <= j < k ==> !Touches(others[j], key)
  }

  lemma {:induction false} FreeUntilTouched(st: Store, key: string, others: seq<Command>)
    requires KindIn(st, key).IsFree?
    requires forall j :: 0 <= j < |others| ==> !Touches(others[j], key)
    ensures KindIn(ApplyAll(st, others), key).IsFree?
  {
    if others != [] {
      FreeUntilTouched(st, key, others[..|others| - 1]);
      assert !Touches(others[|others| - 1], key);
    }
  }

  lemma {:induction false} ApplyAllConcat(st: Store, a: seq<Command>, b: seq<Command>)
    ensures ApplyAll(st, a + b) == ApplyAll(ApplyAll(st, a), b)
  {
    if b == [] {
      assert a + b == a;
    } else {
      assert (a + b)[..|a + b| - 1] == a + b[..|b| - 1];
      ApplyAllConcat(st, a, b[..|b| - 1]);
    }
  }

  /** The first of the others to claim or mark the key, if any. */
  lemma FirstTouch(key: string, others: seq<Command>) returns (k: nat)
    ensures k <= |others|
    ensures forall j :: 0 <= j < k ==> !Touches(others[j], key)
    ensures k < |others| ==> Touches(others[k], key)
  {
    k := 0;
    while k < |others| && !Touches(others[k], key)
      invariant k <= |others|
      invariant forall j :: 0 <= j < k ==> !Touches(others[j], key)
    {
      k := k + 1;
    }
  }

  /** When StillInProgress is answered, it is false at every instant of the call exactly if
      the claim had expired before the GET and the others mark the block, on behalf of the
      holder that overstayed, before anyone claims it again. */
  lemma StillInProgressExactly(st: Store, key: string, others: seq<Command>)
    requires WellKept(st, key)
    requires ClaimAnswer(st, key, others, Delivered) == Spec.StillInProgress
    ensures !InProgressSometime(st, key, others) <==> KindIn(st, key).IsFree? && MarkedFirst(key, others)
  {
    assert others[..0] == [] && ApplyAll(st, others[..0]) == st;
    assert others[..|others|] == others;
    if KindIn(st, key).IsFree? {
      var k := FirstTouch(key, others);
      FreeUntilTouched(st, key, others[..k]);
      if k < |others| {
        assert others[..k + 1][..k] == others[..k];
        var next := ApplyAll(st, others[..k + 1]);
        assert next == Apply(ApplyAll(st, others[..k]), others[k]);
        if others[k] == SetDone(key) {
          assert MarkedFirst(key, others);
          NeverClaimedAround(st, key, others, k);
        } else {
          ApplyAllKeeps(st, others[..k], key);
          assert KindIn(next, key).IsClaimed?;
        }
      } else {
        ApplyAllKeeps(st, others, key);
      }
    }
  }

  lemma NeverClaimedAround(st: Store, key: string, others: seq<Command>, k: nat)
    requires k < |others| && others[k] == SetDone(key) && KindIn(st, key).IsFree? && WellKept(st, key)
    requires forall j :: 0 <= j < k ==> !Touches(others[j], key)
    ensures !InProgressSometime(st, key, others)
  {
    forall i | 0 <= i <= |others| ensures !KindIn(ApplyAll(st, others[..i]), key).IsClaimed? {
      if i <= k {
        FreeUntilTouched(st, key, others[..i]);
      } else {
        ApplyAllKeeps(st, others[..k], key);
        assert others[..k + 1][..k] == others[..k];
        ApplyAllKeeps(st, others[..k + 1], key);
        var later := others[k + 1..i];
        ApplyAllConcat(st, others[..k + 1], later);
        assert others[..i] == others[..k + 1] + later;
        ApplyAllKeeps(ApplyAll(st, others[..k + 1]), later, key);
      }
    }
  }

  /** So the answer is true at some instant whenever no mark comes after its own claim has
      expired. */
  lemma StillInProgressWhenMarksAreInTime(st: Store, key: string, others: seq<Command>)
    requires WellKept(st, key)
    requires ClaimAnswer(st, key, others, Delivered) == Spec.StillInProgress
    requires forall k :: 0 <= k < |others| && others[k] == SetDone(key) ==>
               !KindIn(ApplyAll(st, others[..k]), key).IsFree?
    ensures InProgressSometime(st, key, others)
  {
    StillInProgressExactly(st, key, others);
    if KindIn(st, key).IsFree? && MarkedFirst(key, others) {
      var k := FirstTouch(key, others);
      FreeUntilTouched(st, key, others[..k]);
    }
  }

  // ---------- keys ----------

  lemma KeyTail(n: string, h: string)
    ensures IdempotencyKey(n, h)[|"walletwatch:idempotency:"|..] == n + ":" + h
  {
    assert IdempotencyKey(n, h) == "walletwatch:idempotency:" + (n + ":" + h);
  }

  /** Some block of one network has the key of some block of the other. */
  ghost predicate Collide(n1: string, n2: string) {
    exists h1, h2 :: IdempotencyKey(n1, h1) == IdempotencyKey(n2, h2)
  }

  lemma CollideWhenPrefix(n1: string, n2: string)
    requires n1 + ":" <= n2
    ensures Collide(n1, n2)
  {
    var rest := n2[|n1| + 1..];
    assert n2 == n1 + ":" + rest;
    assert n1 + ":" + (rest + ":") == n2 + ":" + "";
    assert IdempotencyKey(n1, rest + ":") == "walletwatch:idempotency:" + (n1 + ":" + (rest + ":"));
    assert IdempotencyKey(n2, "") == "walletwatch:idempotency:" + (n2 + ":" + "");
  }

  lemma PrefixWhenShorter(n1: string, h1: string, n2: string, h2: string)
    requires IdempotencyKey(n1, h1) == IdempotencyKey(n2, h2) && |n1| < |n2|
    ensures n1 + ":" <= n2
  {
    KeyTail(n1, h1);
    KeyTail(n2, h2);
    var k := n1 + ":" + h1;
    assert k[..|n1| + 1] == n1 + ":" && (n2 + ":" + h2)[..|n1| + 1] == n2[..|n1| + 1];
  }

  lemma SameWhenEquallyLong(n1: string, h1: string, n2: string, h2: string)
    requires IdempotencyKey(n1, h1) == IdempotencyKey(n2, h2) && |n1| == |n2|
    ensures n1 == n2 && h1 == h2
  {
    KeyTail(n1, h1);
    KeyTail(n2, h2);
    var k1, k2 := n1 + ":" + h1, n2 + ":" + h2;
    assert k1[..|n1|] == n1 && k2[..|n2|] == n2;
    assert k1[|n1| + 1..] == h1 && k2[|n2| + 1..] == h2;
  }

  lemma ColonInside(n1: string, n2: string)
    requires n1 + ":" <= n2
    ensures ':' in n2
  {
    assert n2[|n1|] == (n1 + ":")[|n1|];
  }

  /** Blocks of two networks can share a key exactly if one network's name continues the
      other's after a colon. */
  lemma KeysCollideExactly(n1: string, n2: string)
    requires n1 != n2
    ensures Collide(n1, n2) <==> n1 + ":" <= n2 || n2 + ":" <= n1
  {
    if Collide(n1, n2) {
      var h1, h2 :| IdempotencyKey(n1, h1) == IdempotencyKey(n2, h2);
      if |n1| < |n2| {
        PrefixWhenShorter(n1, h1, n2, h2);
      } else if |n2| < |n1| {
        PrefixWhenShorter(n2, h2, n1, h1);
      } else {
        SameWhenEquallyLong(n1, h1, n2, h2);
      }
    }
    if n1 + ":" <= n2 {
      CollideWhenPrefix(n1, n2);
    }
    if n2 + ":" <= n1 {
      CollideWhenPrefix(n2, n1);
      var h2, h1 :| IdempotencyKey(n2, h2) == IdempotencyKey(n1, h1);
    }
  }

  /** Two blocks share a key exactly if they are the same, for any two network names without
      a colon and for any one network. */
  lemma KeysDiffer(n1: string, h1: string, n2: string, h2: string)
    requires n1 == n2 || (':' !in n1 && ':' !in n2)
    ensures IdempotencyKey(n1, h1) == IdempotencyKey(n2, h2) <==> n1 == n2 && h1 == h2
  {
    if n1 == n2 {
      if IdempotencyKey(n1, h1) == IdempotencyKey(n2, h2) {
        SameWhenEquallyLong(n1, h1, n2, h2);
      }
    } else {
      KeysCollideExactly(n1, n2);
      if n1 + ":" <= n2 {
        ColonInside(n1, n2);
      }
      if n2 + ":" <= n1 {
        ColonInside(n2, n1);
      }
    }
  }

  /** The checkpoints kept in the same Redis are out of reach. */
  lemma NotACheckpoint(network: string, blockHash: string, other: string)
    ensures IdempotencyKey(network, blockHash) != Checkpoints.CheckpointKey(other)
  {
    assert IdempotencyKey(network, blockHash)[0] == 'w' && Checkpoints.CheckpointKey(other)[0] == 'c';
  }

  // ---------- all workers on one block ----------

  /** The next command of a worker is its GET, its SETNX, or it holds the block. A call under
      way keeps the kinds of status the block has had since it began. */
  datatype Pc = Called(seen: set<Spec.Kind>) | Missed(seen: set<Spec.Kind>) | Holding(until: Spec.Deadline)

  /** The workers of one block, against the shared store. A worker that is not listed is
      before its call or after its return. The histories are as in GuardSpec. */
  datatype System = System(
    store: Store, workers: map<Worker, Pc>,
    grants: seq<Spec.Grant>, replies: seq<Spec.Reply>, finished: seq<Worker>, unmarked: nat)

  datatype Step =
    | Foreign(c: Command)                             // time, or another block's commands
    | CallStep(w: Worker)
    | GetStep(w: Worker)
    | GetErr(w: Worker)
    | SetNXStep(w: Worker, ttl: nat)
    | SetNXErr(w: Worker, ttl: nat, applied: bool)
    | NotifyErr(w: Worker)
    | MarkStep(w: Worker, applied: bool)              // an unapplied SET answers with an error

  predicate IsHolding(s: System, w: Worker) {
    w in s.workers && s.workers[w].Holding?
  }

  predicate Enabled(s: System, key: string, x: Step) {
    match x
    case Foreign(c) => !Touches(c, key)
    case CallStep(w) => w !in s.workers
    case GetStep(w) => w in s.workers && s.workers[w].Called?
    case GetErr(w) => w in s.workers && s.workers[w].Called?
    case SetNXStep(w, _) => w in s.workers && s.workers[w].Missed?
    case SetNXErr(w, _, _) => w in s.workers && s.workers[w].Missed?
    case NotifyErr(w) => IsHolding(s, w)
    case MarkStep(w, _) => IsHolding(s, w)
  }

  /** The commands of a step that reach the store. */
  function Commands(key: string, x: Step): seq<Command> {
    match x
    case Foreign(c) => [c]
    case SetNXStep(_, ttl) => [SetNX(key, ttl)]
    case SetNXErr(_, ttl, applied) => if applied then [SetNX(key, ttl)] else []
    case MarkStep(_, applied) => if applied then [SetDone(key)] else []
    case _ => []
  }

  function Moved(s: System, key: string, x: Step): map<Worker, Pc>
    requires Enabled(s, key, x)
  {
    match x
    case Foreign(_) => s.workers
    case CallStep(w) => s.workers[w := Called({})]
    case GetStep(w) =>
      if Get(s.store, key) == Some(DONE) then s.workers - {w} else s.workers[w := Missed(s.workers[w].seen)]
    case GetErr(w) => s.workers - {w}
    case SetNXStep(w, ttl) =>
      if Live(s.store, key) then s.workers - {w}
      else s.workers[w := Holding(Spec.Until(Spec.RedisExpiry, s.store.now, ttl))]
    case SetNXErr(w, _, _) => s.workers - {w}
    case NotifyErr(w) => s.workers - {w}
    case MarkStep(w, _) => s.workers - {w}
  }

  function Widen(pc: Pc, k: Spec.Kind): Pc {
    match pc
    case Called(seen) => Called(seen + {k})
    case Missed(seen) => Missed(seen + {k})
    case Holding(_) => pc
  }

  function Seen(workers: map<Worker, Pc>, k: Spec.Kind): map<Worker, Pc> {
    map w | w in workers :: Widen(workers[w], k)
  }

  function Replies(s: System, key: string, x: Step): seq<Spec.Reply>
    requires Enabled(s, key, x)
  {
    match x
    case GetStep(w) =>
      if Get(s.store, key) == Some(DONE) then [Spec.Reply(w, Spec.IsDone, s.workers[w].seen)] else []
    case SetNXStep(w, _) =>
      if Live(s.store, key) then [Spec.Reply(w, Spec.IsClaimed, s.workers[w].seen)] else []
    case _ => []
  }

  function Grants(s: System, key: string, x: Step): seq<Spec.Grant>
    requires Enabled(s, key, x)
  {
    if x.SetNXStep? && !Live(s.store, key) then [Spec.Grant(x.w, s.store.now, x.ttl, s.store.now)] else []
  }

  function Next(s: System, key: string, x: Step): System
    requires Enabled(s, key, x)
  {
    var store := ApplyAll(s.store, Commands(key, x));
    System(store, Seen(Moved(s, key, x), KindIn(store, key)),
           s.grants + Grants(s, key, x), s.replies + Replies(s, key, x),
           if x.MarkStep? then s.finished + [x.w] else s.finished,
           if x.MarkStep? && !x.applied then s.unmarked + 1 else s.unmarked)
  }

  ghost predicate Runs(s: System, key: string, xs: seq<Step>, t: System)
    decreases |xs|
  {
    if xs == [] then s == t
    else Enabled(s, key, xs[0]) && Runs(Next(s, key, xs[0]), key, xs[1..], t)
  }

  // ---------- refinement ----------

  function Calls(workers: map<Worker, Pc>): map<Worker, set<Spec.Kind>> {
    map w | w in workers && !workers[w].Holding? :: workers[w].seen
  }

  function Holders(workers: map<Worker, Pc>): map<Worker, Spec.Deadline> {
    map w | w in workers && workers[w].Holding? :: workers[w].until
  }

  function Abs(s: System, key: string): Spec.State {
    Spec.State(Spec.RedisExpiry, s.store.now, GuardOf(s.store, key),
               Calls(s.workers), Holders(s.workers),
               s.grants, s.replies, s.finished, s.unmarked)
  }

  function AbsStep(s: System, key: string, x: Step): Spec.Step
    requires Enabled(s, key, x)
  {
    match x
    case Foreign(c) => if c.Wait? then Spec.Tick(c.d) else Spec.Stutter
    case CallStep(w) => Spec.Begin(w)
    case GetStep(w) => if Get(s.store, key) == Some(DONE) then Spec.Refuse(w, Spec.IsDone) else Spec.Stutter
    case GetErr(w) => Spec.Abort(w)
    case SetNXStep(w, ttl) =>
      if !Live(s.store, key) then Spec.Claim(w, s.store.now, ttl)
      else if Spec.IsClaimed in s.workers[w].seen then Spec.Refuse(w, Spec.IsClaimed)
      else Spec.Mislead(w)
    case SetNXErr(w, ttl, applied) =>
      if applied && !Live(s.store, key) then Spec.ClaimUnseen(w, s.store.now, ttl) else Spec.Abort(w)
    case NotifyErr(w) => Spec.GiveUp(w)
    case MarkStep(w, applied) => if applied then Spec.Mark(w) else Spec.MarkFails(w)
  }

  /** The window of a call shows the present, and one that is past its GET has shown the
      block free or claimed. */
  predicate WindowOk(pc: Pc, k: Spec.Kind) {
    match pc
    case Called(seen) => k in seen
    case Missed(seen) => k in seen && (Spec.IsFree in seen || Spec.IsClaimed in seen)
    case Holding(_) => true
  }

  predicate Inv(s: System, key: string) {
    WellKept(s.store, key) && forall w :: w in s.workers ==> WindowOk(s.workers[w], KindIn(s.store, key))
  }

  lemma StepKeepsInv(s: System, key: string, x: Step)
    requires Enabled(s, key, x) && Inv(s, key)
    ensures Inv(Next(s, key, x), key)
  {
    ApplyAllKeeps(s.store, Commands(key, x), key);
    var t := Next(s, key, x);
    forall w | w in t.workers ensures WindowOk(t.workers[w], KindIn(t.store, key)) {
      assert w in Moved(s, key, x);
    }
  }

  lemma OneCommand(st: Store, c: Command)
    ensures ApplyAll(st, [c]) == Apply(st, c)
  {
    assert [c][..0] == [];
  }

  lemma StepEnabled(s: System, key: string, x: Step)
    requires Enabled(s, key, x) && Inv(s, key)
    ensures Spec.Enabled(Abs(s, key), AbsStep(s, key, x))
  {
    if x.SetNXStep? && Live(s.store, key) && Spec.IsClaimed !in s.workers[x.w].seen {
      var seen := s.workers[x.w].seen;
      assert WindowOk(s.workers[x.w], KindIn(s.store, key));
      assert KindIn(s.store, key).IsDone?;
      forall k | k in seen ensures k in {Spec.IsFree, Spec.IsDone} {
        assert k.IsFree? || k.IsDone?;
      }
      assert seen == {Spec.IsFree, Spec.IsDone};
    }
  }

  lemma StoreRefines(s: System, key: string, x: Step)
    requires Enabled(s, key, x) && Inv(s, key) && Spec.Enabled(Abs(s, key), AbsStep(s, key, x))
    ensures var a, b := Abs(Next(s, key, x), key), Spec.Effect(Abs(s, key), AbsStep(s, key, x));
            a.guard == b.guard && a.now == b.now && a.grants == b.grants && a.replies == b.replies
            && a.finished == b.finished && a.unmarked == b.unmarked && a.policy == b.policy
  {
    if Commands(key, x) != [] {
      OneCommand(s.store, Commands(key, x)[0]);
    }
  }

  lemma SeenRefines(workers: map<Worker, Pc>, k: Spec.Kind)
    ensures Calls(Seen(workers, k)) == Spec.Seen(Calls(workers), k)
    ensures Holders(Seen(workers, k)) == Holders(workers)
  {
  }

  lemma RemovedRefines(workers: map<Worker, Pc>, w: Worker)
    requires w in workers
    ensures Calls(workers - {w}) == if workers[w].Holding? then Calls(workers) else Calls(workers) - {w}
    ensures Holders(workers - {w}) == if workers[w].Holding? then Holders(workers) - {w} else Holders(workers)
  {
  }

  lemma PlacedRefines(workers: map<Worker, Pc>, w: Worker, pc: Pc)
    requires w in workers ==> !workers[w].Holding?
    ensures Calls(workers[w := pc]) == if pc.Holding? then Calls(workers) - {w} else Calls(workers)[w := pc.seen]
    ensures Holders(workers[w := pc]) == if pc.Holding? then Holders(workers)[w := pc.until] else Holders(workers)
  {
  }

  lemma MovesRefine(s: System, key: string, x: Step)
    requires Enabled(s, key, x) && Inv(s, key) && Spec.Enabled(Abs(s, key), AbsStep(s, key, x))
    ensures Calls(Moved(s, key, x)) == Spec.Effect(Abs(s, key), AbsStep(s, key, x)).calls
    ensures Holders(Moved(s, key, x)) == Spec.Effect(Abs(s, key), AbsStep(s, key, x)).holders
  {
    if !x.Foreign? {
      var moved := Moved(s, key, x);
      if x.w in moved {
        PlacedRefines(s.workers, x.w, moved[x.w]);
        assert x.w in s.workers && !moved[x.w].Holding? ==> Calls(s.workers)[x.w := moved[x.w].seen] == Calls(s.workers);
      } else {
        RemovedRefines(s.workers, x.w);
      }
    }
    hide ApplyAll, GuardOf, Spec.KindOf, Calls, Holders, Spec.Enabled, Inv;
  }

  lemma StepRefines(s: System, key: string, x: Step)
    requires Enabled(s, key, x) && Inv(s, key)
    ensures Spec.Enabled(Abs(s, key), AbsStep(s, key, x))
    ensures Abs(Next(s, key, x), key) == Spec.Next(Abs(s, key), AbsStep(s, key, x))
  {
    StepEnabled(s, key, x);
    StoreRefines(s, key, x);
    MovesRefine(s, key, x);
    SeenRefines(Moved(s, key, x), KindIn(Next(s, key, x).store, key));
    hide Calls, Holders, Seen, Moved, Spec.Effect, GuardOf, ApplyAll, Spec.KindOf, Spec.Enabled, AbsStep, Inv, Enabled;
  }

  /** Every interleaving of GETs, SETNXs, SETs and lost replies is a run of the abstract
      guard with the same answers. */
  lemma {:induction false} RunRefines(s: System, key: string, xs: seq<Step>, t: System) returns (ys: seq<Spec.Step>)
    requires Runs(s, key, xs, t) && Inv(s, key)
    ensures Spec.Runs(Abs(s, key), ys, Abs(t, key)) && Inv(t, key)
    decreases |xs|
  {
    if xs == [] {
      ys := [];
    } else {
      StepKeepsInv(s, key, xs[0]);
      StepRefines(s, key, xs[0]);
      var rest := RunRefines(Next(s, key, xs[0]), key, xs[1..], t);
      ys := [AbsStep(s, key, xs[0])] + rest;
      assert ys[1..] == rest;
    }
  }

  /** A fresh block: nobody at work, nothing stored under its key. */
  predicate Fresh(s: System, key: string) {
    && key !in s.store.kv && s.workers == map[]
    && s.grants == [] && s.replies == [] && s.finished == [] && s.unmarked == 0
  }

  lemma FreshIsApart(s: System, key: string)
    requires Fresh(s, key)
    ensures Inv(s, key) && Spec.ApartInv(Abs(s, key))
  {
  }

  /** Two successful claims on one block are at least the first one's ttl apart, and with a
      ttl of zero there is no second one. */
  lemma ClaimsAreATtlApart(s: System, key: string, xs: seq<Step>, t: System)
    requires Fresh(s, key) && Runs(s, key, xs, t)
    ensures forall i, j :: 0 <= i < j < |t.grants| ==> t.grants[i].at + t.grants[i].ttl <= t.grants[j].at
    ensures forall i :: 0 <= i < |t.grants| - 1 ==> t.grants[i].ttl != 0
  {
    hide Runs, Spec.Runs, Spec.ApartInv, Inv, Fresh;
    FreshIsApart(s, key);
    var ys := RunRefines(s, key, xs, t);
    Spec.RunKeepsApart(Abs(s, key), ys, Abs(t, key));
    Spec.RedisApart(Abs(t, key));
  }

  lemma StepKeepsDone(s: System, key: string, x: Step)
    requires GuardOf(s.store, key).Done? && WellKept(s.store, key) && Enabled(s, key, x)
    ensures GuardOf(Next(s, key, x).store, key).Done? && WellKept(Next(s, key, x).store, key) && Next(s, key, x).grants == s.grants
  {
    ApplyAllKeeps(s.store, Commands(key, x), key);
  }

  /** Once done, whatever stale holders, late SETNXs and repeated marks follow, the key
      stays done and no claim succeeds. */
  lemma {:induction false} DoneIsTerminal(s: System, key: string, xs: seq<Step>, t: System)
    requires GuardOf(s.store, key).Done? && WellKept(s.store, key) && Runs(s, key, xs, t)
    ensures GuardOf(t.store, key).Done? && t.grants == s.grants
    decreases |xs|
  {
    hide GuardOf, Enabled;
    if xs != [] {
      StepKeepsDone(s, key, xs[0]);
      DoneIsTerminal(Next(s, key, xs[0]), key, xs[1..], t);
    }
  }

  /** Over all runs a refusal was true at an instant of its call, but for a StillInProgress
      whose block went from free straight to done meanwhile. */
  lemma AnswersExactly(s: System, key: string, xs: seq<Step>, t: System)
    requires Fresh(s, key) && Runs(s, key, xs, t)
    ensures forall i :: 0 <= i < |t.replies| ==> Spec.Right(t.replies[i]) || Spec.Misled(t.replies[i])
  {
    var ys := RunRefines(s, key, xs, t);
    Spec.AnswersExactly(Abs(s, key), ys, Abs(t, key));
  }

  // ---------- holders that keep their deadlines ----------

  predicate Timely(s: System) {
    forall w :: w in s.workers && s.workers[w].Holding? && s.workers[w].until.At? ==> s.store.now < s.workers[w].until.time
  }

  ghost predicate TimelyRun(s: System, key: string, xs: seq<Step>, t: System)
    decreases |xs|
  {
    Timely(s)
    && if xs == [] then s == t
       else Enabled(s, key, xs[0]) && TimelyRun(Next(s, key, xs[0]), key, xs[1..], t)
  }

  /** A claim past its GET has seen the block claimed, or it is still free. */
  predicate MissedOk(pc: Pc, k: Spec.Kind) {
    pc.Missed? ==> k.IsFree? || Spec.IsClaimed in pc.seen
  }

  ghost predicate TimelyInv(s: System, key: string) {
    && Inv(s, key) && Spec.ExclusionInv(Abs(s, key))
    && forall w :: w in s.workers ==> MissedOk(s.workers[w], KindIn(s.store, key))
  }

  lemma HoldersShowClaimed(s: System, key: string, w: Worker)
    requires Timely(s) && Spec.ExclusionInv(Abs(s, key)) && IsHolding(s, w)
    ensures GuardOf(s.store, key) == Spec.Claimed(s.workers[w].until) && KindIn(s.store, key).IsClaimed?
  {
    assert w in Abs(s, key).holders;
  }

  lemma TimelyStep(s: System, key: string, x: Step)
    requires Enabled(s, key, x) && Timely(s) && TimelyInv(s, key)
    ensures TimelyInv(Next(s, key, x), key) && !AbsStep(s, key, x).Mislead?
  {
    StepKeepsInv(s, key, x);
    StepRefines(s, key, x);
    assert Spec.Timely(Abs(s, key));
    Spec.StepKeepsExclusion(Abs(s, key), AbsStep(s, key, x));
    if x.MarkStep? {
      HoldersShowClaimed(s, key, x.w);
    }
    var t := Next(s, key, x);
    forall w | w in t.workers ensures MissedOk(t.workers[w], KindIn(t.store, key)) {
      MissedStaysOk(s, key, x, w);
    }
  }

  lemma MissedStaysOk(s: System, key: string, x: Step, w: Worker)
    requires Enabled(s, key, x) && Inv(s, key) && w in Next(s, key, x).workers
    requires w in s.workers ==> MissedOk(s.workers[w], KindIn(s.store, key))
    requires x.MarkStep? ==> KindIn(s.store, key).IsClaimed?
    ensures MissedOk(Next(s, key, x).workers[w], KindIn(Next(s, key, x).store, key))
  {
    if Commands(key, x) != [] {
      OneCommand(s.store, Commands(key, x)[0]);
    }
    assert w in s.workers ==> WindowOk(s.workers[w], KindIn(s.store, key));
  }

  lemma {:induction false} TimelyRunRefines(s: System, key: string, xs: seq<Step>, t: System)
    returns (ys: seq<Spec.Step>)
    requires TimelyRun(s, key, xs, t) && TimelyInv(s, key)
    ensures Spec.TimelyRun(Abs(s, key), ys, Abs(t, key)) && Spec.Honest(ys)
    ensures TimelyInv(t, key) && Timely(t)
    decreases |xs|
  {
    assert Spec.Timely(Abs(s, key));
    if xs == [] {
      ys := [];
    } else {
      StepRefines(s, key, xs[0]);
      TimelyStep(s, key, xs[0]);
      var rest := TimelyRunRefines(Next(s, key, xs[0]), key, xs[1..], t);
      ys := [AbsStep(s, key, xs[0])] + rest;
      assert ys[1..] == rest;
    }
  }

  lemma FreshIsTimely(s: System, key: string)
    requires Fresh(s, key)
    ensures TimelyInv(s, key)
  {
    assert Abs(s, key).holders == map[];
  }

  /** If every holder returns within its ttl, no two workers are ever between claim and
      return, the key shows the holder's claim as long as there is one, and if in addition
      every mark takes effect at most one worker returns nil. */
  lemma MutualExclusion(s: System, key: string, xs: seq<Step>, t: System)
    requires Fresh(s, key) && TimelyRun(s, key, xs, t)
    ensures forall v, w :: IsHolding(t, v) && IsHolding(t, w) ==> v == w
    ensures forall w :: IsHolding(t, w) ==>
              GuardOf(t.store, key) == Spec.Claimed(t.workers[w].until) && KindIn(t.store, key).IsClaimed?
    ensures |t.finished| <= t.unmarked + 1
  {
    FreshIsTimely(s, key);
    var ys := TimelyRunRefines(s, key, xs, t);
    forall v, w | IsHolding(t, v) && IsHolding(t, w) ensures v == w {
      assert v in Abs(t, key).holders && w in Abs(t, key).holders;
    }
    forall w | IsHolding(t, w)
      ensures GuardOf(t.store, key) == Spec.Claimed(t.workers[w].until) && KindIn(t.store, key).IsClaimed?
    {
      HoldersShowClaimed(t, key, w);
    }
  }

  /** Then every StillInProgress and every AlreadyFinished was true at an instant of its
      call. */
  lemma AnswersAreTrue(s: System, key: string, xs: seq<Step>, t: System)
    requires Fresh(s, key) && TimelyRun(s, key, xs, t)
    ensures forall i :: 0 <= i < |t.replies| ==> Spec.Right(t.replies[i])
  {
    FreshIsTimely(s, key);
    var ys := TimelyRunRefines(s, key, xs, t);
    Spec.TimelyRunsRun(Abs(s, key), ys, Abs(t, key));
    Spec.HonestRunsAreTruthful(Abs(s, key), ys, Abs(t, key));
  }

  // ---------- one call of the client is a run of its steps ----------

  predicate MovesWorker(x: Step, w: Worker) {
    !x.Foreign? && x.w == w
  }

  ghost predicate OthersOnly(xs: seq<Step>, w: Worker) {
    forall i :: 0 <= i < |xs| ==> !MovesWorker(xs[i], w)
  }

  /** The commands of some steps that reach the store, in order. */
  function Effects(key: string, xs: seq<Step>): seq<Command> {
    if xs == [] then [] else Effects(key, xs[..|xs| - 1]) + Commands(key, xs[|xs| - 1])
  }

  /** The kinds of status the block has along some commands. */
  function KindsAlong(st: Store, key: string, cs: seq<Command>): set<Spec.Kind> {
    (if cs == [] then {} else KindsAlong(st, key, cs[..|cs| - 1])) + {KindIn(ApplyAll(st, cs), key)}
  }

  lemma {:induction false} KindsAlongExactly(st: Store, key: string, cs: seq<Command>, k: Spec.Kind)
    ensures k in KindsAlong(st, key, cs) <==> exists i :: 0 <= i <= |cs| && KindIn(ApplyAll(st, cs[..i]), key) == k
  {
    assert cs[..|cs|] == cs;
    if cs != [] {
      var n := |cs| - 1;
      KindsAlongExactly(st, key, cs[..n], k);
      assert forall i :: 0 <= i <= n ==> cs[..n][..i] == cs[..i];
    }
  }

  lemma {:induction false} RunsSnoc(s: System, key: string, xs: seq<Step>, x: Step, u: System) returns (t: System)
    requires Runs(s, key, xs + [x], u)
    ensures Runs(s, key, xs, t) && Enabled(t, key, x) && u == Next(t, key, x)
    decreases |xs|
  {
    hide Next, Enabled;
    if xs == [] {
      t := s;
    } else {
      assert (xs + [x])[0] == xs[0] && (xs + [x])[1..] == xs[1..] + [x];
      t := RunsSnoc(Next(s, key, xs[0]), key, xs[1..], x, u);
    }
  }

  lemma {:induction false} Extend(s: System, key: string, xs: seq<Step>, t: System, x: Step)
    requires Runs(s, key, xs, t) && Enabled(t, key, x)
    ensures Runs(s, key, xs + [x], Next(t, key, x))
    decreases |xs|
  {
    hide Next, Enabled;
    if xs == [] {
      assert [x][1..] == [];
    } else {
      Extend(Next(s, key, xs[0]), key, xs[1..], t, x);
      assert (xs + [x])[0] == xs[0] && (xs + [x])[1..] == xs[1..] + [x];
    }
  }

  lemma OthersKeepPlace(s: System, key: string, x: Step, w: Worker)
    requires Enabled(s, key, x) && !MovesWorker(x, w) && w in s.workers && s.workers[w].Missed?
    ensures var t := Next(s, key, x);
            && t.store == ApplyAll(s.store, Commands(key, x))
            && w in t.workers && t.workers[w] == Missed(s.workers[w].seen + {KindIn(t.store, key)})
  {
    hide KindIn, ApplyAll;
  }

  lemma KindsOneMore(st: Store, key: string, cs: seq<Command>, x: Step)
    ensures KindsAlong(st, key, cs + Commands(key, x))
            == KindsAlong(st, key, cs) + {KindIn(ApplyAll(st, cs + Commands(key, x)), key)}
  {
    var c := Commands(key, x);
    if c == [] {
      assert cs + c == cs;
    } else {
      assert |c| == 1 && (cs + c)[..|cs + c| - 1] == cs;
    }
  }

  /** While others run, a call keeps its place, and its window collects what they do to the
      block. */
  lemma {:induction false} WindowCollects(s: System, key: string, xs: seq<Step>, t: System, w: Worker)
    requires Runs(s, key, xs, t) && OthersOnly(xs, w)
    requires w in s.workers && s.workers[w].Missed? && KindIn(s.store, key) in s.workers[w].seen
    ensures t.store == ApplyAll(s.store, Effects(key, xs))
    ensures w in t.workers
    ensures t.workers[w] == Missed(s.workers[w].seen + KindsAlong(s.store, key, Effects(key, xs)))
    decreases |xs|
  {
    if xs == [] {
      assert s.workers[w].seen + {KindIn(s.store, key)} == s.workers[w].seen;
    } else {
      var n := |xs| - 1;
      var x := xs[n];
      assert xs == xs[..n] + [x];
      var r := RunsSnoc(s, key, xs[..n], x, t);
      WindowCollects(s, key, xs[..n], r, w);
      assert !MovesWorker(x, w);
      OthersKeepPlace(r, key, x, w);
      hide KindIn, KindsAlong, Next, Enabled, Commands, Runs, MovesWorker, ApplyAll;
      var before := Effects(key, xs[..n]);
      assert Effects(key, xs) == before + Commands(key, x);
      ApplyAllConcat(s.store, before, Commands(key, x));
      KindsOneMore(s.store, key, before, x);
      assert t.workers[w].seen == s.workers[w].seen + (KindsAlong(s.store, key, before) + {KindIn(t.store, key)});
    }
  }

  /** The steps of one call, `xs` being those of others between its GET and its SETNX. */
  function ClaimSteps(st: Store, key: string, w: Worker, ttl: nat, xs: seq<Step>, net: Network): seq<Step> {
    if net.GetFails? then [CallStep(w), GetErr(w)]
    else if Get(st, key) == Some(DONE) then [CallStep(w), GetStep(w)]
    else [CallStep(w), GetStep(w)] + xs
         + [if net.SetNXFails? then SetNXErr(w, ttl, net.applied) else SetNXStep(w, ttl)]
  }

  /** What the system records of an answer. */
  predicate Recorded(u: System, w: Worker, answer: Spec.Answer, seen: set<Spec.Kind>) {
    match answer
    case Granted => IsHolding(u, w)
    case StillInProgress => w !in u.workers && u.replies != []
                            && u.replies[|u.replies| - 1] == Spec.Reply(w, Spec.IsClaimed, seen)
    case AlreadyFinished => w !in u.workers && u.replies != []
                            && u.replies[|u.replies| - 1] == Spec.Reply(w, Spec.IsDone, seen)
    case StoreError => w !in u.workers
    case ClaimFailedUnexpectedly => false
  }

  lemma GetIsARun(s: System, key: string, w: Worker, y: Step, u: System)
    requires w !in s.workers && (y == GetStep(w) || y == GetErr(w)) && Runs(s, key, [CallStep(w), y], u)
    ensures u.store == s.store
    ensures var seen := {KindIn(s.store, key)};
            if y.GetErr? then w !in u.workers
            else if Get(s.store, key) == Some(DONE) then Recorded(u, w, Spec.AlreadyFinished, seen)
            else w in u.workers && u.workers[w] == Missed(seen)
  {
    assert [CallStep(w)] + [y] == [CallStep(w), y] && [CallStep(w)][1..] == [];
    var c := RunsSnoc(s, key, [CallStep(w)], y, u);
    assert c.store == s.store && c.workers[w] == Called({KindIn(s.store, key)});
    assert u == Next(c, key, y) && u.store == s.store;
  }

  /** A call of the client with `xs` in between is a run of its steps: the client's answer
      and store are those of the system, and the recorded window holds the kinds of status
      the block had from the GET to the SETNX. */
  lemma ClaimIsARun(s: System, key: string, w: Worker, ttl: nat, xs: seq<Step>, net: Network, u: System)
    requires w !in s.workers && OthersOnly(xs, w)
    requires Runs(s, key, ClaimSteps(s.store, key, w, ttl, xs, net), u)
    ensures u.store == AfterClaim(s.store, key, ttl, Effects(key, xs), net)
    ensures var answer := ClaimAnswer(s.store, key, Effects(key, xs), net);
            Recorded(u, w, answer, if answer.AlreadyFinished? then {KindIn(s.store, key)}
                                   else KindsAlong(s.store, key, Effects(key, xs)))
  {
    if net.GetFails? {
      GetIsARun(s, key, w, GetErr(w), u);
    } else if Get(s.store, key) == Some(DONE) {
      GetIsARun(s, key, w, GetStep(w), u);
    } else {
      var y := if net.SetNXFails? then SetNXErr(w, ttl, net.applied) else SetNXStep(w, ttl);
      var t := RunsSnoc(s, key, [CallStep(w), GetStep(w)] + xs, y, u);
      var c := RunsSplit(s, key, [CallStep(w), GetStep(w)], xs, t);
      GetIsARun(s, key, w, GetStep(w), c);
      WindowCollects(c, key, xs, t, w);
      KindsStart(s.store, key, Effects(key, xs));
      assert t.workers[w] == Missed(KindsAlong(s.store, key, Effects(key, xs)));
      LastStepIsARun(s.store, key, w, ttl, xs, net, t, u);
    }
  }

  lemma LastStepIsARun(st: Store, key: string, w: Worker, ttl: nat, xs: seq<Step>, net: Network, t: System, u: System)
    requires !net.GetFails? && Get(st, key) != Some(DONE)
    requires t.store == ApplyAll(st, Effects(key, xs)) && w in t.workers
    requires t.workers[w] == Missed(KindsAlong(st, key, Effects(key, xs)))
    requires u == Next(t, key, if net.SetNXFails? then SetNXErr(w, ttl, net.applied) else SetNXStep(w, ttl))
    ensures u.store == AfterClaim(st, key, ttl, Effects(key, xs), net)
    ensures Recorded(u, w, ClaimAnswer(st, key, Effects(key, xs), net), KindsAlong(st, key, Effects(key, xs)))
  {
    hide Effects, KindsAlong, KindIn;
    OneCommand(t.store, SetNX(key, ttl));
    assert ApplyAll(t.store, []) == t.store;
  }

  lemma {:induction false} KindsStart(st: Store, key: string, cs: seq<Command>)
    ensures {KindIn(st, key)} + KindsAlong(st, key, cs) == KindsAlong(st, key, cs)
  {
    if cs != [] {
      KindsStart(st, key, cs[..|cs| - 1]);
    }
  }

  lemma {:induction false} RunsSplit(s: System, key: string, a: seq<Step>, b: seq<Step>, u: System) returns (t: System)
    requires Runs(s, key, a + b, u)
    ensures Runs(s, key, a, t) && Runs(t, key, b, u)
    decreases |a|
  {
    hide Next, Enabled;
    if a == [] {
      assert a + b == b;
      t := s;
    } else {
      assert (a + b)[0] == a[0] && (a + b)[1..] == a[1..] + b;
      t := RunsSplit(Next(s, key, a[0]), key, a[1..], b, u);
    }
  }

  /** So a StillInProgress recorded by the system was true during its call exactly if the
      block was claimed at an instant between the call's GET and its SETNX. */
  lemma StillInProgressIsRightExactly(s: System, key: string, w: Worker, ttl: nat, xs: seq<Step>, u: System)
    requires w !in s.workers && OthersOnly(xs, w)
    requires Runs(s, key, ClaimSteps(s.store, key, w, ttl, xs, Delivered), u)
    requires ClaimAnswer(s.store, key, Effects(key, xs), Delivered) == Spec.StillInProgress
    ensures u.replies != [] && u.replies[|u.replies| - 1].worker == w
    ensures Spec.Right(u.replies[|u.replies| - 1]) <==> InProgressSometime(s.store, key, Effects(key, xs))
  {
    ClaimIsARun(s, key, w, ttl, xs, Delivered, u);
    KindsAlongExactly(s.store, key, Effects(key, xs), Spec.IsClaimed);
  }

  // ---------- holders that overstay ----------

  /** While one worker holds the block, a claim of another makes a second holder exactly if
      the block is free: the holder's claim has expired and nobody has finished. */
  lemma SecondHolderExactly(s: System, key: string, v: Worker, w: Worker, ttl: nat) returns (u: System)
    requires WellKept(s.store, key) && IsHolding(s, v) && w !in s.workers
    ensures Runs(s, key, ClaimSteps(s.store, key, w, ttl, [], Delivered), u)
    ensures IsHolding(u, v) && (IsHolding(u, w) <==> KindIn(s.store, key).IsFree?)
  {
    var c := Next(s, key, CallStep(w));
    var g := Next(c, key, GetStep(w));
    assert c.store == s.store && g.store == s.store && c.workers[w].Called?;
    Extend(s, key, [], s, CallStep(w));
    Extend(s, key, [CallStep(w)], c, GetStep(w));
    assert [] + [CallStep(w)] == [CallStep(w)];
    assert [CallStep(w)] + [GetStep(w)] == [CallStep(w), GetStep(w)];
    if Get(s.store, key) == Some(DONE) {
      u := g;
    } else {
      assert g.workers[w].Missed?;
      u := Next(g, key, SetNXStep(w, ttl));
      Extend(s, key, [CallStep(w), GetStep(w)], g, SetNXStep(w, ttl));
      assert [CallStep(w), GetStep(w)] + [] == [CallStep(w), GetStep(w)];
    }
  }

  /** One worker claims and is still at work when its ttl has run out. */
  function Overstays(ttl: nat): seq<Step> {
    [CallStep(0)] + [GetStep(0)] + [SetNXStep(0, ttl)] + [Foreign(Wait(ttl))]
  }

  lemma FirstClaim(s: System, key: string, ttl: nat) returns (t: System)
    requires Fresh(s, key)
    ensures Runs(s, key, [CallStep(0)] + [GetStep(0)] + [SetNXStep(0, ttl)], t) && Inv(t, key)
    ensures t.store == Store(s.store.kv[key := Entry("", Expires(s.store.now, ttl))], s.store.now)
    ensures t.workers.Keys == {0} && t.workers[0].Holding? && t.replies == []
  {
    var a := Next(s, key, CallStep(0));
    assert Inv(s, key);
    StepKeepsInv(s, key, CallStep(0));
    assert a.workers.Keys == {0} && a.workers[0].Called?;
    var b := Next(a, key, GetStep(0));
    StepKeepsInv(a, key, GetStep(0));
    assert b.workers.Keys == {0} && b.workers[0].Missed? && b.store == s.store;
    t := Next(b, key, SetNXStep(0, ttl));
    StepKeepsInv(b, key, SetNXStep(0, ttl));
    OneCommand(b.store, SetNX(key, ttl));
    assert Runs(s, key, [], s) && [] + [CallStep(0)] == [CallStep(0)];
    Extend(s, key, [], s, CallStep(0));
    Extend(s, key, [CallStep(0)], a, GetStep(0));
    Extend(s, key, [CallStep(0)] + [GetStep(0)], b, SetNXStep(0, ttl));
  }

  /** From a fresh block a holder that overstays any ttl leaves it free. */
  lemma Overstay(s: System, key: string, ttl: nat) returns (t: System)
    requires Fresh(s, key) && ttl > 0
    ensures Runs(s, key, Overstays(ttl), t) && t.workers.Keys == {0} && IsHolding(t, 0)
    ensures Inv(t, key) && KindIn(t.store, key).IsFree? && t.replies == []
  {
    var c := FirstClaim(s, key, ttl);
    t := Next(c, key, Foreign(Wait(ttl)));
    OneCommand(c.store, Wait(ttl));
    StepKeepsInv(c, key, Foreign(Wait(ttl)));
    Extend(s, key, [CallStep(0)] + [GetStep(0)] + [SetNXStep(0, ttl)], c, Foreign(Wait(ttl)));
    assert t.workers.Keys == {0};
  }

  /** So without the promise of timeliness two workers can hold one block, for every ttl
      that expires at all. */
  lemma TwoHolders(s: System, key: string, ttl: nat) returns (xs: seq<Step>, u: System)
    requires Fresh(s, key) && ttl > 0
    ensures Runs(s, key, xs, u) && IsHolding(u, 0) && IsHolding(u, 1)
  {
    var t := Overstay(s, key, ttl);
    u := SecondHolderExactly(t, key, 0, 1, ttl);
    xs := Overstays(ttl) + ClaimSteps(t.store, key, 1, ttl, [], Delivered);
    Join(s, key, Overstays(ttl), t, ClaimSteps(t.store, key, 1, ttl, [], Delivered), u);
  }

  lemma {:induction false} Join(s: System, key: string, a: seq<Step>, t: System, b: seq<Step>, u: System)
    requires Runs(s, key, a, t) && Runs(t, key, b, u)
    ensures Runs(s, key, a + b, u)
    decreases |a|
  {
    hide Next, Enabled;
    if a == [] {
      assert a + b == b;
    } else {
      Join(Next(s, key, a[0]), key, a[1..], t, b, u);
      assert (a + b)[0] == a[0] && (a + b)[1..] == a[1..] + b;
    }
  }

  /** A claim whose GET misses, and the mark of the one who overstayed. */
  lemma MarkAfterGet(t: System, key: string) returns (u: System)
    requires Inv(t, key) && t.workers.Keys == {0} && IsHolding(t, 0) && KindIn(t.store, key).IsFree? && t.replies == []
    ensures Runs(t, key, [CallStep(1)] + [GetStep(1)] + [MarkStep(0, true)], u)
    ensures Live(u.store, key) && 1 in u.workers && u.workers[1] == Missed({Spec.IsFree, Spec.IsDone}) && u.replies == []
  {
    var a := Next(t, key, CallStep(1));
    assert a.store == t.store && a.workers[1] == Called({Spec.IsFree}) && IsHolding(a, 0);
    var b := Next(a, key, GetStep(1));
    assert b.store == t.store && b.workers[1] == Missed({Spec.IsFree}) && IsHolding(b, 0);
    u := Next(b, key, MarkStep(0, true));
    OneCommand(b.store, SetDone(key));
    assert Runs(t, key, [], t) && [] + [CallStep(1)] == [CallStep(1)];
    hide Runs;
    Extend(t, key, [], t, CallStep(1));
    Extend(t, key, [CallStep(1)], a, GetStep(1));
    Extend(t, key, [CallStep(1)] + [GetStep(1)], b, MarkStep(0, true));
  }

  /** And a claim can be told that the block is in progress although it never is during the
      call: the holder that overstayed marks it between the GET and the SETNX. */
  lemma MisledAnswer(s: System, key: string, ttl: nat) returns (xs: seq<Step>, u: System)
    requires Fresh(s, key) && ttl > 0
    ensures Runs(s, key, xs, u) && |u.replies| == 1 && Spec.Misled(u.replies[0]) && !Spec.Right(u.replies[0])
  {
    hide Runs, KindIn;
    var t := Overstay(s, key, ttl);
    var v := MarkAfterGet(t, key);
    var ys := [CallStep(1)] + [GetStep(1)] + [MarkStep(0, true)];
    Join(s, key, Overstays(ttl), t, ys, v);
    Extend(s, key, Overstays(ttl) + ys, v, SetNXStep(1, ttl));
    xs, u := Overstays(ttl) + ys + [SetNXStep(1, ttl)], Next(v, key, SetNXStep(1, ttl));
  }
}
