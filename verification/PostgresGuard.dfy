/**
 The PostgreSQL idempotency guard (internal/infra/storage/postgresql/walletwatch.go): the
 caller's clock is read, one upsert claims or extends, and a refusal is explained by a
 separate read. Workers and database share one clock; other clients run in between.
 */
module PostgresGuard {
  import opened Wrappers
  import opened Checkpoints
  import Spec = GuardSpec

  type Worker = Spec.Worker

  // ---------- the table ----------

  datatype Row = Row(inProgressUntil: int, finished: bool)

  /** The unique constraint is on the network and the block hash. */
  type Key = (string, string)

  datatype Table = Table(rows: map<Key, Row>, now: int)

  datatype Command = Wait(d: nat) | ClaimOrExtendIfExpired(key: Key, until: int) | MarkClaimAsCompleted(key: Key)

  /** The upsert finds a row it may not update. */
  predicate Refuses(t: Table, key: Key) {
    key in t.rows && (t.rows[key].finished || t.rows[key].inProgressUntil >= t.now)
  }

  function Apply(t: Table, c: Command): Table {
    match c
    case Wait(d) => t.(now := t.now + d)
    case ClaimOrExtendIfExpired(key, until) =>
      if Refuses(t, key) then t else t.(rows := t.rows[key := Row(until, false)])
    case MarkClaimAsCompleted(key) =>
      if key in t.rows then t.(rows := t.rows[key := t.rows[key].(finished := true)]) else t
  }

  function ApplyAll(t: Table, cs: seq<Command>): Table {
    if cs == [] then t else Apply(ApplyAll(t, cs[..|cs| - 1]), cs[|cs| - 1])
  }

  /** What is stored about a block, expired or not. */
  function GuardOf(t: Table, key: Key): Spec.Guard {
    if key !in t.rows then Spec.Free
    else if t.rows[key].finished then Spec.Done
    else Spec.Claimed(Spec.At(t.rows[key].inProgressUntil))
  }

  function KindIn(t: Table, key: Key): Spec.Kind {
    Spec.KindOf(Spec.PostgresExpiry, GuardOf(t, key), t.now)
  }

  /** Rows are never deleted and never reopened, and time does not run backwards. */
  lemma {:induction false} RowsStay(t: Table, cs: seq<Command>, key: Key)
    ensures t.now <= ApplyAll(t, cs).now
    ensures key in t.rows ==> key in ApplyAll(t, cs).rows
    ensures key in t.rows && t.rows[key].finished ==> ApplyAll(t, cs).rows[key].finished
  {
    if cs != [] {
      RowsStay(t, cs[..|cs| - 1], key);
    }
  }

  /** How the replies of a claim arrive; an upsert whose reply is lost may have run. */
  datatype Network = Delivered | UpsertFails(applied: bool) | FindFails

  /** Two blocks share a row exactly if their hashes are equal and their networks' names
      differ in the case of letters at most. */
  lemma KeysDiffer(n1: string, h1: string, n2: string, h2: string)
    ensures (ToUpper(n1), h1) == (ToUpper(n2), h2) <==> SameButCase(n1, n2) && h1 == h2
  {
    ToUpperExactly(n1, n2);
  }

  /** No command on one block's row changes another's. */
  lemma {:induction false} ClaimsStayApart(t: Table, cs: seq<Command>, n1: string, h1: string, n2: string, h2: string)
    requires !(SameButCase(n1, n2) && h1 == h2)
    requires forall i :: 0 <= i < |cs| ==> cs[i].Wait? || cs[i].key == (ToUpper(n1), h1)
    ensures GuardOf(ApplyAll(t, cs), (ToUpper(n2), h2)) == GuardOf(t, (ToUpper(n2), h2))
  {
    hide ToUpper, SameButCase;
    if cs != [] {
      ClaimsStayApart(t, cs[..|cs| - 1], n1, h1, n2, h2);
      KeysDiffer(n1, h1, n2, h2);
    }
  }

  class PostgresClient {
    var rows: map<Key, Row>
    var now: int

    function View(): Table
      reads this
    {
      Table(rows, now)
    }

    constructor (now: int)
      ensures View() == Table(map[], now)
    {
      rows := map[];
      this.now := now;
    }

    method Execute(c: Command) returns (affectedRows: nat)
      modifies this
      ensures View() == Apply(old(View()), c)
      ensures c.ClaimOrExtendIfExpired? ==> (affectedRows == 0 <==> Refuses(old(View()), c.key))
    {
      affectedRows := 0;
      match c {
        case Wait(d) => now := now + d;
        case ClaimOrExtendIfExpired(key, until) =>
          if key !in rows || (!rows[key].finished && rows[key].inProgressUntil < now) {
            rows := rows[key := Row(until, false)];
            affectedRows := 1;
          }
        case MarkClaimAsCompleted(key) =>
          if key in rows && !rows[key].finished {
            rows := rows[key := rows[key].(finished := true)];
            affectedRows := 1;
          }
          assert key in rows ==> old(rows)[key := rows[key]] == rows;
      }
    }

    method Interference(others: seq<Command>)
      modifies this
      ensures View() == ApplyAll(old(View()), others)
    {
      for i := 0 to |others|
        invariant View() == ApplyAll(old(View()), others[..i])
      {
        var _ := Execute(others[i]);
        assert others[..i + 1][..i] == others[..i];
      }
      assert others[..|others|] == others;
    }

    /** `before` runs between the clock reading and the upsert, `between` between the upsert
        and the read. */
    method ClaimBlockForTxWatch(network: string, blockHash: string, ttl: int,
        before: seq<Command>, between: seq<Command>, net: Network)
      returns (answer: Spec.Answer)
      modifies this
      ensures answer == ClaimAnswer(old(View()), (ToUpper(network), blockHash), before, between, net)
      ensures View() == AfterClaim(old(View()), (ToUpper(network), blockHash), ttl, before, between, net)
    {
      var key := (ToUpper(network), blockHash);
      var clock := now;
      Interference(before);
      ghost var atUpsert := View();
      var affectedRows := 0;
      if net != UpsertFails(false) {
        affectedRows := Execute(ClaimOrExtendIfExpired(key, clock + ttl));
      }
      if net.UpsertFails? {
        return Spec.StoreError;
      }
      if affectedRows > 0 {
        return Spec.Granted;
      }
      Interference(between);
      if net.FindFails? {
        return Spec.StoreError;
      }
      RowsStay(atUpsert, between, key);
      var guard := rows[key];
      if guard.finished {
        return Spec.AlreadyFinished;
      } else if clock < guard.inProgressUntil {
        return Spec.StillInProgress;
      } else {
        return Spec.ClaimFailedUnexpectedly;
      }
    }

    method MarkBlockTxWatchComplete(network: string, blockHash: string)
      modifies this
      ensures View() == Apply(old(View()), MarkClaimAsCompleted((ToUpper(network), blockHash)))
    {
      var _ := Execute(MarkClaimAsCompleted((ToUpper(network), blockHash)));
    }
  }

  function ClaimAnswer(t: Table, key: Key, before: seq<Command>, between: seq<Command>, net: Network): Spec.Answer {
    var atUpsert := ApplyAll(t, before);
    if net.UpsertFails? then Spec.StoreError
    else if !Refuses(atUpsert, key) then Spec.Granted
    else if net.FindFails? then Spec.StoreError
    else
      var atRead := ApplyAll(atUpsert, between);
      RowsStay(atUpsert, between, key);
      if atRead.rows[key].finished then Spec.AlreadyFinished
      else if t.now < atRead.rows[key].inProgressUntil then Spec.StillInProgress
      else Spec.ClaimFailedUnexpectedly
  }

  function AfterClaim(t: Table, key: Key, ttl: int, before: seq<Command>, between: seq<Command>, net: Network): Table {
    var atUpsert := ApplyAll(t, before);
    if net == UpsertFails(false) then atUpsert
    else if net.UpsertFails? || !Refuses(atUpsert, key) then Apply(atUpsert, ClaimOrExtendIfExpired(key, t.now + ttl))
    else ApplyAll(atUpsert, between)
  }

  // ---------- linearisation of the answers ----------

  /** Every answer but the fallback is true of the block at an instant of the call: a claim
      takes effect at the upsert, StillInProgress is true there, AlreadyFinished at the read.
      An error leaves the row claimed at most if the block was free. */
  lemma ClaimLinearises(t: Table, key: Key, ttl: int, before: seq<Command>, between: seq<Command>, net: Network)
    ensures var atUpsert := ApplyAll(t, before);
            var atRead := ApplyAll(atUpsert, between);
            var after := AfterClaim(t, key, ttl, before, between, net);
            match ClaimAnswer(t, key, before, between, net)
            case Granted =>
              KindIn(atUpsert, key).IsFree? && after.rows == atUpsert.rows[key := Row(t.now + ttl, false)]
            case StillInProgress => KindIn(atUpsert, key).IsClaimed? && after == atRead
            case AlreadyFinished => KindIn(atRead, key).IsDone? && after == atRead
            case ClaimFailedUnexpectedly => KindIn(atUpsert, key).IsClaimed? && after == atRead
            case StoreError =>
              after == atUpsert || after == atRead
              || (KindIn(atUpsert, key).IsFree? && after == Apply(atUpsert, ClaimOrExtendIfExpired(key, t.now + ttl)))
  {
    var atUpsert := ApplyAll(t, before);
    RowsStay(atUpsert, between, key);
  }

  /** Every upsert of the others runs before the deadline it writes, that is, less than its
      ttl after its clock reading. */
  ghost predicate Prompt(t: Table, cs: seq<Command>) {
    forall i :: 0 <= i < |cs| && cs[i].ClaimOrExtendIfExpired? ==> ApplyAll(t, cs[..i]).now < cs[i].until
  }

  lemma {:induction false} DeadlinesRise(t: Table, cs: seq<Command>, key: Key)
    requires Prompt(t, cs) && key in t.rows
    ensures key in ApplyAll(t, cs).rows
    ensures t.rows[key].inProgressUntil <= ApplyAll(t, cs).rows[key].inProgressUntil
  {
    if cs != [] {
      var n := |cs| - 1;
      assert Prompt(t, cs[..n]) by {
        forall i | 0 <= i < n && cs[..n][i].ClaimOrExtendIfExpired?
          ensures ApplyAll(t, cs[..n][..i]).now < cs[..n][i].until
        {
          assert cs[..n][..i] == cs[..i];
        }
      }
      DeadlinesRise(t, cs[..n], key);
    }
  }

  /** The branch the source calls unexpected is taken exactly when the upsert was refused,
      the row is still unfinished at the read, and its deadline is the caller's own clock
      reading; then clock reading and upsert happened at that very instant. */
  lemma FallbackExactly(t: Table, key: Key, before: seq<Command>, between: seq<Command>)
    requires Prompt(ApplyAll(t, before), between)
    ensures var atUpsert := ApplyAll(t, before);
            var atRead := ApplyAll(atUpsert, between);
            && (ClaimAnswer(t, key, before, between, Delivered) == Spec.ClaimFailedUnexpectedly
                <==> Refuses(atUpsert, key) && key in atRead.rows
                     && atRead.rows[key] == Row(t.now, false))
            && (ClaimAnswer(t, key, before, between, Delivered) == Spec.ClaimFailedUnexpectedly
                ==> atUpsert.now == t.now && atUpsert.rows[key] == Row(t.now, false))
  {
    var atUpsert := ApplyAll(t, before);
    RowsStay(t, before, key);
    RowsStay(atUpsert, between, key);
    if key in atUpsert.rows {
      DeadlinesRise(atUpsert, between, key);
    }
  }

  // ---------- all workers on one block ----------

  /** The next command of a worker is its upsert, its read, or it holds the block. A call
      under way keeps the kinds of status the block has had since its clock reading. */
  datatype Pc =
    | Clocked(clock: int, ttl: int, seen: set<Spec.Kind>)
    | Refused(clock: int, seen: set<Spec.Kind>)
    | Holding(until: int)

  datatype System = System(
    table: Table, workers: map<Worker, Pc>,
    grants: seq<Spec.Grant>, replies: seq<Spec.Reply>, finished: seq<Worker>, unmarked: nat)

  datatype Step =
    | Foreign(c: Command)
    | ClockStep(w: Worker, ttl: int)
    | UpsertStep(w: Worker, clock: int, ttl: int)
    | UpsertErr(w: Worker, clock: int, ttl: int, applied: bool)
    | FindStep(w: Worker)
    | FindErr(w: Worker)
    | NotifyErr(w: Worker)
    | MarkStep(w: Worker, applied: bool)

  predicate IsHolding(s: System, w: Worker) {
    w in s.workers && s.workers[w].Holding?
  }

  predicate HasClock(s: System, w: Worker, clock: int, ttl: int) {
    w in s.workers && s.workers[w].Clocked? && s.workers[w].clock == clock && s.workers[w].ttl == ttl
  }

  predicate Enabled(s: System, key: Key, x: Step) {
    match x
    case Foreign(c) => c.Wait? || c.key != key
    case ClockStep(w, _) => w !in s.workers
    case UpsertStep(w, clock, ttl) => HasClock(s, w, clock, ttl)
    case UpsertErr(w, clock, ttl, _) => HasClock(s, w, clock, ttl)
    case FindStep(w) => w in s.workers && s.workers[w].Refused? && key in s.table.rows
    case FindErr(w) => w in s.workers && s.workers[w].Refused?
    case NotifyErr(w) => IsHolding(s, w)
    case MarkStep(w, _) => IsHolding(s, w)
  }

  /** The commands of a step that reach the table. */
  function Commands(key: Key, x: Step): seq<Command> {
    match x
    case Foreign(c) => [c]
    case UpsertStep(_, clock, ttl) => [ClaimOrExtendIfExpired(key, clock + ttl)]
    case UpsertErr(_, clock, ttl, applied) => if applied then [ClaimOrExtendIfExpired(key, clock + ttl)] else []
    case MarkStep(_, applied) => if applied then [MarkClaimAsCompleted(key)] else []
    case _ => []
  }

  function Moved(s: System, key: Key, x: Step): map<Worker, Pc>
    requires Enabled(s, key, x)
  {
    match x
    case Foreign(_) => s.workers
    case ClockStep(w, ttl) => s.workers[w := Clocked(s.table.now, ttl, {})]
    case UpsertStep(w, clock, ttl) =>
      s.workers[w := if Refuses(s.table, key) then Refused(clock, s.workers[w].seen) else Holding(clock + ttl)]
    case UpsertErr(w, _, _, _) => s.workers - {w}
    case FindStep(w) => s.workers - {w}
    case FindErr(w) => s.workers - {w}
    case NotifyErr(w) => s.workers - {w}
    case MarkStep(w, _) => s.workers - {w}
  }

  function Widen(pc: Pc, kinds: set<Spec.Kind>): Pc {
    match pc
    case Clocked(clock, ttl, seen) => Clocked(clock, ttl, seen + kinds)
    case Refused(clock, seen) => Refused(clock, seen + kinds)
    case Holding(_) => pc
  }

  function Seen(workers: map<Worker, Pc>, k: Spec.Kind): map<Worker, Pc> {
    map w | w in workers :: Widen(workers[w], {k})
  }

  function Replies(s: System, key: Key, x: Step): seq<Spec.Reply>
    requires Enabled(s, key, x)
  {
    if !x.FindStep? then []
    else if s.table.rows[key].finished then [Spec.Reply(x.w, Spec.IsDone, s.workers[x.w].seen)]
    else if s.workers[x.w].clock < s.table.rows[key].inProgressUntil
      then [Spec.Reply(x.w, Spec.IsClaimed, s.workers[x.w].seen)]
    else []
  }

  function Grants(s: System, key: Key, x: Step): seq<Spec.Grant>
    requires Enabled(s, key, x)
  {
    if x.UpsertStep? && !Refuses(s.table, key) then [Spec.Grant(x.w, x.clock, x.ttl, s.table.now)] else []
  }

  function Next(s: System, key: Key, x: Step): System
    requires Enabled(s, key, x)
  {
    var table := ApplyAll(s.table, Commands(key, x));
    System(table, Seen(Moved(s, key, x), KindIn(table, key)),
           s.grants + Grants(s, key, x), s.replies + Replies(s, key, x),
           if x.MarkStep? then s.finished + [x.w] else s.finished,
           if x.MarkStep? && !x.applied then s.unmarked + 1 else s.unmarked)
  }

  ghost predicate Runs(s: System, key: Key, xs: seq<Step>, t: System)
    decreases |xs|
  {
    if xs == [] then s == t
    else Enabled(s, key, xs[0]) && Runs(Next(s, key, xs[0]), key, xs[1..], t)
  }

  // ---------- refinement ----------

  function Calls(workers: map<Worker, Pc>): map<Worker, set<Spec.Kind>> {
    map w | w in workers && !workers[w].Holding? :: workers[w].seen
  }

  function Holders(workers: map<Worker, Pc>): map<Worker, Spec.Deadline> {
    map w | w in workers && workers[w].Holding? :: Spec.At(workers[w].until)
  }

  function Abs(s: System, key: Key): Spec.State {
    Spec.State(Spec.PostgresExpiry, s.table.now, GuardOf(s.table, key),
               Calls(s.workers), Holders(s.workers),
               s.grants, s.replies, s.finished, s.unmarked)
  }

  function AbsStep(s: System, key: Key, x: Step): Spec.Step
    requires Enabled(s, key, x)
  {
    match x
    case Foreign(c) => if c.Wait? then Spec.Tick(c.d) else Spec.Stutter
    case ClockStep(w, _) => Spec.Begin(w)
    case UpsertStep(w, clock, ttl) => if Refuses(s.table, key) then Spec.Stutter else Spec.Claim(w, clock, ttl)
    case UpsertErr(w, clock, ttl, applied) =>
      if applied && !Refuses(s.table, key) then Spec.ClaimUnseen(w, clock, ttl) else Spec.Abort(w)
    case FindStep(w) =>
      if s.table.rows[key].finished then Spec.Refuse(w, Spec.IsDone)
      else if s.workers[w].clock < s.table.rows[key].inProgressUntil then Spec.Refuse(w, Spec.IsClaimed)
      else Spec.Abort(w)
    case FindErr(w) => Spec.Abort(w)
    case NotifyErr(w) => Spec.GiveUp(w)
    case MarkStep(w, applied) => if applied then Spec.Mark(w) else Spec.MarkFails(w)
  }

  /** Windows show the present; a refused caller finds a row, and saw it claimed unless it
      is finished; a holder's row exists, so its mark cannot miss. */
  predicate WorkerOk(t: Table, key: Key, pc: Pc) {
    match pc
    case Clocked(clock, _, seen) => KindIn(t, key) in seen && clock <= t.now
    case Refused(_, seen) =>
      KindIn(t, key) in seen && key in t.rows && (t.rows[key].finished || Spec.IsClaimed in seen)
    case Holding(_) => key in t.rows
  }

  predicate Inv(s: System, key: Key) {
    forall w :: w in s.workers ==> WorkerOk(s.table, key, s.workers[w])
  }

  lemma OneCommand(t: Table, c: Command)
    ensures ApplyAll(t, [c]) == Apply(t, c)
  {
    assert [c][..0] == [];
  }

  lemma StepKeepsInv(s: System, key: Key, x: Step)
    requires Enabled(s, key, x) && Inv(s, key)
    ensures Inv(Next(s, key, x), key)
  {
    RowsStay(s.table, Commands(key, x), key);
    if x.UpsertStep? {
      OneCommand(s.table, Commands(key, x)[0]);
    }
    var t := Next(s, key, x);
    forall w | w in t.workers ensures WorkerOk(t.table, key, t.workers[w]) {
      assert w in Moved(s, key, x);
      assert w in s.workers ==> WorkerOk(s.table, key, s.workers[w]);
    }
  }

  lemma StepEnabled(s: System, key: Key, x: Step)
    requires Enabled(s, key, x) && Inv(s, key)
    ensures Spec.Enabled(Abs(s, key), AbsStep(s, key, x)) && !AbsStep(s, key, x).Mislead?
  {
    if !x.Foreign? && x.w in s.workers {
      assert WorkerOk(s.table, key, s.workers[x.w]);
    }
  }

  lemma TableRefines(s: System, key: Key, x: Step)
    requires Enabled(s, key, x) && Inv(s, key) && Spec.Enabled(Abs(s, key), AbsStep(s, key, x))
    ensures var a, b := Abs(Next(s, key, x), key), Spec.Effect(Abs(s, key), AbsStep(s, key, x));
            a.guard == b.guard && a.now == b.now && a.grants == b.grants && a.replies == b.replies
            && a.finished == b.finished && a.unmarked == b.unmarked && a.policy == b.policy
  {
    if Commands(key, x) != [] {
      OneCommand(s.table, Commands(key, x)[0]);
    }
    if !x.Foreign? && x.w in s.workers {
      assert WorkerOk(s.table, key, s.workers[x.w]);
    }
  }

  lemma SeenRefines(workers: map<Worker, Pc>, k: Spec.Kind)
    ensures Calls(Seen(workers, k)) == Spec.Seen(Calls(workers), k)
    ensures Holders(Seen(workers, k)) == Holders(workers)
  {
  }

  lemma RemovedRefines(workers: map<Worker, Pc>, w: Worker)
    requires w in workers
    ensures Calls(workers - {w}) == if workers[w].Holding? then Calls(workers) else Calls(workers) - {w}
    ensures Holders(workers - {w}) == if workers[w].Holding? then Holders(workers) - {w} else Holders(workers)
  {
  }

  lemma PlacedRefines(workers: map<Worker, Pc>, w: Worker, pc: Pc)
    requires w in workers ==> !workers[w].Holding?
    ensures Calls(workers[w := pc]) == if pc.Holding? then Calls(workers) - {w} else Calls(workers)[w := pc.seen]
    ensures Holders(workers[w := pc]) == if pc.Holding? then Holders(workers)[w := Spec.At(pc.until)] else Holders(workers)
  {
  }

  lemma MovesRefine(s: System, key: Key, x: Step)
    requires Enabled(s, key, x) && Inv(s, key) && Spec.Enabled(Abs(s, key), AbsStep(s, key, x))
    ensures Calls(Moved(s, key, x)) == Spec.Effect(Abs(s, key), AbsStep(s, key, x)).calls
    ensures Holders(Moved(s, key, x)) == Spec.Effect(Abs(s, key), AbsStep(s, key, x)).holders
  {
    if !x.Foreign? {
      var moved := Moved(s, key, x);
      if x.w in moved {
        PlacedRefines(s.workers, x.w, moved[x.w]);
        assert x.w in s.workers && !moved[x.w].Holding? ==> Calls(s.workers)[x.w := moved[x.w].seen] == Calls(s.workers);
      } else {
        RemovedRefines(s.workers, x.w);
      }
    }
    hide ApplyAll, GuardOf, Spec.KindOf, Calls, Holders, Spec.Enabled, Inv;
  }

  lemma StepRefines(s: System, key: Key, x: Step)
    requires Enabled(s, key, x) && Inv(s, key)
    ensures Spec.Enabled(Abs(s, key), AbsStep(s, key, x)) && !AbsStep(s, key, x).Mislead?
    ensures Abs(Next(s, key, x), key) == Spec.Next(Abs(s, key), AbsStep(s, key, x))
  {
    StepEnabled(s, key, x);
    TableRefines(s, key, x);
    MovesRefine(s, key, x);
    SeenRefines(Moved(s, key, x), KindIn(Next(s, key, x).table, key));
    hide Calls, Holders, Seen, Moved, Spec.Effect, GuardOf, ApplyAll, Spec.KindOf, Spec.Enabled, AbsStep, Inv, Enabled;
  }

  /** Every interleaving of clock readings, upserts, reads, updates and lost replies is a run
      of the abstract guard with the same answers, none of them misleading. */
  lemma {:induction false} RunRefines(s: System, key: Key, xs: seq<Step>, t: System) returns (ys: seq<Spec.Step>)
    requires Runs(s, key, xs, t) && Inv(s, key)
    ensures Spec.Runs(Abs(s, key), ys, Abs(t, key)) && Spec.Honest(ys) && Inv(t, key)
    decreases |xs|
  {
    if xs == [] {
      ys := [];
    } else {
      StepKeepsInv(s, key, xs[0]);
      StepRefines(s, key, xs[0]);
      var rest := RunRefines(Next(s, key, xs[0]), key, xs[1..], t);
      ys := [AbsStep(s, key, xs[0])] + rest;
      assert ys[1..] == rest;
    }
  }

  predicate Fresh(s: System, key: Key) {
    && key !in s.table.rows && s.workers == map[]
    && s.grants == [] && s.replies == [] && s.finished == [] && s.unmarked == 0
  }

  lemma FreshIsFine(s: System, key: Key)
    requires Fresh(s, key)
    ensures Inv(s, key) && Spec.ApartInv(Abs(s, key)) && Spec.ExclusionInv(Abs(s, key))
  {
    assert Abs(s, key).holders == map[];
  }

  /** No claim succeeds before the clock has passed an earlier one's reading by more than its
      ttl. */
  lemma ClaimsAreATtlApart(s: System, key: Key, xs: seq<Step>, t: System)
    requires Fresh(s, key) && Runs(s, key, xs, t)
    ensures forall i, j :: 0 <= i < j < |t.grants| ==> t.grants[i].clock + t.grants[i].ttl < t.grants[j].at
  {
    hide Runs, Spec.Runs, Spec.ApartInv, Inv, Fresh;
    FreshIsFine(s, key);
    var ys := RunRefines(s, key, xs, t);
    Spec.RunKeepsApart(Abs(s, key), ys, Abs(t, key));
    Spec.PostgresApart(Abs(t, key));
  }

  lemma StepKeepsDone(s: System, key: Key, x: Step)
    requires GuardOf(s.table, key).Done? && Enabled(s, key, x)
    ensures GuardOf(Next(s, key, x).table, key).Done? && Next(s, key, x).grants == s.grants
  {
    RowsStay(s.table, Commands(key, x), key);
  }

  /** Once done, whatever stale holders, late upserts and repeated marks follow, the row
      stays done and no claim succeeds. */
  lemma {:induction false} DoneIsTerminal(s: System, key: Key, xs: seq<Step>, t: System)
    requires GuardOf(s.table, key).Done? && Runs(s, key, xs, t)
    ensures GuardOf(t.table, key).Done? && t.grants == s.grants
    decreases |xs|
  {
    hide GuardOf, Enabled;
    if xs != [] {
      StepKeepsDone(s, key, xs[0]);
      DoneIsTerminal(Next(s, key, xs[0]), key, xs[1..], t);
    }
  }

  /** Over all runs, timely or not, every StillInProgress and every AlreadyFinished was true
      at an instant of its call. */
  lemma AnswersAreTrue(s: System, key: Key, xs: seq<Step>, t: System)
    requires Fresh(s, key) && Runs(s, key, xs, t)
    ensures forall i :: 0 <= i < |t.replies| ==> Spec.Right(t.replies[i])
  {
    FreshIsFine(s, key);
    var ys := RunRefines(s, key, xs, t);
    Spec.HonestRunsAreTruthful(Abs(s, key), ys, Abs(t, key));
  }

  // ---------- holders that keep their deadlines ----------

  predicate Timely(s: System) {
    forall w :: w in s.workers && s.workers[w].Holding? ==> s.table.now < s.workers[w].until
  }

  ghost predicate TimelyRun(s: System, key: Key, xs: seq<Step>, t: System)
    decreases |xs|
  {
    Timely(s)
    && if xs == [] then s == t
       else Enabled(s, key, xs[0]) && TimelyRun(Next(s, key, xs[0]), key, xs[1..], t)
  }

  lemma {:induction false} TimelyRunRefines(s: System, key: Key, xs: seq<Step>, t: System)
    returns (ys: seq<Spec.Step>)
    requires TimelyRun(s, key, xs, t) && Inv(s, key)
    ensures Spec.TimelyRun(Abs(s, key), ys, Abs(t, key))
    decreases |xs|
  {
    assert Spec.Timely(Abs(s, key));
    if xs == [] {
      ys := [];
    } else {
      StepKeepsInv(s, key, xs[0]);
      StepRefines(s, key, xs[0]);
      var rest := TimelyRunRefines(Next(s, key, xs[0]), key, xs[1..], t);
      ys := [AbsStep(s, key, xs[0])] + rest;
      assert ys[1..] == rest;
    }
  }

  /** The same guarantee as with Redis, the deadline counted from the clock reading: one
      holder at a time, shown by the row, and one worker that returns nil if marks succeed. */
  lemma MutualExclusion(s: System, key: Key, xs: seq<Step>, t: System)
    requires Fresh(s, key) && TimelyRun(s, key, xs, t)
    ensures forall v, w :: IsHolding(t, v) && IsHolding(t, w) ==> v == w
    ensures forall w :: IsHolding(t, w) ==>
              GuardOf(t.table, key) == Spec.Claimed(Spec.At(t.workers[w].until)) && KindIn(t.table, key).IsClaimed?
    ensures |t.finished| <= t.unmarked + 1
  {
    FreshIsFine(s, key);
    var ys := TimelyRunRefines(s, key, xs, t);
    Spec.MutualExclusion(Abs(s, key), ys, Abs(t, key));
    forall v, w | IsHolding(t, v) && IsHolding(t, w) ensures v == w {
      assert v in Abs(t, key).holders && w in Abs(t, key).holders;
    }
    forall w | IsHolding(t, w)
      ensures GuardOf(t.table, key) == Spec.Claimed(Spec.At(t.workers[w].until)) && KindIn(t.table, key).IsClaimed?
    {
      assert w in Abs(t, key).holders;
    }
  }

  // ---------- one call of the client is a run of its steps ----------

  predicate MovesWorker(x: Step, w: Worker) {
    !x.Foreign? && x.w == w
  }

  ghost predicate OthersOnly(xs: seq<Step>, w: Worker) {
    forall i :: 0 <= i < |xs| ==> !MovesWorker(xs[i], w)
  }

  /** The commands of some steps that reach the table, in order. */
  function Effects(key: Key, xs: seq<Step>): seq<Command> {
    if xs == [] then [] else Effects(key, xs[..|xs| - 1]) + Commands(key, xs[|xs| - 1])
  }

  /** The kinds of status the block has along some commands. */
  function KindsAlong(t: Table, key: Key, cs: seq<Command>): set<Spec.Kind> {
    (if cs == [] then {} else KindsAlong(t, key, cs[..|cs| - 1])) + {KindIn(ApplyAll(t, cs), key)}
  }

  lemma {:induction false} KindsAlongExactly(t: Table, key: Key, cs: seq<Command>, k: Spec.Kind)
    ensures k in KindsAlong(t, key, cs) <==> exists i :: 0 <= i <= |cs| && KindIn(ApplyAll(t, cs[..i]), key) == k
  {
    assert cs[..|cs|] == cs;
    if cs != [] {
      var n := |cs| - 1;
      KindsAlongExactly(t, key, cs[..n], k);
      assert forall i :: 0 <= i <= n ==> cs[..n][..i] == cs[..i];
    }
  }

  lemma {:induction false} ApplyAllConcat(t: Table, a: seq<Command>, b: seq<Command>)
    ensures ApplyAll(t, a + b) == ApplyAll(ApplyAll(t, a), b)
  {
    if b == [] {
      assert a + b == a;
    } else {
      assert (a + b)[..|a + b| - 1] == a + b[..|b| - 1];
      ApplyAllConcat(t, a, b[..|b| - 1]);
    }
  }

  lemma {:induction false} RunsSplit(s: System, key: Key, a: seq<Step>, b: seq<Step>, u: System) returns (t: System)
    requires Runs(s, key, a + b, u)
    ensures Runs(s, key, a, t) && Runs(t, key, b, u)
    decreases |a|
  {
    hide Next, Enabled;
    if a == [] {
      assert a + b == b;
      t := s;
    } else {
      assert (a + b)[0] == a[0] && (a + b)[1..] == a[1..] + b;
      t := RunsSplit(Next(s, key, a[0]), key, a[1..], b, u);
    }
  }

  lemma {:induction false} Join(s: System, key: Key, a: seq<Step>, t: System, b: seq<Step>, u: System)
    requires Runs(s, key, a, t) && Runs(t, key, b, u)
    ensures Runs(s, key, a + b, u)
    decreases |a|
  {
    hide Next, Enabled;
    if a == [] {
      assert a + b == b;
    } else {
      Join(Next(s, key, a[0]), key, a[1..], t, b, u);
      assert (a + b)[0] == a[0] && (a + b)[1..] == a[1..] + b;
    }
  }

  lemma OneStep(s: System, key: Key, x: Step, u: System)
    ensures Runs(s, key, [x], u) <==> Enabled(s, key, x) && u == Next(s, key, x)
  {
    assert [x][1..] == [];
  }

  lemma OthersKeepPlace(s: System, key: Key, x: Step, w: Worker)
    requires Enabled(s, key, x) && !MovesWorker(x, w) && w in s.workers
    ensures var t := Next(s, key, x);
            && t.table == ApplyAll(s.table, Commands(key, x))
            && w in t.workers && t.workers[w] == Widen(s.workers[w], {KindIn(t.table, key)})
  {
    hide KindIn, ApplyAll;
  }

  lemma KindsOneMore(t: Table, key: Key, cs: seq<Command>, x: Step)
    ensures KindsAlong(t, key, cs + Commands(key, x))
            == KindsAlong(t, key, cs) + {KindIn(ApplyAll(t, cs + Commands(key, x)), key)}
  {
    var c := Commands(key, x);
    if c == [] {
      assert cs + c == cs;
    } else {
      assert |c| == 1 && (cs + c)[..|cs + c| - 1] == cs;
    }
  }

  /** While others run, a call keeps its place, and its window collects what they do to the
      block. */
  lemma {:induction false} WindowCollects(s: System, key: Key, xs: seq<Step>, t: System, w: Worker)
    requires Runs(s, key, xs, t) && OthersOnly(xs, w) && w in s.workers
    requires Widen(s.workers[w], {KindIn(s.table, key)}) == s.workers[w]
    ensures t.table == ApplyAll(s.table, Effects(key, xs))
    ensures w in t.workers && t.workers[w] == Widen(s.workers[w], KindsAlong(s.table, key, Effects(key, xs)))
    decreases |xs|
  {
    if xs == [] {
      assert KindsAlong(s.table, key, []) == {KindIn(s.table, key)};
    } else {
      var n := |xs| - 1;
      var x := xs[n];
      assert xs == xs[..n] + [x];
      var r := RunsSplit(s, key, xs[..n], [x], t);
      OneStep(r, key, x, t);
      WindowCollects(s, key, xs[..n], r, w);
      assert !MovesWorker(x, w);
      OthersKeepPlace(r, key, x, w);
      hide KindIn, KindsAlong, Next, Enabled, Commands, Runs, MovesWorker, ApplyAll;
      var before := Effects(key, xs[..n]);
      assert Effects(key, xs) == before + Commands(key, x);
      ApplyAllConcat(s.table, before, Commands(key, x));
      KindsOneMore(s.table, key, before, x);
      WidenTwice(s.workers[w], KindsAlong(s.table, key, before), {KindIn(t.table, key)});
    }
  }

  lemma WidenTwice(pc: Pc, a: set<Spec.Kind>, b: set<Spec.Kind>)
    ensures Widen(Widen(pc, a), b) == Widen(pc, a + b)
  {
    if !pc.Holding? {
      assert pc.seen + a + b == pc.seen + (a + b);
    }
  }

  lemma {:induction false} KindsStart(t: Table, key: Key, cs: seq<Command>)
    ensures {KindIn(t, key)} + KindsAlong(t, key, cs) == KindsAlong(t, key, cs)
  {
    if cs != [] {
      KindsStart(t, key, cs[..|cs| - 1]);
    }
  }

  function UpsertOf(w: Worker, clock: int, ttl: int, net: Network): Step {
    if net.UpsertFails? then UpsertErr(w, clock, ttl, net.applied) else UpsertStep(w, clock, ttl)
  }

  function FindOf(w: Worker, net: Network): Step {
    if net.FindFails? then FindErr(w) else FindStep(w)
  }

  /** The upsert is answered, and it affects no row. */
  predicate GoesOn(t: Table, key: Key, xs: seq<Step>, net: Network) {
    !net.UpsertFails? && Refuses(ApplyAll(t, Effects(key, xs)), key)
  }

  /** The steps of one call, `xs` being those of others between its clock reading and its
      upsert, `ys` those between the upsert and the read. */
  function ClaimSteps(t: Table, key: Key, w: Worker, ttl: int, xs: seq<Step>, ys: seq<Step>, net: Network): seq<Step> {
    ([ClockStep(w, ttl)] + xs + [UpsertOf(w, t.now, ttl, net)])
    + if GoesOn(t, key, xs, net) then ys + [FindOf(w, net)] else []
  }

  /** The kinds of status the block has from the clock reading to the read. */
  function Window(t: Table, key: Key, before: seq<Command>, between: seq<Command>): set<Spec.Kind> {
    KindsAlong(t, key, before) + KindsAlong(ApplyAll(t, before), key, between)
  }

  /** What the system records of an answer. */
  predicate Recorded(u: System, w: Worker, answer: Spec.Answer, seen: set<Spec.Kind>) {
    match answer
    case Granted => IsHolding(u, w)
    case StillInProgress => w !in u.workers && u.replies != []
                            && u.replies[|u.replies| - 1] == Spec.Reply(w, Spec.IsClaimed, seen)
    case AlreadyFinished => w !in u.workers && u.replies != []
                            && u.replies[|u.replies| - 1] == Spec.Reply(w, Spec.IsDone, seen)
    case StoreError => w !in u.workers
    case ClaimFailedUnexpectedly => w !in u.workers
  }

  /** A call up to and including its upsert. */
  lemma UpsertIsARun(s: System, key: Key, w: Worker, ttl: int, xs: seq<Step>, net: Network, u: System)
    requires w !in s.workers && OthersOnly(xs, w)
    requires Runs(s, key, [ClockStep(w, ttl)] + xs + [UpsertOf(w, s.table.now, ttl, net)], u)
    ensures var atUpsert := ApplyAll(s.table, Effects(key, xs));
            && (GoesOn(s.table, key, xs, net) ==>
                  && u.table == atUpsert
                  && w in u.workers
                  && u.workers[w] == Refused(s.table.now, KindsAlong(s.table, key, Effects(key, xs))))
            && (!GoesOn(s.table, key, xs, net) ==>
                  && u.table == AfterClaim(s.table, key, ttl, Effects(key, xs), [], net)
                  && if net.UpsertFails? then w !in u.workers else IsHolding(u, w))
  {
    var clock, y := s.table.now, UpsertOf(w, s.table.now, ttl, net);
    var t := RunsSplit(s, key, [ClockStep(w, ttl)] + xs, [y], u);
    var c := RunsSplit(s, key, [ClockStep(w, ttl)], xs, t);
    OneStep(s, key, ClockStep(w, ttl), c);
    OneStep(t, key, y, u);
    assert c.table == s.table && c.workers[w] == Clocked(clock, ttl, {KindIn(s.table, key)});
    WindowCollects(c, key, xs, t, w);
    KindsStart(s.table, key, Effects(key, xs));
    UpsertEffect(s.table, key, w, ttl, xs, net, t, u);
  }

  lemma UpsertEffect(t0: Table, key: Key, w: Worker, ttl: int, xs: seq<Step>, net: Network, t: System, u: System)
    requires t.table == ApplyAll(t0, Effects(key, xs)) && w in t.workers
    requires t.workers[w] == Clocked(t0.now, ttl, KindsAlong(t0, key, Effects(key, xs)))
    requires Enabled(t, key, UpsertOf(w, t0.now, ttl, net)) && u == Next(t, key, UpsertOf(w, t0.now, ttl, net))
    ensures GoesOn(t0, key, xs, net) ==>
              u.table == t.table && w in u.workers
              && u.workers[w] == Refused(t0.now, KindsAlong(t0, key, Effects(key, xs)))
    ensures !GoesOn(t0, key, xs, net) ==>
              u.table == AfterClaim(t0, key, ttl, Effects(key, xs), [], net)
              && if net.UpsertFails? then w !in u.workers else IsHolding(u, w)
  {
    var before := Effects(key, xs);
    assert ApplyAll(t.table, []) == t.table;
    OneCommand(t.table, ClaimOrExtendIfExpired(key, t0.now + ttl));
    assert KindIn(ApplyAll(t0, before), key) in KindsAlong(t0, key, before);
    assert KindsAlong(t0, key, before) + {KindIn(t.table, key)} == KindsAlong(t0, key, before);
    hide Effects, KindsAlong, KindIn, ApplyAll;
  }

  /** A call of the client, with `xs` and `ys` in between, is a run of its steps: the
      client's answer and table are those of the system, and the recorded window holds the
      kinds of status the block had during the call. */
  lemma ClaimIsARun(s: System, key: Key, w: Worker, ttl: int, xs: seq<Step>, ys: seq<Step>, net: Network, u: System)
    requires w !in s.workers && OthersOnly(xs, w) && OthersOnly(ys, w)
    requires Runs(s, key, ClaimSteps(s.table, key, w, ttl, xs, ys, net), u)
    ensures u.table == AfterClaim(s.table, key, ttl, Effects(key, xs), Effects(key, ys), net)
    ensures Recorded(u, w, ClaimAnswer(s.table, key, Effects(key, xs), Effects(key, ys), net),
                     Window(s.table, key, Effects(key, xs), Effects(key, ys)))
  {
    hide Runs, Effects, KindsAlong, ApplyAll, KindIn, Next, Enabled, Recorded, OthersOnly;
    var first := [ClockStep(w, ttl)] + xs + [UpsertOf(w, s.table.now, ttl, net)];
    if GoesOn(s.table, key, xs, net) {
      var c := RunsSplit(s, key, first, ys + [FindOf(w, net)], u);
      UpsertIsARun(s, key, w, ttl, xs, net, c);
      var r := RunsSplit(c, key, ys, [FindOf(w, net)], u);
      OneStep(r, key, FindOf(w, net), u);
      KindsEnd(s.table, key, Effects(key, xs));
      WindowCollects(c, key, ys, r, w);
      FindIsARun(s.table, key, w, xs, ys, net, r, u);
    } else {
      assert first + [] == first;
      UpsertIsARun(s, key, w, ttl, xs, net, u);
      EndsAtTheUpsert(s.table, key, w, ttl, xs, ys, net, u);
    }
  }

  lemma EndsAtTheUpsert(t: Table, key: Key, w: Worker, ttl: int, xs: seq<Step>, ys: seq<Step>, net: Network, u: System)
    requires !GoesOn(t, key, xs, net) && if net.UpsertFails? then w !in u.workers else IsHolding(u, w)
    ensures AfterClaim(t, key, ttl, Effects(key, xs), [], net)
            == AfterClaim(t, key, ttl, Effects(key, xs), Effects(key, ys), net)
    ensures Recorded(u, w, ClaimAnswer(t, key, Effects(key, xs), Effects(key, ys), net),
                     Window(t, key, Effects(key, xs), Effects(key, ys)))
  {
    hide Effects, KindsAlong, ApplyAll, KindIn, Window;
  }

  lemma KindsEnd(t: Table, key: Key, cs: seq<Command>)
    ensures KindsAlong(t, key, cs) + {KindIn(ApplyAll(t, cs), key)} == KindsAlong(t, key, cs)
  {
  }

  lemma FindIsARun(t: Table, key: Key, w: Worker, xs: seq<Step>, ys: seq<Step>, net: Network, r: System, u: System)
    requires GoesOn(t, key, xs, net) && w in r.workers
    requires r.table == ApplyAll(ApplyAll(t, Effects(key, xs)), Effects(key, ys))
    requires r.workers[w] == Refused(t.now, Window(t, key, Effects(key, xs), Effects(key, ys)))
    requires Enabled(r, key, FindOf(w, net)) && u == Next(r, key, FindOf(w, net))
    ensures u.table == r.table
    ensures Recorded(u, w, ClaimAnswer(t, key, Effects(key, xs), Effects(key, ys), net),
                     Window(t, key, Effects(key, xs), Effects(key, ys)))
  {
    var seen := Window(t, key, Effects(key, xs), Effects(key, ys));
    hide Effects, Window, ApplyAll, KindIn;
    var clock := t.now;
    FindEffect(r, key, w, clock, seen, net, u);
  }

  /** The read as a step, by what it finds. */
  lemma FindEffect(r: System, key: Key, w: Worker, clock: int, seen: set<Spec.Kind>, net: Network, u: System)
    requires w in r.workers && r.workers[w] == Refused(clock, seen)
    requires Enabled(r, key, FindOf(w, net)) && u == Next(r, key, FindOf(w, net))
    ensures u.table == r.table && w !in u.workers
    ensures !net.FindFails? ==>
              key in r.table.rows
              && u.replies == r.replies
                 + if r.table.rows[key].finished then [Spec.Reply(w, Spec.IsDone, seen)]
                   else if clock < r.table.rows[key].inProgressUntil then [Spec.Reply(w, Spec.IsClaimed, seen)]
                   else []
  {
    hide KindIn;
    assert ApplyAll(r.table, []) == r.table;
  }

  // ---------- holders that overstay ----------

  /** While one worker holds the block, a claim of another makes a second holder exactly if
      the block is free: the holder's deadline has passed and nobody has finished. */
  lemma SecondHolderExactly(s: System, key: Key, v: Worker, w: Worker, ttl: int) returns (u: System)
    requires IsHolding(s, v) && w !in s.workers
    ensures Runs(s, key, ClaimSteps(s.table, key, w, ttl, [], [], Delivered), u)
    ensures IsHolding(u, v) && (IsHolding(u, w) <==> KindIn(s.table, key).IsFree?)
  {
    var x, y, z := ClockStep(w, ttl), UpsertStep(w, s.table.now, ttl), FindStep(w);
    var c := Next(s, key, x);
    assert c.table == s.table && HasClock(c, w, s.table.now, ttl) && IsHolding(c, v);
    var d := Next(c, key, y);
    assert IsHolding(d, v);
    OneStep(s, key, x, c);
    OneStep(c, key, y, d);
    Join(s, key, [x], c, [y], d);
    assert Effects(key, []) == [] && ApplyAll(s.table, []) == s.table;
    assert [x] + [] + [y] == [x] + [y];
    if GoesOn(s.table, key, [], Delivered) {
      OneCommand(c.table, ClaimOrExtendIfExpired(key, s.table.now + ttl));
      assert w in d.workers && d.workers[w].Refused? && d.table == s.table;
      u := Next(d, key, z);
      OneStep(d, key, z, u);
      Join(s, key, [x] + [y], d, [z], u);
      assert [] + [z] == [z];
    } else {
      u := d;
      assert ([x] + [y]) + [] == [x] + [y];
    }
  }

  /** One worker claims and is still at work when its deadline has passed. */
  function Overstays(clock: int, ttl: int, d: nat): seq<Step> {
    [ClockStep(0, ttl)] + [UpsertStep(0, clock, ttl)] + [Foreign(Wait(d))]
  }

  lemma Overstay(s: System, key: Key, ttl: int, d: nat) returns (t: System)
    requires Fresh(s, key) && ttl < d
    ensures Runs(s, key, Overstays(s.table.now, ttl, d), t) && t.workers.Keys == {0} && IsHolding(t, 0)
    ensures KindIn(t.table, key).IsFree?
  {
    var x, y, z := ClockStep(0, ttl), UpsertStep(0, s.table.now, ttl), Foreign(Wait(d));
    var a := Next(s, key, x);
    assert a.table == s.table && a.workers.Keys == {0} && HasClock(a, 0, s.table.now, ttl);
    var b := Next(a, key, y);
    OneCommand(a.table, ClaimOrExtendIfExpired(key, s.table.now + ttl));
    assert b.workers.Keys == {0} && IsHolding(b, 0);
    t := Next(b, key, z);
    OneCommand(b.table, Wait(d));
    assert t.workers.Keys == {0};
    OneStep(s, key, x, a);
    OneStep(a, key, y, b);
    OneStep(b, key, z, t);
    Join(s, key, [x], a, [y], b);
    Join(s, key, [x] + [y], b, [z], t);
  }

  /** So without the promise of timeliness two workers can hold one block, for every ttl. */
  lemma TwoHolders(s: System, key: Key, ttl: int) returns (xs: seq<Step>, u: System)
    requires Fresh(s, key)
    ensures Runs(s, key, xs, u) && IsHolding(u, 0) && IsHolding(u, 1)
  {
    var d := if ttl < 0 then 0 else ttl + 1;
    var t := Overstay(s, key, ttl, d);
    u := SecondHolderExactly(t, key, 0, 1, ttl);
    var a, b := Overstays(s.table.now, ttl, d), ClaimSteps(t.table, key, 1, ttl, [], [], Delivered);
    xs := a + b;
    Join(s, key, a, t, b, u);
  }
}
