/**
 Height polling (pollNewBlocks and Subscribe of internal/infra/blockchain/ethereum/block.go
 and internal/infra/blockchain/solana/block.go, which differ only in how a block is decoded).
 */
module Polling {
  import opened Wrappers
  import opened HexNumbers
  import opened HexOrder
  import opened Chainstream

  /** One answer of the node to a block request: on an error the decoded block may be anything. */
  datatype Fetched = Fetched(block: Block, err: Option<Error>)

  /** What the node answers during one poll. */
  datatype Poll = Poll(latest: Result<Hex, Error>, fetch: Hex -> Fetched)

  /** A reported height has been decoded as a Hex, and is not the largest int64:
      at that height the loop of the source cannot end (LoopCannotEndAtTheTop). */
  predicate Usable(poll: Poll) {
    poll.latest.Success? ==> |poll.latest.value| >= 2 && Int(poll.latest.value) < MAX_INT64
  }

  /** An event together with the statement that sent it. */
  datatype Emission = FetchEmission(event: BlockchainEvent) | LatestFailed(event: BlockchainEvent)

  function Events(em: seq<Emission>): seq<BlockchainEvent> {
    if em == [] then [] else Events(em[..|em| - 1]) + [em[|em| - 1].event]
  }

  // ---------- one poll ----------

  predicate Emits(from: Hex, latest: Hex) {
    Less(from, latest)
  }

  function FetchCount(from: Hex, latest: Hex): nat
    requires |from| >= 2 && |latest| >= 2
  {
    if Int(latest) < Int(from) then 0 else Int(latest) - Int(from) + 1
  }

  /** The k-th height of a poll: the first is the caller's own string. */
  function HeightAt(from: Hex, k: nat): (h: Hex)
    requires |from| >= 2
    requires k > 0 ==> Int(from) + k <= MAX_INT64
    ensures |h| >= 2
  {
    if k == 0 then from else HexFromInt(Int(from) + k)
  }

  lemma HeightAtValue(from: Hex, k: nat)
    requires |from| >= 2 && (k > 0 ==> Int(from) + k <= MAX_INT64)
    ensures Int(HeightAt(from, k)) == Int(from) + k
  {
    if k > 0 {
      IntOfHexFromInt(Int(from) + k);
    }
  }

  function EventAt(poll: Poll, from: Hex, k: nat): BlockchainEvent
    requires |from| >= 2
    requires k > 0 ==> Int(from) + k <= MAX_INT64
  {
    var h := HeightAt(from, k);
    BlockchainEvent(h, poll.fetch(h).block, poll.fetch(h).err)
  }

  function PollEmissions(from: Hex, poll: Poll): seq<Emission>
    requires |from| >= 2 && Usable(poll)
  {
    match poll.latest
    case Failure(e) => [LatestFailed(BlockchainEvent(from, ZERO_BLOCK, Some(e)))]
    case Success(latest) =>
      if !Emits(from, latest) then []
      else seq(FetchCount(from, latest), k requires 0 <= k < FetchCount(from, latest) =>
                FetchEmission(EventAt(poll, from, k)))
  }

  function PollNext(from: Hex, poll: Poll): (next: Hex)
    requires |from| >= 2 && Usable(poll)
    ensures |next| >= 2
  {
    if poll.latest.Success? && Emits(from, poll.latest.value)
    then HexFromInt(Int(poll.latest.value) + 1) else from
  }

  /** The send side of a subscription's channel: everything sent so far. */
  class EventsChannel {
    var sent: seq<BlockchainEvent>

    constructor ()
      ensures sent == []
    {
      sent := [];
    }

    method Send(e: BlockchainEvent)
      modifies this
      ensures sent == old(sent) + [e]
    {
      sent := sent + [e];
    }
  }

  method PollNewBlocks(from: Hex, poll: Poll, eventsCh: EventsChannel) returns (next: Hex)
    requires |from| >= 2 && Usable(poll)
    modifies eventsCh
    ensures eventsCh.sent == old(eventsCh.sent) + Events(PollEmissions(from, poll))
    ensures next == PollNext(from, poll)
  {
    hide Int, HexFromInt, Less, Wrap;
    if poll.latest.Failure? {
      eventsCh.Send(BlockchainEvent(from, ZERO_BLOCK, Some(poll.latest.error)));
      return from;
    }
    var latest := poll.latest.value;
    if !Less(from, latest) {
      return from;
    }
    ghost var em := PollEmissions(from, poll);
    var h := from;
    ghost var k := 0;
    while Int(h) <= Int(latest)
      invariant k <= FetchCount(from, latest) && |h| >= 2
      invariant k > 0 ==> Int(from) + k <= MAX_INT64
      invariant h == HeightAt(from, k)
      invariant eventsCh.sent == old(eventsCh.sent) + Events(em[..k])
      decreases Int(latest) - Int(from) + 1 - k
    {
      HeightAtValue(from, k);
      var fetched := poll.fetch(h);
      eventsCh.Send(BlockchainEvent(h, fetched.block, fetched.err));
      assert em[..k + 1][..k] == em[..k];
      h := Add(h, 1);
      k := k + 1;
    }
    HeightAtValue(from, k);
    assert em[..k] == em;
    next := Add(latest, 1);
  }

  // ---------- a whole subscription ----------

  predicate AllUsable(polls: seq<Poll>) {
    forall i :: 0 <= i < |polls| ==> Usable(polls[i])
  }

  function RunEmissions(from: Hex, polls: seq<Poll>): seq<Emission>
    requires |from| >= 2 && AllUsable(polls)
    decreases |polls|
  {
    if polls == [] then []
    else PollEmissions(from, polls[0]) + RunEmissions(PollNext(from, polls[0]), polls[1..])
  }

  function RunNext(from: Hex, polls: seq<Poll>): (next: Hex)
    requires |from| >= 2 && AllUsable(polls)
    ensures |next| >= 2
    decreases |polls|
  {
    if polls == [] then from else RunNext(PollNext(from, polls[0]), polls[1..])
  }

  lemma {:induction false} RunSnoc(from: Hex, polls: seq<Poll>, p: Poll)
    requires |from| >= 2 && AllUsable(polls) && Usable(p)
    ensures AllUsable(polls + [p])
    ensures RunEmissions(from, polls + [p]) == RunEmissions(from, polls) + PollEmissions(RunNext(from, polls), p)
    ensures RunNext(from, polls + [p]) == PollNext(RunNext(from, polls), p)
    decreases |polls|
  {
    if polls == [] {
      assert polls + [p] == [p];
    } else {
      assert (polls + [p])[1..] == polls[1..] + [p];
      RunSnoc(PollNext(from, polls[0]), polls[1..], p);
    }
  }

  /** The goroutine of Subscribe up to the poll after which its context is cancelled.
      `first` is the latest height asked for when no start height is given. */
  method Subscribe(start: Hex, first: Result<Hex, Error>, polls: seq<Poll>, eventsCh: EventsChannel)
    returns (r: Result<Hex, Error>)
    requires !IsEmpty(start) ==> |start| >= 2
    requires first.Success? ==> |first.value| >= 2
    requires AllUsable(polls)
    modifies eventsCh
    ensures IsEmpty(start) && first.Failure? ==>
              r == Failure(first.error) && eventsCh.sent == old(eventsCh.sent)
    ensures !(IsEmpty(start) && first.Failure?) ==>
              var from := if IsEmpty(start) then first.value else start;
              && r == Success(RunNext(from, polls))
              && eventsCh.sent == old(eventsCh.sent) + Events(RunEmissions(from, polls))
  {
    hide Int, PollEmissions, PollNext, RunEmissions, RunNext, Events, Usable, IsEmpty;
    var fromHeight := start;
    if IsEmpty(fromHeight) {
      if first.Failure? {
        return Failure(first.error);
      }
      fromHeight := first.value;
    }
    ghost var from := fromHeight;
    EmptyRun(from);
    for i := 0 to |polls|
      invariant |fromHeight| >= 2 && AllUsable(polls[..i])
      invariant fromHeight == RunNext(from, polls[..i])
      invariant eventsCh.sent == old(eventsCh.sent) + Events(RunEmissions(from, polls[..i]))
    {
      RunSnoc(from, polls[..i], polls[i]);
      assert polls[..i + 1] == polls[..i] + [polls[i]];
      EventsConcat(RunEmissions(from, polls[..i]), PollEmissions(fromHeight, polls[i]));
      fromHeight := PollNewBlocks(fromHeight, polls[i], eventsCh);
    }
    assert polls[..|polls|] == polls;
    r := Success(fromHeight);
  }

  lemma EmptyRun(from: Hex)
    requires |from| >= 2
    ensures RunNext(from, []) == from && Events(RunEmissions(from, [])) == []
  {
  }

  lemma {:induction false} EventsConcat(a: seq<Emission>, b: seq<Emission>)
    ensures Events(a + b) == Events(a) + Events(b)
  {
    if b == [] {
      assert a + b == a;
    } else {
      assert (a + b)[..|a + b| - 1] == a + b[..|b| - 1];
      EventsConcat(a, b[..|b| - 1]);
    }
  }

  // ---------- contiguity ----------

  /** The node never reports less than it has reported before; `floor` is the most so far. */
  predicate MonotoneNode(floor: int, polls: seq<Poll>)
    requires AllUsable(polls)
    decreases |polls|
  {
    polls == []
    || match polls[0].latest
       case Failure(_) => MonotoneNode(floor, polls[1..])
       case Success(l) => floor <= Int(l) && MonotoneNode(Int(l), polls[1..])
  }

  /** The most the node has reported after these polls. */
  function Reported(floor: int, polls: seq<Poll>): int
    requires AllUsable(polls)
    decreases |polls|
  {
    if polls == [] then floor
    else Reported(if polls[0].latest.Success? then Int(polls[0].latest.value) else floor, polls[1..])
  }

  function Fetches(em: seq<Emission>): nat {
    if em == [] then 0 else Fetches(em[..|em| - 1]) + if em[|em| - 1].FetchEmission? then 1 else 0
  }

  lemma {:induction false} FetchesConcat(a: seq<Emission>, b: seq<Emission>)
    ensures Fetches(a + b) == Fetches(a) + Fetches(b)
  {
    if b == [] {
      assert a + b == a;
    } else {
      assert (a + b)[..|a + b| - 1] == a + b[..|b| - 1];
      FetchesConcat(a, b[..|b| - 1]);
    }
  }

  lemma {:induction false} AllFetches(em: seq<Emission>)
    requires forall i :: 0 <= i < |em| ==> em[i].FetchEmission?
    ensures Fetches(em) == |em|
  {
    if em != [] {
      AllFetches(em[..|em| - 1]);
    }
  }

  /** The heights of a stretch of emissions that begins with the number `at`: each
      emission carries `at` plus the number of fetches before it, so the fetches count
      up by one and a failed latest-height call repeats the height that is due next. */
  ghost predicate Contiguous(at: int, em: seq<Emission>) {
    forall k :: 0 <= k < |em| ==>
      |em[k].event.height| >= 2 && Int(em[k].event.height) == at + Fetches(em[..k])
  }

  lemma ContiguousConcat(at: int, a: seq<Emission>, b: seq<Emission>)
    requires Contiguous(at, a) && Contiguous(at + Fetches(a), b)
    ensures Contiguous(at, a + b)
  {
    forall k | 0 <= k < |a + b|
      ensures |(a + b)[k].event.height| >= 2 && Int((a + b)[k].event.height) == at + Fetches((a + b)[..k])
    {
      if k < |a| {
        assert (a + b)[..k] == a[..k];
      } else {
        assert (a + b)[..k] == a + b[..k - |a|];
        FetchesConcat(a, b[..k - |a|]);
      }
    }
  }

  lemma BlockOfFetches(from: Hex, em: seq<Emission>)
    requires |from| >= 2
    requires forall k :: 0 <= k < |em| ==>
               em[k].FetchEmission? && |em[k].event.height| >= 2 && Int(em[k].event.height) == Int(from) + k
    ensures Contiguous(Int(from), em) && Fetches(em) == |em|
  {
    hide Int;
    forall k | 0 <= k < |em| ensures Fetches(em[..k]) == k {
      AllFetches(em[..k]);
    }
    AllFetches(em);
  }

  /** One poll of a node that is at most one block behind the height asked for. */
  lemma PollContiguity(from: Hex, poll: Poll)
    requires |from| >= 2 && Usable(poll)
    requires poll.latest.Success? ==> Int(from) <= Int(poll.latest.value) + 1
    ensures Contiguous(Int(from), PollEmissions(from, poll))
    ensures Int(PollNext(from, poll)) == Int(from) + Fetches(PollEmissions(from, poll))
  {
    hide Int, Less, HexFromInt;
    var em := PollEmissions(from, poll);
    if poll.latest.Success? && Emits(from, poll.latest.value) {
      hide Contiguous, Fetches;
      forall k | 0 <= k < |em|
        ensures em[k].FetchEmission? && |em[k].event.height| >= 2 && Int(em[k].event.height) == Int(from) + k
      {
        HeightAtValue(from, k);
      }
      BlockOfFetches(from, em);
      IntOfHexFromInt(Int(poll.latest.value) + 1);
    } else if poll.latest.Failure? {
      assert em[..0] == [];
    }
  }

  /** Over a whole run of polls, whatever string order does to single polls, the fetches
      carry start, start + 1, start + 2, ... without gap or repetition, the next height is
      the start plus the number of fetches, and nothing beyond the node's report is asked. */
  lemma {:induction false} RunContiguity(from: Hex, floor: int, polls: seq<Poll>)
    requires |from| >= 2 && AllUsable(polls) && MonotoneNode(floor, polls)
    requires Int(from) <= floor + 1
    ensures Contiguous(Int(from), RunEmissions(from, polls))
    ensures Int(RunNext(from, polls)) == Int(from) + Fetches(RunEmissions(from, polls))
    ensures Int(RunNext(from, polls)) <= Reported(floor, polls) + 1
    ensures floor <= Reported(floor, polls)
    decreases |polls|
  {
    hide Int, Less, HexFromInt, PollEmissions;
    assert RunEmissions(from, []) == [] && Contiguous(Int(from), []);
    if polls != [] {
      var p := polls[0];
      var top := if p.latest.Success? then Int(p.latest.value) else floor;
      PollContiguity(from, p);
      if p.latest.Success? {
        IntOfHexFromInt(Int(p.latest.value) + 1);
      }
      var next := PollNext(from, p);
      RunContiguity(next, top, polls[1..]);
      var a, b := PollEmissions(from, p), RunEmissions(next, polls[1..]);
      ContiguousConcat(Int(from), a, b);
      FetchesConcat(a, b);
    }
  }

  // ---------- what the events tell ----------

  /** A fetch is told with the block and the error the node gave for that height, a failed
      latest-height call with that error and no block. */
  ghost predicate Tells(m: Emission, poll: Poll) {
    match m
    case FetchEmission(e) =>
      && poll.latest.Success?
      && e.block == poll.fetch(e.height).block && e.err == poll.fetch(e.height).err
    case LatestFailed(e) =>
      poll.latest.Failure? && e.block == ZERO_BLOCK && e.err == Some(poll.latest.error)
  }

  lemma PollTellsTheNode(from: Hex, poll: Poll)
    requires |from| >= 2 && Usable(poll)
    ensures forall k :: 0 <= k < |PollEmissions(from, poll)| ==> Tells(PollEmissions(from, poll)[k], poll)
    ensures poll.latest.Failure? ==> |PollEmissions(from, poll)| == 1
  {
    hide Int, HexFromInt, Less;
  }

  /** `turns` gives the poll of each event: in order, and a failed poll has exactly one. */
  ghost predicate ToldBy(em: seq<Emission>, polls: seq<Poll>, turns: seq<nat>) {
    && |turns| == |em|
    && (forall k :: 0 <= k < |em| ==> turns[k] < |polls| && Tells(em[k], polls[turns[k]]))
    && (forall j, k :: 0 <= j < k < |em| ==> turns[j] <= turns[k])
    && (forall i :: 0 <= i < |polls| && polls[i].latest.Failure? ==> i in turns)
    && (forall j, k :: 0 <= j < k < |em| && turns[j] == turns[k] ==> polls[turns[k]].latest.Success?)
  }

  /** Over any run of polls every event tells what the node answered. */
  lemma {:induction false} RunTellsTheNode(from: Hex, polls: seq<Poll>) returns (turns: seq<nat>)
    requires |from| >= 2 && AllUsable(polls)
    ensures ToldBy(RunEmissions(from, polls), polls, turns)
    decreases |polls|
  {
    if polls == [] {
      turns := [];
    } else {
      var n := |polls| - 1;
      assert polls == polls[..n] + [polls[n]];
      RunSnoc(from, polls[..n], polls[n]);
      var before := RunTellsTheNode(from, polls[..n]);
      var h := RunNext(from, polls[..n]);
      PollTellsTheNode(h, polls[n]);
      turns := before + seq(|PollEmissions(h, polls[n])|, _ => n);
      ToldByOneMore(RunEmissions(from, polls[..n]), PollEmissions(h, polls[n]), polls, before, turns);
    }
  }

  lemma ToldByOneMore(a: seq<Emission>, b: seq<Emission>, polls: seq<Poll>, before: seq<nat>, turns: seq<nat>)
    requires polls != [] && ToldBy(a, polls[..|polls| - 1], before)
    requires forall k :: 0 <= k < |b| ==> Tells(b[k], polls[|polls| - 1])
    requires polls[|polls| - 1].latest.Failure? ==> |b| == 1
    requires turns == before + seq(|b|, _ => |polls| - 1)
    ensures ToldBy(a + b, polls, turns)
  {
    hide Tells;
    var n := |polls| - 1;
    forall i | 0 <= i < |polls| && polls[i].latest.Failure? ensures i in turns {
      if i < n {
        assert polls[..n][i] == polls[i];
      } else {
        assert turns[|before|] == n;
      }
    }
  }

  // ---------- what the string comparison does ----------

  lemma CanonicalInt(h: Hex)
    requires Canonical(h) && Int(h) < MAX_INT64
    ensures AllHexDigits(h[2..]) && Int(h) == Value(h[2..])
  {
    CanonicalDigits(h);
    IntOfDigits(h);
  }

  /** A poll that is numerically behind the node emits nothing exactly when the node's
      height has more digits and its leading digits write a smaller number; otherwise it
      emits every height up to the node's. */
  lemma StallsExactly(from: Hex, poll: Poll)
    requires Usable(poll) && poll.latest.Success?
    requires Canonical(from) && Canonical(poll.latest.value)
    requires Int(from) < Int(poll.latest.value)
    ensures AllHexDigits(poll.latest.value[2..])
    ensures |from| <= |poll.latest.value|
    ensures PollEmissions(from, poll) == []
            <==> |from| < |poll.latest.value| && Leading(poll.latest.value, |from| - 2) < Int(from)
    ensures PollEmissions(from, poll) != []
            ==> |PollEmissions(from, poll)| == Int(poll.latest.value) - Int(from) + 1
    ensures PollEmissions(from, poll) == [] ==> PollNext(from, poll) == from
  {
    CanonicalInt(from);
    CanonicalInt(poll.latest.value);
    SmallerIsNotLonger(from, poll.latest.value);
    LessOnCanonical(from, poll.latest.value);
  }

  /** A poll that has caught up emits nothing and stays where it is or was. */
  lemma CaughtUpIsQuiet(from: Hex, poll: Poll)
    requires |from| >= 2 && Usable(poll) && poll.latest.Success?
    requires Canonical(from) && Canonical(poll.latest.value)
    requires Int(poll.latest.value) <= Int(from) <= Int(poll.latest.value) + 1
    ensures PollEmissions(from, poll) == []
    ensures Int(PollNext(from, poll)) == Int(from)
  {
    if Emits(from, poll.latest.value) && Int(from) == Int(poll.latest.value) {
      CanonicalInt(from);
      CanonicalInt(poll.latest.value);
      SmallerIsNotLonger(from, poll.latest.value);
      SmallerIsNotLonger(poll.latest.value, from);
      LessOnCanonical(from, poll.latest.value);
      assert false;
    }
    IntOfHexFromInt(Int(poll.latest.value) + 1);
  }

  /** Every height the node reports is canonical. */
  predicate CanonicalNode(polls: seq<Poll>) {
    forall i :: 0 <= i < |polls| && polls[i].latest.Success? ==> Canonical(polls[i].latest.value)
  }

  lemma PollStaysCanonical(from: Hex, poll: Poll)
    requires Usable(poll) && Canonical(from) && (poll.latest.Success? ==> Canonical(poll.latest.value))
    ensures Canonical(PollNext(from, poll))
    ensures forall k :: 0 <= k < |PollEmissions(from, poll)| ==> Canonical(PollEmissions(from, poll)[k].event.height)
  {
    hide Int, Less, HexFromInt;
    if poll.latest.Success? && Emits(from, poll.latest.value) {
      var latest := poll.latest.value;
      CanonicalInt(latest);
      HexFromIntIsCanonical(Int(latest) + 1);
      if Int(from) <= Int(latest) {
        CanonicalInt(from);
        forall k: nat | 0 < k < FetchCount(from, latest) ensures Canonical(HeightAt(from, k)) {
          HexFromIntIsCanonical(Int(from) + k);
        }
      }
    }
  }

  /** A subscription that starts at a canonical height asks for canonical heights only,
      though after its first height it prints them itself. */
  lemma {:induction false} RunStaysCanonical(from: Hex, polls: seq<Poll>)
    requires AllUsable(polls) && Canonical(from) && CanonicalNode(polls)
    ensures Canonical(RunNext(from, polls))
    ensures forall k :: 0 <= k < |RunEmissions(from, polls)| ==> Canonical(RunEmissions(from, polls)[k].event.height)
    decreases |polls|
  {
    hide PollEmissions, PollNext;
    if polls != [] {
      PollStaysCanonical(from, polls[0]);
      RunStaysCanonical(PollNext(from, polls[0]), polls[1..]);
    }
  }

  lemma {:induction false} MonotoneUpTo(floor: int, polls: seq<Poll>, i: nat)
    requires AllUsable(polls) && MonotoneNode(floor, polls) && i < |polls|
    ensures AllUsable(polls[..i]) && MonotoneNode(floor, polls[..i])
    ensures polls[i].latest.Success? ==> Reported(floor, polls[..i]) <= Int(polls[i].latest.value)
    decreases |polls|
  {
    hide Int;
    if i > 0 {
      MonotoneUpTo(if polls[0].latest.Success? then Int(polls[0].latest.value) else floor, polls[1..], i - 1);
      assert polls[..i][0] == polls[0] && polls[..i][1..] == polls[1..][..i - 1];
    }
  }

  /** At every poll of a run, nothing is emitted exactly if the subscription has caught up
      or the node's height has more digits and smaller leading ones. */
  lemma QuietPollsExactly(from: Hex, floor: int, polls: seq<Poll>, i: nat)
    requires AllUsable(polls) && MonotoneNode(floor, polls) && Canonical(from) && CanonicalNode(polls)
    requires Int(from) <= floor + 1 && i < |polls| && polls[i].latest.Success?
    ensures AllUsable(polls[..i])
    ensures var h, l := RunNext(from, polls[..i]), polls[i].latest.value;
            && Canonical(h) && AllHexDigits(l[2..])
            && (PollEmissions(h, polls[i]) == []
                <==> Int(l) <= Int(h) || (|h| < |l| && Leading(l, |h| - 2) < Int(h)))
  {
    hide Int, Less, PollEmissions, RunEmissions, RunNext, MonotoneNode, Reported, Contiguous;
    MonotoneUpTo(floor, polls, i);
    RunContiguity(from, floor, polls[..i]);
    RunStaysCanonical(from, polls[..i]);
    var h, l := RunNext(from, polls[..i]), polls[i].latest.value;
    CanonicalInt(l);
    if Int(l) <= Int(h) {
      CaughtUpIsQuiet(h, polls[i]);
    } else {
      StallsExactly(h, polls[i]);
    }
  }

  /** A stall ends with a poll that sees a height of all f's: it catches up in full from any
      lower height. */
  lemma StallEnds(from: Hex, poll: Poll)
    requires Usable(poll) && poll.latest.Success?
    requires Canonical(from) && Canonical(poll.latest.value)
    requires Int(from) < Int(poll.latest.value)
    requires forall i :: 2 <= i < |poll.latest.value| ==> poll.latest.value[i] == 'f'
    ensures |PollEmissions(from, poll)| == Int(poll.latest.value) - Int(from) + 1
  {
    var latest := poll.latest.value;
    StallsExactly(from, poll);
    CanonicalInt(from);
    AllFIsLargest(from[2..], latest[2..][..|from| - 2]);
    assert latest[2..][..|from| - 2] == latest[2..|from|];
  }

  /** The numeric test the comment in the source describes would emit here; string order does not. */
  lemma StallWitness(fetch: Hex -> Fetched)
    ensures var p := Poll(Success("0x100"), fetch);
            Usable(p) && Int("0xff") == 255 && Int("0x100") == 256 && PollEmissions("0xff", p) == []
  {
    assert "0xff"[2..] == "ff" && "0x100"[2..] == "100";
    assert "ff"[1..] == "f" && "f"[1..] == "" && "100"[1..] == "00" && "00"[1..] == "0" && "0"[1..] == "";
    assert ScanUint("f", 15) == Parsed(255, None) && ScanUint("0", 16) == Parsed(256, None);
    assert ScanUint("00", 1) == Parsed(256, None);
    PrefixLess("0x", "ff", "100");
    assert "0x" + "ff" == "0xff" && "0x" + "100" == "0x100";
  }

  /** A single poll moves the next height backwards exactly when string order lets it past
      a node that is two or more blocks behind; in digits, when the node's height has fewer
      of them and writes a number above as many leading digits of the caller's. A monotone
      node never is that far behind (RunContiguity). */
  lemma RewindsExactly(from: Hex, poll: Poll)
    requires |from| >= 2 && Usable(poll)
    ensures Int(PollNext(from, poll)) < Int(from)
            <==> poll.latest.Success? && Less(from, poll.latest.value) && Int(poll.latest.value) + 1 < Int(from)
    ensures poll.latest.Success? && Canonical(from) && Canonical(poll.latest.value)
            && Int(poll.latest.value) + 1 < Int(from) < MAX_INT64 ==>
              && AllHexDigits(from[2..])
              && (Int(PollNext(from, poll)) < Int(from)
                  <==> |poll.latest.value| < |from|
                       && Leading(from, |poll.latest.value| - 2) < Int(poll.latest.value))
  {
    if poll.latest.Success? {
      var latest := poll.latest.value;
      IntOfHexFromInt(Int(latest) + 1);
      if Canonical(from) && Canonical(latest) && Int(latest) + 1 < Int(from) < MAX_INT64 {
        CanonicalInt(from);
        CanonicalInt(latest);
        SmallerIsNotLonger(latest, from);
        LessOnCanonical(from, latest);
      }
    }
  }

  /** At the largest int64 the loop guard holds at every height, and Add wraps to the
      smallest one: the loop of the source ends exactly because the latest height is lower. */
  lemma LoopCannotEndAtTheTop(h: Hex, latest: Hex)
    requires |h| >= 2 && |latest| >= 2 && Int(latest) == MAX_INT64
    ensures Int(h) <= Int(latest) && Int(Add(h, 1)) <= Int(latest)
    ensures Int(h) == Int(latest) ==> Int(Add(h, 1)) == MIN_INT64
  {
    IntOfAdd(h, 1);
  }
}
