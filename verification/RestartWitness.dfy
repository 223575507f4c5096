/**
 The runs that Restart speaks about exist: with either store, up to 255 generations follow
 each other, each saves and forwards one block before it crashes, and the next one goes on
 with the height after it.
 */
module RestartWitness {
  import opened Wrappers
  import opened HexNumbers
  import opened HexOrder
  import opened Chainstream
  import opened Polling
  import opened Checkpoints
  import opened Pipeline
  import opened PipelineSafety
  import opened PipelineTheorems
  import opened Restart

  const NETWORK := "network"
  const TOP := "0xff"

  function Answer(h: Hex): Fetched {
    if ValidHex(h) then Fetched(Block(h, "", []), None) else Fetched(ZERO_BLOCK, Some("not found"))
  }

  /** A node that reports 0xff at every poll and knows every block. */
  function Node(): Poll {
    Poll(Success(TOP), Answer)
  }

  lemma NodeIsGood()
    ensures Usable(Node()) && Faithful(Node()) && Canonical(TOP) && Int(TOP) == 255
  {
    assert TOP[2..] == "ff" && "ff"[1..] == "f" && "f"[1..] == "";
    assert ScanUint("f", 15) == Parsed(255, None);
  }

  /** A single subscription, from height k on. */
  function ConfigFrom(k: int64): Config
    requires Usable(Node())
  {
    Config([NETWORK], [Events(RunEmissions(HexFromInt(k), [Node()]))], None)
  }

  function BlockAt(k: int64): Block {
    Block(HexFromInt(k), "", [])
  }

  function ItemAt(k: int64): Item {
    Item(ObservedBlock(NETWORK, BlockAt(k)), Direct)
  }

  lemma {:induction false} FirstOfEvents(em: seq<Emission>)
    requires em != []
    ensures Events(em) != [] && Events(em)[0] == em[0].event
  {
    if |em| == 1 {
      assert em[..0] == [];
    } else {
      FirstOfEvents(em[..|em| - 1]);
    }
  }

  lemma FirstFetch(k: int64)
    requires 0 <= k < 255
    ensures Usable(Node())
    ensures var em := PollEmissions(HexFromInt(k), Node());
            em != [] && em[0].event == BlockchainEvent(HexFromInt(k), BlockAt(k), None)
  {
    NodeIsGood();
    HexFromIntIsCanonical(k);
    HexFromIntValidExactly(k);
    IntOfHexFromInt(k);
    StallEnds(HexFromInt(k), Node());
    hide Int, HexFromInt, ValidHex, Canonical;
    var em := PollEmissions(HexFromInt(k), Node());
    assert em[0] == FetchEmission(EventAt(Node(), HexFromInt(k), 0));
  }

  lemma FirstEvent(k: int64)
    requires 0 <= k < 255
    ensures Usable(Node())
    ensures var events := ConfigFrom(k).sources[0];
            events != [] && events[0] == BlockchainEvent(HexFromInt(k), BlockAt(k), None)
  {
    FirstFetch(k);
    hide Int, HexFromInt, PollEmissions, Usable;
    var em := PollEmissions(HexFromInt(k), Node());
    FirstOfEvents(em);
    assert [Node()][1..] == [] && em + [] == em;
    assert RunEmissions(HexFromInt(k), [Node()]) == em;
  }

  /** Received and dispatched. */
  lemma QueueOne(c: Config, k: int64) returns (ls: seq<Label>, t: State)
    requires c.names == [NETWORK] && |c.sources| == 1 && c.retry.None?
    requires c.sources[0] != [] && c.sources[0][0] == BlockchainEvent(HexFromInt(k), BlockAt(k), None)
    ensures Shape(c, Init(c)) && Reaches(c, Init(c), ls, t) && Shape(c, t)
    ensures t == Init(c).(taken := [1], preCheckpointCh := [ItemAt(k)])
  {
    var s := Init(c);
    assert Reaches(c, s, [], s);
    hide Reaches, HexFromInt;
    ReachesSnoc(c, s, [], s, Receive(0));
    var u := Next(c, s, Receive(0));
    assert u == s.(taken := [1], hands := [Some(c.sources[0][0])]);
    ReachesSnoc(c, s, [] + [Receive(0)], u, Dispatch(0));
    ls, t := [] + [Receive(0)] + [Dispatch(0)], Next(c, u, Dispatch(0));
    assert t.hands == s.hands;
  }

  /** Saved and forwarded too. */
  lemma SaveOne(c: Config, k: int64) returns (ls: seq<Label>, t: State)
    requires c.names == [NETWORK] && |c.sources| == 1 && c.retry.None?
    requires c.sources[0] != [] && c.sources[0][0] == BlockchainEvent(HexFromInt(k), BlockAt(k), None)
    ensures Shape(c, Init(c)) && Reaches(c, Init(c), ls, t)
    ensures t == Init(c).(taken := [1], finalOut := [ItemAt(k)], saves := [SaveAttempt(ItemAt(k), true)])
  {
    var s;
    ls, s := QueueOne(c, k);
    hide Reaches, HexFromInt;
    ReachesSnoc(c, Init(c), ls, s, CheckpointReceive);
    var u := Next(c, s, CheckpointReceive);
    assert u == s.(checkpointer := Unsaved(ItemAt(k)), preCheckpointCh := []);
    ReachesSnoc(c, Init(c), ls + [CheckpointReceive], u, CheckpointSave(true));
    var v := Next(c, u, CheckpointSave(true));
    assert v == u.(checkpointer := Saved(ItemAt(k)), saves := [SaveAttempt(ItemAt(k), true)]);
    ls := ls + [CheckpointReceive] + [CheckpointSave(true)];
    ReachesSnoc(c, Init(c), ls, v, CheckpointForward);
    ls, t := ls + [CheckpointForward], Next(c, v, CheckpointForward);
  }

  lemma ForwardOne(c: Config, k: int64) returns (t: State)
    requires c.names == [NETWORK] && |c.sources| == 1 && c.retry.None?
    requires c.sources[0] != [] && c.sources[0][0] == BlockchainEvent(HexFromInt(k), BlockAt(k), None)
    ensures Reachable(c, t) && Forwarded(t) == [ItemAt(k)] && t.saves == [SaveAttempt(ItemAt(k), true)]
  {
    hide Reaches, HexFromInt, Next, Enabled;
    var ls;
    ls, t := SaveOne(c, k);
    assert ValidConfig(c);
  }

  /** The store after k generations, and what the node has reported by then. */
  ghost predicate Ready(store: Store, history: seq<Save>, floor: int, k: nat) {
    && HistoryInv(store, NETWORK, history, floor)
    && var hs := SavedFor(history, NETWORK);
       if k == 0 then hs == [] && floor == MIN_INT64
       else k <= 255 && hs != [] && hs[|hs| - 1] == HexFromInt(k - 1) && floor == 255
  }

  /** The k-th generation resumes at height k. */
  lemma StartsAt(store: Store, history: seq<Save>, floor: int, k: nat)
    requires Ready(store, history, floor, k)
    ensures StartHeight(Load(store, history, NETWORK)) == Success(if k == 0 then "" else HexFromInt(k))
  {
    hide Int, Load, IsEmpty, HexFromInt, SavedFor;
    LoadsTheLast(store, NETWORK, history, floor);
    if k > 0 {
      IntOfHexFromInt(k - 1);
    }
  }

  lemma OneGeneration(store: Store, history: seq<Save>, floor: int, k: nat) returns (g: Generation)
    requires Ready(store, history, floor, k) && k < 255
    ensures GoodGeneration(store, NETWORK, history, floor, g)
    ensures |g.first| >= 2 && AllUsable(g.polls) && Reported(StartFloor(g, floor), g.polls) == 255
    ensures Forwarded(g.end) == [ItemAt(k)] && g.end.saves == [SaveAttempt(ItemAt(k), true)]
  {
    hide Int, Load, IsEmpty, HexFromInt, SavedFor, RunEmissions, Reachable, Forwarded, Faithful, ToUpper, Events;
    hide MonotoneNode, Reported, AllUsable, StartHeight, Next, Enabled, Usable, HistoryInv, Node, BlockAt;
    NodeIsGood();
    StartsAt(store, history, floor, k);
    FirstEvent(k);
    var end := ForwardOne(ConfigFrom(k), k);
    g := Generation(ConfigFrom(k), 0, if k == 0 then "" else HexFromInt(k), HexFromInt(0), [Node()], end);
    IntOfHexFromInt(0);
    EmptyIsEmpty();
    HexIsNotEmpty(k);
    assert From(g) == HexFromInt(k);
    NodeRun(StartFloor(g, floor));
    OneSave(end.saves, k);
    assert forall i :: 0 <= i < |g.polls| ==> g.polls[i] == Node();
  }

  lemma OneSave(saves: seq<SaveAttempt>, k: int64)
    requires saves == [SaveAttempt(ItemAt(k), true)]
    ensures AllSaved(saves) && SaveHistory(saves) == [Save(NETWORK, HexFromInt(k))] && Savable(SaveHistory(saves))
  {
    hide HexFromInt;
    assert saves[..0] == [];
  }

  lemma NodeRun(floor: int)
    requires floor <= 255
    ensures AllUsable([Node()]) && MonotoneNode(floor, [Node()]) && Reported(floor, [Node()]) == 255
  {
    NodeIsGood();
    hide Int;
    assert [Node()][1..] == [];
  }

  lemma GoesOn(store: Store, history: seq<Save>, floor: int, k: nat, g: Generation)
    requires Ready(store, history, floor, k) && k < 255
    requires GoodGeneration(store, NETWORK, history, floor, g)
    requires |g.first| >= 2 && AllUsable(g.polls) && Reported(StartFloor(g, floor), g.polls) == 255
    requires g.end.saves == [SaveAttempt(ItemAt(k), true)]
    ensures Savable(history + SaveHistory(g.end.saves))
    ensures Ready(store, history + SaveHistory(g.end.saves), 255, k + 1)
  {
    hide Int, HexFromInt, GoodGeneration, AscendingHex, ToUpper;
    OneSave(g.end.saves, k);
    var one := [Save(NETWORK, HexFromInt(k))];
    assert one[..0] == [] && SavedFor(one, NETWORK) == [HexFromInt(k)];
    SavedForConcat(history, one, NETWORK);
    GenerationKeepsHistory(store, NETWORK, history, floor, g);
  }

  function BlocksFrom(k: nat, n: nat): seq<Block>
    requires k + n <= 255
  {
    seq(n, i requires 0 <= i < n => BlockAt(k + i))
  }

  lemma {:induction false} Generations(store: Store, history: seq<Save>, floor: int, k: nat, n: nat)
    returns (gens: seq<Generation>)
    requires Ready(store, history, floor, k) && k + n <= 255
    ensures |gens| == n && GoodRun(store, NETWORK, history, floor, gens)
    ensures AllForwarded(NETWORK, gens) == BlocksFrom(k, n)
    decreases n
  {
    if n == 0 {
      gens := [];
    } else {
      var g := OneGeneration(store, history, floor, k);
      GoesOn(store, history, floor, k, g);
      var rest := Generations(store, history + SaveHistory(g.end.saves), 255, k + 1, n - 1);
      gens := [g] + rest;
      hide GoodGeneration, Ready, Forwarded, BlockAt, Reported, StartFloor, SaveHistory, Savable, AllUsable;
      assert gens[1..] == rest;
      OneBlock(k);
      BlocksPrepend(k, n);
    }
  }

  lemma OneBlock(k: int64)
    ensures BlocksOn([ItemAt(k)], NETWORK) == [BlockAt(k)]
  {
    assert [ItemAt(k)][..0] == [];
  }

  lemma BlocksPrepend(k: nat, n: nat)
    requires k + n <= 255 && n > 0
    ensures BlocksFrom(k, n) == [BlockAt(k)] + BlocksFrom(k + 1, n - 1)
  {
    hide BlockAt;
  }

  /** From an empty store: n generations forward exactly the heights 0, 1, ..., n - 1. */
  lemma RestartsForward(store: Store, n: nat) returns (gens: seq<Generation>)
    requires n <= 255
    ensures |gens| == n && GoodRun(store, NETWORK, [], MIN_INT64, gens)
    ensures AllForwarded(NETWORK, gens) == BlocksFrom(0, n)
  {
    gens := Generations(store, [], MIN_INT64, 0, n);
  }
}
