/**
 Checkpointing across crashes and restarts: the polling, the pipeline and the two stores
 together. A generation is one run of the service with retry off, cut off by a crash in an
 arbitrary reachable state; the next one resumes at the stored checkpoint plus one.
 */
module Restart {
  import opened Wrappers
  import opened HexNumbers
  import opened Chainstream
  import opened Polling
  import opened Checkpoints
  import opened Pipeline
  import opened PipelineSafety
  import opened PipelineTheorems

  // ---------- heights ----------

  function HeightOf(b: Block): int {
    if |b.height| >= 2 then Int(b.height) else 0
  }

  predicate Ascending(bs: seq<Block>) {
    forall i, j :: 0 <= i < j < |bs| ==> HeightOf(bs[i]) < HeightOf(bs[j])
  }

  predicate Within(bs: seq<Block>, lo: int, hi: int) {
    forall i :: 0 <= i < |bs| ==> lo <= HeightOf(bs[i]) <= hi
  }

  predicate ValidHeights(bs: seq<Block>) {
    forall i :: 0 <= i < |bs| ==> ValidHex(bs[i].height)
  }

  /** A block that arrives without an error has a valid height: the one asked for. */
  ghost predicate Faithful(poll: Poll) {
    forall h: Hex :: |h| >= 2 && poll.fetch(h).err.None? ==>
      ValidHex(poll.fetch(h).block.height) && Int(poll.fetch(h).block.height) == Int(h)
  }

  predicate FaithfulEmission(m: Emission) {
    m.event.err.None? ==>
      && m.FetchEmission? && |m.event.height| >= 2
      && |m.event.block.height| >= 2
      && ValidHex(m.event.block.height) && Int(m.event.block.height) == Int(m.event.height)
  }

  lemma {:induction false} RunIsFaithful(from: Hex, polls: seq<Poll>)
    requires |from| >= 2 && AllUsable(polls)
    requires forall i :: 0 <= i < |polls| ==> Faithful(polls[i])
    ensures forall k :: 0 <= k < |RunEmissions(from, polls)| ==> FaithfulEmission(RunEmissions(from, polls)[k])
    decreases |polls|
  {
    hide Int, ParseUint;
    if polls != [] {
      RunIsFaithful(PollNext(from, polls[0]), polls[1..]);
      var em := PollEmissions(from, polls[0]);
      forall k | 0 <= k < |em| ensures FaithfulEmission(em[k]) {
      }
    }
  }

  lemma {:induction false} EventsLength(em: seq<Emission>)
    ensures |Events(em)| == |em|
  {
    if em != [] {
      EventsLength(em[..|em| - 1]);
    }
  }

  lemma ContiguousPrefix(at: int, em: seq<Emission>)
    requires Contiguous(at, em) && em != []
    ensures Contiguous(at, em[..|em| - 1])
    ensures var last := em[|em| - 1].event.height;
            |last| >= 2 && Int(last) == at + Fetches(em[..|em| - 1])
  {
    hide Int;
    var rest := em[..|em| - 1];
    forall k | 0 <= k < |rest|
      ensures |rest[k].event.height| >= 2 && Int(rest[k].event.height) == at + Fetches(rest[..k])
    {
      assert rest[..k] == em[..k];
    }
  }

  lemma OneMore(bs: seq<Block>, b: Block, lo: int, hi: int)
    requires Ascending(bs) && ValidHeights(bs) && Within(bs, lo, hi - 1)
    requires ValidHex(b.height) && HeightOf(b) == hi >= lo
    ensures Ascending(bs + [b]) && ValidHeights(bs + [b]) && Within(bs + [b], lo, hi)
  {
    hide HeightOf, ValidHex;
  }

  /** A contiguous stretch of faithful emissions delivers blocks of ascending heights. */
  lemma {:induction false} SuccessesAscend(at: int, em: seq<Emission>)
    requires Contiguous(at, em)
    requires forall k :: 0 <= k < |em| ==> FaithfulEmission(em[k])
    ensures Ascending(Successes(Events(em))) && ValidHeights(Successes(Events(em)))
    ensures Within(Successes(Events(em)), at, at + Fetches(em) - 1)
  {
    hide Int, ValidHex, Ascending, ValidHeights, Within, Contiguous;
    if em == [] {
      NothingAscends(at);
    } else {
      var n := |em| - 1;
      ContiguousPrefix(at, em);
      SuccessesAscend(at, em[..n]);
      EventsLength(em[..n]);
      var rest := Successes(Events(em[..n]));
      assert Events(em)[..n] == Events(em[..n]);
      assert FaithfulEmission(em[n]);
      if em[n].event.err.None? {
        OneMore(rest, em[n].event.block, at, at + Fetches(em[..n]));
        assert Successes(Events(em)) == rest + [em[n].event.block];
      } else {
        assert Successes(Events(em)) == rest + [];
        assert rest + [] == rest;
        WithinMore(rest, at, at + Fetches(em[..n]) - 1, at + Fetches(em) - 1);
      }
    }
  }

  lemma WithinMore(bs: seq<Block>, lo: int, hi: int, more: int)
    requires Within(bs, lo, hi) && hi <= more
    ensures Within(bs, lo, more)
  {
  }

  lemma NothingAscends(at: int)
    ensures Ascending([]) && ValidHeights([]) && Within([], at, at - 1)
  {
  }

  // ---------- saves of the pipeline as a store history ----------

  function SaveHistory(saves: seq<SaveAttempt>): seq<Save> {
    if saves == [] then []
    else
      var x := saves[|saves| - 1];
      SaveHistory(saves[..|saves| - 1])
      + if x.ok then [Save(x.item.block.network, x.item.block.block.height)] else []
  }

  predicate AllSaved(saves: seq<SaveAttempt>) {
    forall i :: 0 <= i < |saves| ==> saves[i].ok
  }

  function HexHeights(bs: seq<Block>): seq<Hex> {
    seq(|bs|, i requires 0 <= i < |bs| => bs[i].height)
  }

  lemma {:induction false} SavedForNetwork(saves: seq<SaveAttempt>, network: string)
    requires AllSaved(saves)
    ensures SavedFor(SaveHistory(saves), network) == HexHeights(BlocksOn(SavedItems(saves), network))
  {
    if saves != [] {
      var n := |saves| - 1;
      SavedForNetwork(saves[..n], network);
      assert SavedItems(saves)[..|SavedItems(saves)| - 1] == SavedItems(saves[..n]);
      var h := SaveHistory(saves);
      assert h[..|h| - 1] == SaveHistory(saves[..n]);
    }
  }

  lemma {:induction false} SavedForConcat(a: seq<Save>, b: seq<Save>, network: string)
    ensures SavedFor(a + b, network) == SavedFor(a, network) + SavedFor(b, network)
  {
    if b == [] {
      assert a + b == a;
    } else {
      assert (a + b)[..|a + b| - 1] == a + b[..|b| - 1];
      SavedForConcat(a, b[..|b| - 1], network);
    }
  }

  // ---------- resuming ----------

  datatype Store = RedisStore | PostgresStore

  function Load(store: Store, history: seq<Save>, network: string): (r: Result<Hex, LoadError>)
    requires Savable(history)
    ensures r.Success? ==> |r.value| >= 2
  {
    match store
    case RedisStore => RedisLoad(RedisAfter(history), network)
    case PostgresStore => PgLoad(PgAfter(history), network)
  }

  /** The height launchAllNetworkSubscriptions subscribes from; empty without a checkpoint. */
  function StartHeight(load: Result<Hex, LoadError>): Result<Hex, LoadError>
    requires load.Success? ==> IsEmpty(load.value) || |load.value| >= 2
  {
    match load
    case Failure(e) => if e == NoCheckpointFound then Success("") else load
    case Success(h) => Success(if IsEmpty(h) then h else Add(h, 1))
  }

  /** A launch resumes one above a checkpoint, modulo 2^64, at the latest height without
      one, and not at all after any other error. */
  lemma StartHeightExactly(load: Result<Hex, LoadError>, h: Hex)
    requires load.Success? ==> IsEmpty(load.value) || |load.value| >= 2
    ensures StartHeight(load) == Success(h) <==>
            || (load == Failure(NoCheckpointFound) && h == "")
            || (load.Success? && IsEmpty(load.value) && h == load.value)
            || (load.Success? && !IsEmpty(load.value) && h == HexFromInt(Wrap(Int(load.value) + 1)))
    ensures StartHeight(load).Failure? <==> load.Failure? && load.error != NoCheckpointFound
  {
  }

  /** The loop over the registered networks. `load` answers for the store and `subscribe`
      for the clients. Every subscribed network starts one above its checkpoint, or at the
      latest height if it has none; the first load error of another kind and the first
      subscription that fails end the launch. */
  method LaunchAllNetworkSubscriptions(networks: seq<string>, load: string -> Result<Hex, LoadError>,
      subscribe: (string, Hex) -> Option<Error>)
    returns (starts: seq<Hex>, launched: bool)
    requires forall n :: n in networks && load(n).Success? ==> IsEmpty(load(n).value) || |load(n).value| >= 2
    ensures |starts| <= |networks| && (launched <==> |starts| == |networks|)
    ensures forall i :: 0 <= i < |starts| ==> subscribe(networks[i], starts[i]).None?
    ensures forall i :: 0 <= i < |starts| ==>
              var checkpoint := load(networks[i]);
              if checkpoint.Failure? then checkpoint.error == NoCheckpointFound && starts[i] == ""
              else if IsEmpty(checkpoint.value) then starts[i] == checkpoint.value
              else starts[i] == HexFromInt(Wrap(Int(checkpoint.value) + 1))
    ensures !launched ==>
              var n, checkpoint := networks[|starts|], load(networks[|starts|]);
              if checkpoint.Failure? then checkpoint.error != NoCheckpointFound || subscribe(n, "").Some?
              else if IsEmpty(checkpoint.value) then subscribe(n, checkpoint.value).Some?
              else subscribe(n, HexFromInt(Wrap(Int(checkpoint.value) + 1))).Some?
  {
    hide IsEmpty, Int, HexFromInt, Wrap;
    starts := [];
    for k := 0 to |networks|
      invariant |starts| == k
      invariant forall i :: 0 <= i < k ==> subscribe(networks[i], starts[i]).None?
      invariant forall i :: 0 <= i < k ==>
                  var checkpoint := load(networks[i]);
                  if checkpoint.Failure? then checkpoint.error == NoCheckpointFound && starts[i] == ""
                  else if IsEmpty(checkpoint.value) then starts[i] == checkpoint.value
                  else starts[i] == HexFromInt(Wrap(Int(checkpoint.value) + 1))
    {
      var checkpoint := load(networks[k]);
      assert networks[k] in networks;
      var startHeight := "";
      if checkpoint.Success? {
        startHeight := checkpoint.value;
      } else if checkpoint.error != NoCheckpointFound {
        return starts, false;
      }
      EmptyIsEmpty();
      if !IsEmpty(startHeight) {
        startHeight := Add(startHeight, 1);
      }
      if subscribe(networks[k], startHeight).Some? {
        return starts, false;
      }
      starts := starts + [startHeight];
    }
    launched := true;
  }

  lemma EmptyIsEmpty()
    ensures IsEmpty("")
  {
  }

  /** One run of the service as far as one network is concerned: the height it resumed
      from, the latest height asked for when it had none, the polls of its subscription,
      and the state of the whole pipeline when it crashed. */
  datatype Generation = Generation(
    conf: Config, index: nat, start: Hex, first: Hex, polls: seq<Poll>, end: State)

  function From(g: Generation): Hex {
    if IsEmpty(g.start) then g.first else g.start
  }

  function StartFloor(g: Generation, floor: int): int
    requires |g.first| >= 2
  {
    if IsEmpty(g.start) then Int(g.first) else floor
  }

  /** Retry is off, saves succeed, and the node is faithful and never reports less than
      `floor`, the most it has reported before. PostgreSQL identifies networks whose names
      differ only in case, so there no two of them may be registered. */
  ghost predicate GoodGeneration(store: Store, network: string, history: seq<Save>, floor: int, g: Generation)
    requires Savable(history)
  {
    && Reachable(g.conf, g.end) && g.conf.retry.None?
    && g.index < |g.conf.names| == |g.conf.sources| && g.conf.names[g.index] == network
    && (store.PostgresStore? ==> forall n :: n in g.conf.names && ToUpper(n) == ToUpper(network) ==> n == network)
    && AllSaved(g.end.saves) && Savable(SaveHistory(g.end.saves))
    && AllUsable(g.polls) && (forall i :: 0 <= i < |g.polls| ==> Faithful(g.polls[i]))
    && StartHeight(Load(store, history, network)) == Success(g.start)
    && |g.first| >= 2 && |From(g)| >= 2 && floor <= StartFloor(g, floor) < MAX_INT64
    && MonotoneNode(StartFloor(g, floor), g.polls)
    && g.conf.sources[g.index] == Events(RunEmissions(From(g), g.polls))
  }

  /** A history of crashes and restarts. */
  ghost predicate GoodRun(store: Store, network: string, history: seq<Save>, floor: int, gens: seq<Generation>)
    requires Savable(history)
    decreases |gens|
  {
    gens == []
    || (&& GoodGeneration(store, network, history, floor, gens[0])
        && Savable(history + SaveHistory(gens[0].end.saves))
        && GoodRun(store, network, history + SaveHistory(gens[0].end.saves),
                   Reported(StartFloor(gens[0], floor), gens[0].polls), gens[1..]))
  }

  /** Everything forwarded for the network over all generations. */
  function AllForwarded(network: string, gens: seq<Generation>): seq<Block> {
    if gens == [] then [] else BlocksOn(Forwarded(gens[0].end), network) + AllForwarded(network, gens[1..])
  }

  // ---------- one generation ----------

  lemma PrefixOfLine(a: seq<Item>, b: seq<Item>, name: string)
    requires RecoveredBlocks(a + b) == []
    ensures BlocksOn(a, name) == DirectBlocks(a, name) <= DirectBlocks(a + b, name)
  {
    RecoveredBlocksConcat(a, b);
    NoneRecovered(a, name);
    DirectBlocksConcat(a, b, name);
  }

  lemma SavesSplitTheLine(t: State) returns (tail: seq<Item>, rest: seq<Item>)
    requires SavesAccounted(t)
    ensures SavedItems(t.saves) == Forwarded(t) + tail && Line(t) == SavedItems(t.saves) + rest
  {
    tail := if t.checkpointer.Saved? then [t.checkpointer.item] else [];
    rest := (if t.checkpointer.Unsaved? then [t.checkpointer.item] else []) + t.preCheckpointCh;
  }

  /** What a generation forwards is a prefix of what it saves, which is a prefix of the
      blocks its subscription delivered. */
  lemma SavedBeforeForwarded(c: Config, t: State, i: nat)
    requires Reachable(c, t) && c.retry.None? && i < |c.names|
    ensures |c.names| == |c.sources|
    ensures BlocksOn(Forwarded(t), c.names[i]) <= BlocksOn(SavedItems(t.saves), c.names[i]) <= Successes(c.sources[i])
  {
    hide Reaches, Line, Forwarded, FailuresConserved, OutcomesWellFormed, Registered, Capacities;
    ReachableInv(c, t);
    var name := c.names[i];
    var tail, rest := SavesSplitTheLine(t);
    assert Settled(t) == [];
    PrefixOfLine(SavedItems(t.saves), rest, name);
    assert SavedItems(t.saves) + rest == Forwarded(t) + (tail + rest);
    PrefixOfLine(Forwarded(t), tail + rest, name);
    DirectBlocksConcat(Forwarded(t), tail, name);
    assert BlocksConserved(c, t, i);
    SuccessesPrefix(c.sources[i], t.taken[i]);
  }

  lemma PrefixHeights(a: seq<Block>, b: seq<Block>, lo: int, hi: int)
    requires a <= b && Ascending(b) && ValidHeights(b) && Within(b, lo, hi)
    ensures Ascending(a) && ValidHeights(a) && Within(a, lo, hi)
  {
    hide HeightOf, ValidHex;
    forall i | 0 <= i < |a| ensures lo <= HeightOf(a[i]) <= hi && ValidHex(a[i].height) {
      assert a[i] == b[i];
    }
    forall i, j | 0 <= i < j < |a| ensures HeightOf(a[i]) < HeightOf(a[j]) {
      assert a[i] == b[i] && a[j] == b[j];
    }
  }

  /** The saves of a generation: ascending, none below the start height, none above what
      the node has reported. */
  lemma GenerationSaves(store: Store, network: string, history: seq<Save>, floor: int, g: Generation)
    requires Savable(history) && GoodGeneration(store, network, history, floor, g)
    requires Int(From(g)) <= StartFloor(g, floor) + 1
    ensures var saved := BlocksOn(SavedItems(g.end.saves), network);
            && Ascending(saved) && ValidHeights(saved)
            && Within(saved, Int(From(g)), Reported(StartFloor(g, floor), g.polls))
            && SavedFor(SaveHistory(g.end.saves), network) == HexHeights(saved)
            && BlocksOn(Forwarded(g.end), network) <= saved
    ensures floor <= Reported(StartFloor(g, floor), g.polls)
  {
    hide Int, HeightOf, RunEmissions, Events, Successes, Reachable, Faithful, MonotoneNode, Load, StartHeight;
    hide IsEmpty, ToUpper, Usable, ValidHex, BlocksOn, SavedItems, SavedFor, HexHeights, Forwarded, From, StartFloor;
    hide Contiguous, FaithfulEmission, Fetches, Ascending, ValidHeights, Reported, SaveHistory;
    var em := RunEmissions(From(g), g.polls);
    RunContiguity(From(g), StartFloor(g, floor), g.polls);
    RunIsFaithful(From(g), g.polls);
    SuccessesAscend(Int(From(g)), em);
    SavedBeforeForwarded(g.conf, g.end, g.index);
    SavedForNetwork(g.end.saves, network);
    var hi := Int(From(g)) + Fetches(em) - 1;
    PrefixHeights(BlocksOn(SavedItems(g.end.saves), network), Successes(Events(em)), Int(From(g)), hi);
  }

  // ---------- all generations ----------

  /** The state of a store between generations: valid ascending heights of the network,
      no other name that PostgreSQL takes for it, nothing above the node's reports. */
  ghost predicate HistoryInv(store: Store, network: string, history: seq<Save>, floor: int) {
    && Savable(history)
    && (store.PostgresStore? ==> forall s :: s in history && ToUpper(s.network) == ToUpper(network) ==> s.network == network)
    && AscendingHex(SavedFor(history, network), floor)
  }

  predicate AscendingHex(hs: seq<Hex>, floor: int) {
    && (forall i :: 0 <= i < |hs| ==> ValidHex(hs[i]) && Int(hs[i]) <= floor)
    && (forall i, j :: 0 <= i < j < |hs| ==> Int(hs[i]) < Int(hs[j]))
  }

  /** The last height saved; below every height if there is none. */
  function LastOf(hs: seq<Hex>): int {
    if hs == [] then MIN_INT64 - 1
    else if |hs[|hs| - 1]| >= 2 then Int(hs[|hs| - 1])
    else 0
  }

  lemma ValidIsNotEmpty(h: Hex)
    requires ValidHex(h)
    ensures !IsEmpty(h) && |h| >= 2
  {
    assert h[0] == '0';
  }

  /** After any ascending history both stores load the last height saved. */
  lemma LoadsTheLast(store: Store, network: string, history: seq<Save>, floor: int)
    requires HistoryInv(store, network, history, floor)
    ensures var hs := SavedFor(history, network);
            var r := Load(store, history, network);
            if hs == [] then r == Failure(NoCheckpointFound)
            else r.Success? && !IsEmpty(r.value) && Int(r.value) == Int(hs[|hs| - 1])
  {
    hide Int, IsEmpty, ValidHex, ToUpper, PgAfter, LatestByNetwork, RedisAfter;
    var hs := SavedFor(history, network);
    match store
    case RedisStore =>
      RedisLoadsTheLast(history, network);
      if hs != [] {
        ValidIsNotEmpty(hs[|hs| - 1]);
      }
    case PostgresStore =>
      PgLoadsTheMaximum(history, network);
      var r := PgLoad(PgAfter(history), network);
      if hs != [] {
        StoresAgreeExactly(history, network);
        RedisLoadsTheLast(history, network);
        forall i | 0 <= i < |history| && ToUpper(history[i].network) == ToUpper(network)
          ensures Int(history[i].height) <= Int(hs[|hs| - 1])
        {
          assert history[i] in history;
          assert history[i] == Save(network, history[i].height);
          SavedForMember(history, network, history[i].height);
          var k :| 0 <= k < |hs| && hs[k] == history[i].height;
        }
        PgValueIsNotEmpty(history, network);
      } else if r.Success? {
        var i :| 0 <= i < |history| && ToUpper(history[i].network) == ToUpper(network) && Int(history[i].height) == Int(r.value);
        assert history[i] in history;
        assert history[i] == Save(network, history[i].height);
        SavedForMember(history, network, history[i].height);
        assert false;
      }
  }

  lemma PgValueIsNotEmpty(history: seq<Save>, network: string)
    requires Savable(history)
    ensures var r := PgLoad(PgAfter(history), network); r.Success? ==> !IsEmpty(r.value)
  {
    var l := LatestByNetwork(PgAfter(history), ToUpper(network));
    if l.Some? {
      HexIsNotEmpty(l.value);
    }
  }

  lemma ResumesAfterTheLast(store: Store, network: string, history: seq<Save>, floor: int, g: Generation)
    requires HistoryInv(store, network, history, floor)
    requires GoodGeneration(store, network, history, floor, g)
    ensures var hs := SavedFor(history, network);
            if hs == [] then Int(From(g)) == StartFloor(g, floor)
            else Int(From(g)) == Int(hs[|hs| - 1]) + 1 && StartFloor(g, floor) == floor
    ensures Int(From(g)) <= StartFloor(g, floor) + 1
    ensures LastOf(SavedFor(history, network)) < Int(From(g))
  {
    hide ParseInt, ParseUint, Reachable, MonotoneNode, RunEmissions, Events, Load, Faithful, Add, IsEmpty;
    var hs := SavedFor(history, network);
    LoadsTheLast(store, network, history, floor);
    EmptyIsEmpty();
    if hs != [] {
      var r := Load(store, history, network).value;
      IntOfAdd(r, 1);
      AddIsNotEmpty(r);
    }
  }

  lemma AddIsNotEmpty(h: Hex)
    requires |h| >= 2
    ensures !IsEmpty(Add(h, 1))
  {
    HexIsNotEmpty(Wrap(Int(h) + 1));
  }

  lemma {:induction false} SavedNames(saves: seq<SaveAttempt>, names: seq<string>)
    requires forall x :: x in SavedItems(saves) ==> x.block.network in names
    ensures forall s :: s in SaveHistory(saves) ==> s.network in names
  {
    if saves != [] {
      SavedNames(saves[..|saves| - 1], names);
      assert saves[|saves| - 1].item in SavedItems(saves);
    }
  }

  lemma GenerationNames(c: Config, t: State)
    requires Reachable(c, t)
    ensures forall s :: s in SaveHistory(t.saves) ==> s.network in c.names
  {
    hide Reaches, BlocksConserved, FailuresConserved, OutcomesWellFormed, RetryAccounted;
    ReachableInv(c, t);
    var tail, rest := SavesSplitTheLine(t);
    SavedNames(t.saves, c.names);
  }

  lemma AppendAscending(hs: seq<Hex>, bs: seq<Block>, floor: int, lo: int, top: int)
    requires AscendingHex(hs, floor) && floor <= top
    requires Ascending(bs) && ValidHeights(bs) && Within(bs, lo, top)
    requires LastOf(hs) < lo
    ensures AscendingHex(hs + HexHeights(bs), top)
  {
    hide Int, ParseUint, HeightOf;
    var all := hs + HexHeights(bs);
    forall i | 0 <= i < |all|
      ensures ValidHex(all[i]) && Int(all[i]) <= top && (i >= |hs| ==> Int(all[i]) == HeightOf(bs[i - |hs|]))
    {
      if i < |hs| {
        assert all[i] == hs[i];
      } else {
        assert all[i] == bs[i - |hs|].height;
        ValidHeightOf(bs[i - |hs|]);
      }
    }
    forall i, j | 0 <= i < j < |all|
      ensures Int(all[i]) < Int(all[j])
    {
      if i < |hs| <= j {
        assert i == |hs| - 1 || Int(hs[i]) < Int(hs[|hs| - 1]);
        assert lo <= HeightOf(bs[j - |hs|]);
      }
    }
  }

  lemma ValidHeightOf(b: Block)
    requires ValidHex(b.height)
    ensures |b.height| >= 2 && HeightOf(b) == Int(b.height)
  {
  }

  lemma GenerationKeepsHistory(store: Store, network: string, history: seq<Save>, floor: int, g: Generation)
    requires HistoryInv(store, network, history, floor)
    requires GoodGeneration(store, network, history, floor, g)
    requires Savable(history + SaveHistory(g.end.saves))
    ensures HistoryInv(store, network, history + SaveHistory(g.end.saves), Reported(StartFloor(g, floor), g.polls))
  {
    hide Int, ValidHex, HeightOf, Reachable, MonotoneNode, RunEmissions, Events, Load, Faithful, ToUpper;
    hide Ascending, Within, ValidHeights, HexHeights, AscendingHex, SavedFor, BlocksOn, StartHeight, IsEmpty, From;
    ResumesAfterTheLast(store, network, history, floor, g);
    GenerationSaves(store, network, history, floor, g);
    var saved := BlocksOn(SavedItems(g.end.saves), network);
    SavedForConcat(history, SaveHistory(g.end.saves), network);
    AppendAscending(SavedFor(history, network), saved, floor, Int(From(g)), Reported(StartFloor(g, floor), g.polls));
    GenerationNames(g.conf, g.end);
  }

  lemma PrefixBelowLast(hs: seq<Hex>, out: seq<Block>, saved: seq<Block>, lo: int, hi: int)
    requires Ascending(saved) && ValidHeights(saved) && Within(saved, lo, hi) && out <= saved
    requires LastOf(hs) < lo
    ensures Within(out, LastOf(hs) + 1, LastOf(hs + HexHeights(saved)))
    ensures LastOf(hs) <= LastOf(hs + HexHeights(saved))
  {
    hide Int, ParseUint, HeightOf;
    if saved == [] {
      assert hs + HexHeights(saved) == hs;
    } else {
      var last := saved[|saved| - 1];
      ValidHeightOf(last);
      assert (hs + HexHeights(saved))[|hs| + |saved| - 1] == last.height;
      forall i | 0 <= i < |out| ensures LastOf(hs) < HeightOf(out[i]) <= HeightOf(last) {
        assert out[i] == saved[i];
      }
    }
  }

  /** What a generation forwards lies above everything saved before it, and not above what
      has been saved when it ends. */
  lemma ForwardedBetweenSaves(store: Store, network: string, history: seq<Save>, floor: int, g: Generation)
    requires HistoryInv(store, network, history, floor)
    requires GoodGeneration(store, network, history, floor, g)
    ensures var out := BlocksOn(Forwarded(g.end), network);
            && Ascending(out)
            && Within(out, LastOf(SavedFor(history, network)) + 1,
                      LastOf(SavedFor(history + SaveHistory(g.end.saves), network)))
    ensures LastOf(SavedFor(history, network)) <= LastOf(SavedFor(history + SaveHistory(g.end.saves), network))
  {
    hide Int, ParseUint, Reachable, MonotoneNode, RunEmissions, Events, Load, Faithful, ToUpper;
    hide SavedFor, BlocksOn, StartHeight, IsEmpty, From, AscendingHex, Forwarded, SavedItems;
    ResumesAfterTheLast(store, network, history, floor, g);
    GenerationSaves(store, network, history, floor, g);
    SavedForConcat(history, SaveHistory(g.end.saves), network);
    var saved := BlocksOn(SavedItems(g.end.saves), network);
    PrefixHeights(BlocksOn(Forwarded(g.end), network), saved, Int(From(g)), Reported(StartFloor(g, floor), g.polls));
    PrefixBelowLast(SavedFor(history, network), BlocksOn(Forwarded(g.end), network), saved, Int(From(g)),
                    Reported(StartFloor(g, floor), g.polls));
  }

  lemma UsableGeneration(store: Store, network: string, history: seq<Save>, floor: int, g: Generation)
    requires Savable(history) && GoodGeneration(store, network, history, floor, g)
    ensures AllUsable(g.polls) && |g.first| >= 2
  {
  }

  lemma JoinAscending(a: seq<Block>, b: seq<Block>, cut: int)
    requires Ascending(a) && Ascending(b)
    requires forall i :: 0 <= i < |a| ==> HeightOf(a[i]) <= cut
    requires forall i :: 0 <= i < |b| ==> cut < HeightOf(b[i])
    ensures Ascending(a + b)
  {
    hide HeightOf;
  }

  /** At most once across restarts. Over any number of crashes and restarts, with either
      store, the heights forwarded for a network are strictly increasing. */
  lemma {:induction false} ForwardedAscends(store: Store, network: string, history: seq<Save>, floor: int,
      gens: seq<Generation>)
    requires HistoryInv(store, network, history, floor)
    requires GoodRun(store, network, history, floor, gens)
    ensures Ascending(AllForwarded(network, gens))
    ensures forall b :: b in AllForwarded(network, gens) ==> LastOf(SavedFor(history, network)) < HeightOf(b)
    decreases |gens|
  {
    hide HeightOf, GoodGeneration, AscendingHex, ToUpper, Forwarded, BlocksOn, LastOf, Reported, SavedFor, SaveHistory;
    if gens != [] {
      var g := gens[0];
      UsableGeneration(store, network, history, floor, g);
      GenerationKeepsHistory(store, network, history, floor, g);
      ForwardedBetweenSaves(store, network, history, floor, g);
      var history' := history + SaveHistory(g.end.saves);
      ForwardedAscends(store, network, history', Reported(StartFloor(g, floor), g.polls), gens[1..]);
      var out, rest := BlocksOn(Forwarded(g.end), network), AllForwarded(network, gens[1..]);
      JoinAscending(out, rest, LastOf(SavedFor(history', network)));
    }
  }

  /** The same from the first start, with nothing stored and nothing known of the node. */
  lemma AtMostOnceAcrossRestarts(store: Store, network: string, gens: seq<Generation>)
    requires GoodRun(store, network, [], MIN_INT64, gens)
    ensures Ascending(AllForwarded(network, gens))
  {
    ForwardedAscends(store, network, [], MIN_INT64, gens);
  }

  // ---------- the two stores on such histories ----------

  /** Everything saved before and during the generations. */
  function HistoryAfter(history: seq<Save>, gens: seq<Generation>): seq<Save>
    decreases |gens|
  {
    if gens == [] then history else HistoryAfter(history + SaveHistory(gens[0].end.saves), gens[1..])
  }

  lemma {:induction false} RunKeepsHistory(store: Store, network: string, history: seq<Save>, floor: int,
      gens: seq<Generation>) returns (top: int)
    requires HistoryInv(store, network, history, floor) && GoodRun(store, network, history, floor, gens)
    ensures HistoryInv(store, network, HistoryAfter(history, gens), top)
    decreases |gens|
  {
    hide GoodGeneration, AscendingHex, ToUpper, Reported, SavedFor, SaveHistory;
    if gens == [] {
      top := floor;
    } else {
      var g := gens[0];
      UsableGeneration(store, network, history, floor, g);
      GenerationKeepsHistory(store, network, history, floor, g);
      top := RunKeepsHistory(store, network, history + SaveHistory(g.end.saves),
                             Reported(StartFloor(g, floor), g.polls), gens[1..]);
    }
  }

  /** After any number of crashes and restarts on PostgreSQL, a Redis store that had been
      given the same saves would hold the same checkpoint. */
  lemma StoresAgreeOnPipelineHistories(network: string, history: seq<Save>, floor: int, gens: seq<Generation>)
    requires HistoryInv(PostgresStore, network, history, floor)
    requires GoodRun(PostgresStore, network, history, floor, gens)
    ensures var after := HistoryAfter(history, gens);
            && Savable(after)
            && var r, p := Load(RedisStore, after, network), Load(PostgresStore, after, network);
               (r.Success? <==> p.Success?) && (r.Success? ==> Int(r.value) == Int(p.value))
  {
    hide Int, GoodGeneration, AscendingHex, Load, IsEmpty;
    var top := RunKeepsHistory(PostgresStore, network, history, floor, gens);
    var after := HistoryAfter(history, gens);
    LoadsTheLast(PostgresStore, network, after, top);
    RedisHistory(network, after, top);
    LoadsTheLast(RedisStore, network, after, top);
  }

  lemma RedisHistory(network: string, history: seq<Save>, floor: int)
    requires HistoryInv(PostgresStore, network, history, floor)
    ensures HistoryInv(RedisStore, network, history, floor)
  {
  }
}
