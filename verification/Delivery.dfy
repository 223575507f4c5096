/** From the node to the consumer: what is handled of a subscription that loses no fetch. */
module Delivery {
  import opened Wrappers
  import opened HexNumbers
  import opened Chainstream
  import opened Polling
  import opened Pipeline
  import opened PipelineSafety
  import opened PipelineDrain

  ghost predicate NoFetchFails(polls: seq<Poll>) {
    forall i, h: Hex :: 0 <= i < |polls| ==> polls[i].fetch(h).err.None?
  }

  /** The j-th block is what some poll fetched for the height `start` + j. */
  ghost predicate Delivers(bs: seq<Block>, start: int, polls: seq<Poll>) {
    forall j :: 0 <= j < |bs| ==> IsBlockAt(bs[j], start + j, polls)
  }

  ghost predicate IsBlockAt(b: Block, height: int, polls: seq<Poll>) {
    exists i, h: Hex :: 0 <= i < |polls| && |h| >= 2 && Int(h) == height && b == polls[i].fetch(h).block
  }

  lemma {:induction false} SuccessesAreFetches(start: int, em: seq<Emission>, polls: seq<Poll>, turns: seq<nat>)
    requires Contiguous(start, em) && NoFetchFails(polls)
    requires |turns| == |em| && forall k :: 0 <= k < |em| ==> turns[k] < |polls| && Tells(em[k], polls[turns[k]])
    ensures |Successes(Events(em))| == Fetches(em) && Delivers(Successes(Events(em)), start, polls)
  {
    hide Int, IsBlockAt;
    if em != [] {
      var n := |em| - 1;
      assert Contiguous(start, em[..n]) by {
        assert forall k :: 0 <= k < n ==> em[..n][..k] == em[..k];
      }
      SuccessesAreFetches(start, em[..n], polls, turns[..n]);
      var e := em[n].event;
      assert Events(em) == Events(em[..n]) + [e] && Events(em)[..|Events(em)| - 1] == Events(em[..n]);
      if em[n].FetchEmission? {
        IsFetched(e, start + Fetches(em[..n]), polls, turns[n]);
        assert Successes(Events(em)) == Successes(Events(em[..n])) + [e.block];
      } else {
        assert Successes(Events(em)) == Successes(Events(em[..n]));
      }
    }
  }

  lemma IsFetched(e: BlockchainEvent, height: int, polls: seq<Poll>, i: nat)
    requires NoFetchFails(polls) && i < |polls| && Tells(FetchEmission(e), polls[i])
    requires |e.height| >= 2 && Int(e.height) == height
    ensures e.err.None? && IsBlockAt(e.block, height, polls)
  {
    hide Int;
    assert polls[i].fetch(e.height).err.None?;
  }

  /** If no fetch fails, a run of polls delivers the blocks of its start height, the next
      one, and so on up to its next height, with none missing and nothing else. */
  lemma NothingIsMissed(from: Hex, floor: int, polls: seq<Poll>)
    requires |from| >= 2 && AllUsable(polls) && MonotoneNode(floor, polls) && Int(from) <= floor + 1
    requires NoFetchFails(polls)
    ensures var bs := Successes(Events(RunEmissions(from, polls)));
            |bs| == Int(RunNext(from, polls)) - Int(from) && Delivers(bs, Int(from), polls)
  {
    hide Int, RunEmissions, RunNext, Contiguous, Delivers, NoFetchFails, MonotoneNode, Reported;
    RunContiguity(from, floor, polls);
    var turns := RunTellsTheNode(from, polls);
    SuccessesAreFetches(Int(from), RunEmissions(from, polls), polls, turns);
  }

  /** And once the pipeline is at rest they have all been handled, in that order. */
  lemma EveryHeightIsHandled(c: Config, t: State, i: nat, from: Hex, floor: int, polls: seq<Poll>)
    requires Reachable(c, t) && Shape(c, t) && Quiescent(c, t) && i < |c.names|
    requires |from| >= 2 && AllUsable(polls) && MonotoneNode(floor, polls) && Int(from) <= floor + 1
    requires NoFetchFails(polls) && c.sources[i] == Events(RunEmissions(from, polls))
    ensures var bs := DirectBlocks(t.handled, c.names[i]);
            |bs| == Int(RunNext(from, polls)) - Int(from) && Delivers(bs, Int(from), polls)
  {
    hide Int, RunEmissions, RunNext, Delivers, NoFetchFails, MonotoneNode, Reachable, Quiescent;
    NothingIsMissed(from, floor, polls);
    DrainedBlocks(c, t, i);
  }
}
