/**
 Start and Close of the two services (internal/chainstream/service.go,
 internal/blockproc/service.go). Both hold their mutex throughout, so calls are atomic.
 */
module Lifecycle {
  import opened Wrappers
  import opened Chainstream
  import opened Chflow
  import opened Pipeline

  /** The variables of one Start that its closeFunc captures: the channels it makes. The
      closure refers to the variable retryFailureCh, which is only assigned after it. */
  class Generation {
    const preCheckpointCh: Channel<Item>
    const finalOut: Channel<Item>
    const dispatchFailureCh: Channel<BlockDispatchFailure>
    var retryFailureCh: Channel?<BlockDispatchFailure>

    ghost predicate Distinct()
      reads this
    {
      preCheckpointCh != finalOut && retryFailureCh != dispatchFailureCh
    }

    ghost function Channels(): set<object>
      reads this
    {
      {preCheckpointCh as object, finalOut as object, dispatchFailureCh as object}
      + if retryFailureCh != null then {retryFailureCh as object} else {}
    }

    ghost predicate AllOpen()
      reads this, Channels()
    {
      && !preCheckpointCh.closed && !finalOut.closed && !dispatchFailureCh.closed
      && (retryFailureCh != null ==> !retryFailureCh.closed)
    }

    ghost predicate AllClosed()
      reads this, Channels()
    {
      && preCheckpointCh.closed && finalOut.closed && dispatchFailureCh.closed
      && (retryFailureCh != null ==> retryFailureCh.closed)
    }

    constructor ()
      ensures retryFailureCh == null && Distinct() && AllOpen() && fresh(Channels())
    {
      preCheckpointCh := new Channel(OBSERVED_BLOCK_BUFFER);
      finalOut := new Channel(OBSERVED_BLOCK_BUFFER);
      dispatchFailureCh := new Channel(DISPATCH_FAILURE_BUFFER);
      retryFailureCh := null;
    }

    /** The closure. A close of a closed channel panics and leaves the rest undone. */
    method CloseFunc() returns (panicked: bool)
      requires Distinct() && (AllOpen() || AllClosed())
      modifies Channels()
      ensures panicked <==> old(AllClosed())
      ensures AllClosed()
    {
      if preCheckpointCh.closed {
        return true;
      }
      preCheckpointCh.Close();
      finalOut.Close();
      if retryFailureCh != null {
        retryFailureCh.Close();
      }
      dispatchFailureCh.Close();
      return false;
    }
  }

  datatype StartResult = Started | AlreadyStarted | LaunchFailed

  class ChainstreamService {
    const retry: bool
    var isStarted: bool
    var closeFunc: Generation?
    ghost var generations: seq<Generation>   // one for each Start that got past the first test

    /** A started service has its newest generation open and the closeFunc of it; every other
        generation has all its channels closed. After a failed launch the closeFunc is still
        there. */
    ghost predicate Valid()
      reads *
    {
      && (closeFunc != null ==> generations != [] && closeFunc == generations[|generations| - 1])
      && (isStarted ==> closeFunc != null)
      && forall i :: 0 <= i < |generations| ==>
           generations[i].Distinct() && (generations[i].retryFailureCh != null <==> retry)
           && if isStarted && i == |generations| - 1 then generations[i].AllOpen() else generations[i].AllClosed()
    }

    ghost function ToClose(): set<object>
      reads this, closeFunc
    {
      if closeFunc == null then {} else closeFunc.Channels()
    }

    constructor (retry: bool)
      ensures Valid() && !isStarted && closeFunc == null && generations == [] && this.retry == retry
    {
      this.retry := retry;
      isStarted, closeFunc, generations := false, null, [];
    }

    /** The closeFunc first, then the channel it will have to close as well. */
    method MakeChannels()
      modifies this`closeFunc
      ensures closeFunc != null && fresh(closeFunc) && fresh(closeFunc.Channels())
      ensures closeFunc.Distinct() && closeFunc.AllOpen() && (closeFunc.retryFailureCh != null <==> retry)
    {
      var variables := new Generation();
      closeFunc := variables;
      if retry {
        variables.retryFailureCh := new Channel(RETRY_FAILURE_BUFFER);
      }
    }

    /** A Start that goes on makes a new generation, with a retry channel exactly if retry is
        configured; if the launch fails it has closed every channel of it. */
    method Start(launches: bool) returns (r: StartResult)
      requires Valid()
      modifies this
      ensures Valid() && fresh(ToClose() - old(ToClose()))
      ensures r == if old(isStarted) then AlreadyStarted else if launches then Started else LaunchFailed
      ensures isStarted <==> r != LaunchFailed
      ensures r == AlreadyStarted ==> generations == old(generations)
      ensures r != AlreadyStarted ==>
                |generations| == |old(generations)| + 1 && old(generations) == generations[..|old(generations)|]
                && fresh(closeFunc) && fresh(closeFunc.Channels())
    {
      if isStarted {
        return AlreadyStarted;
      }
      MakeChannels();
      generations := generations + [closeFunc];
      if !launches {
        var _ := closeFunc.CloseFunc();
        return LaunchFailed;
      }
      isStarted := true;
      return Started;
    }

    /** Close panics exactly when the last Start failed to launch and was not followed by
        another call: its closeFunc closes the same channels again. Otherwise every channel
        of every generation is closed afterwards. */
    method Close() returns (panicked: bool)
      requires Valid()
      modifies this, ToClose()
      ensures Valid() && !isStarted && generations == old(generations)
      ensures panicked <==> old(closeFunc != null && !isStarted)
      ensures closeFunc == if panicked then old(closeFunc) else null
      ensures forall g :: g in generations ==> g.AllClosed()
    {
      if closeFunc != null {
        panicked := closeFunc.CloseFunc();
        if panicked {
          return;
        }
      }
      isStarted := false;
      closeFunc := null;
      panicked := false;
    }
  }

  datatype Call = StartCall(launches: bool) | CloseCall

  /** Whether the service runs after these calls: the last of them decides, but for a Start
      that finds it running. */
  function StartedAfter(started: bool, calls: seq<Call>): bool {
    if calls == [] then started
    else
      match calls[|calls| - 1]
      case StartCall(launches) => StartedAfter(started, calls[..|calls| - 1]) || launches
      case CloseCall => false
  }

  class BlockprocService {
    const chainstream: ChainstreamService
    var isStarted: bool
    var closeFunc: bool   // the closure cancels the context and calls chainstream.Close

    /** The two services agree on being started. */
    ghost predicate Valid()
      reads *
    {
      chainstream.Valid() && isStarted == chainstream.isStarted && closeFunc == isStarted
    }

    constructor (chainstream: ChainstreamService)
      requires chainstream.Valid() && !chainstream.isStarted
      ensures Valid() && this.chainstream == chainstream && !isStarted
    {
      this.chainstream := chainstream;
      isStarted, closeFunc := false, false;
    }

    method Start(launches: bool) returns (r: StartResult)
      requires Valid()
      modifies this, chainstream
      ensures Valid() && fresh(chainstream.ToClose() - old(chainstream.ToClose()))
      ensures r == if old(isStarted) then AlreadyStarted else if launches then Started else LaunchFailed
      ensures isStarted <==> r != LaunchFailed
      ensures |chainstream.generations| == |old(chainstream.generations)| + if r == AlreadyStarted then 0 else 1
    {
      if isStarted {
        return AlreadyStarted;
      }
      r := chainstream.Start(launches);
      if r != Started {
        return;
      }
      closeFunc := true;
      isStarted := true;
    }

    /** Unlike chainstream's, this Close never panics: after a failed launch there is no
        closeFunc here, and the channels have been closed already. */
    method Close()
      requires Valid()
      modifies this, chainstream, chainstream.ToClose()
      ensures Valid() && !isStarted && fresh(chainstream.ToClose() - old(chainstream.ToClose()))
      ensures chainstream.generations == old(chainstream.generations)
      ensures forall g :: g in chainstream.generations ==> g.AllClosed()
    {
      if closeFunc {
        var panicked := chainstream.Close();
        assert !panicked;
      }
      closeFunc := false;
      isStarted := false;
    }

    /** Any sequence of Start (launching or not, as the networks decide) and Close calls: the
        services keep agreeing, no channel is closed twice, and afterwards exactly the
        channels of the running generation, if any, are open. */
    method Drive(calls: seq<Call>)
      requires Valid()
      modifies this, chainstream, chainstream.ToClose()
      ensures Valid() && isStarted == StartedAfter(old(isStarted), calls)
      ensures forall i :: 0 <= i < |chainstream.generations| ==>
                var g := chainstream.generations[i];
                if isStarted && i == |chainstream.generations| - 1 then g.AllOpen() else g.AllClosed()
    {
      for i := 0 to |calls|
        invariant Valid() && fresh(chainstream.ToClose() - old(chainstream.ToClose()))
        invariant isStarted == StartedAfter(old(isStarted), calls[..i])
      {
        assert calls[..i + 1][..i] == calls[..i];
        match calls[i] {
          case StartCall(launches) => var _ := Start(launches);
          case CloseCall => Close();
        }
      }
      assert calls[..|calls|] == calls;
    }
  }
}
