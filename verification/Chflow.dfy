/** Buffered channels and the selects around them (internal/pkg/x/chflow/chflow.go). */
module Chflow {
  import opened Wrappers

  class Channel<T> {
    const capacity: nat
    var buffer: seq<T>
    var closed: bool

    constructor (capacity: nat)
      ensures this.capacity == capacity && buffer == [] && !closed
    {
      this.capacity := capacity;
      buffer := [];
      closed := false;
    }

    /** The receive case of the select; None means that it is not ready, or that the channel
        is closed and empty. */
    method Receive() returns (r: Option<T>)
      modifies this`buffer
      ensures old(buffer) == [] ==> r == None && buffer == []
      ensures old(buffer) != [] ==> r == Some(old(buffer)[0]) && buffer == old(buffer)[1..]
    {
      if buffer == [] {
        return None;
      }
      r := Some(buffer[0]);
      buffer := buffer[1..];
    }

    /** The send case of the select; false means that it is not ready. A send on a closed
        channel panics. */
    method Send(data: T) returns (ok: bool)
      requires !closed
      modifies this`buffer
      ensures ok == (|old(buffer)| < capacity)
      ensures buffer == if ok then old(buffer) + [data] else old(buffer)
    {
      ok := |buffer| < capacity;
      if ok {
        buffer := buffer + [data];
      }
    }

    /** Closing a closed channel panics. */
    method Close()
      requires !closed
      modifies this`closed
      ensures closed
    {
      closed := true;
    }
  }

  method FirstNonNil<T>(chs: seq<Channel?<T>>) returns (r: Channel?<T>)
    ensures r == null ==> forall i :: 0 <= i < |chs| ==> chs[i] == null
    ensures r != null ==> exists i :: 0 <= i < |chs| && chs[i] == r && forall j :: 0 <= j < i ==> chs[j] == null
  {
    for i := 0 to |chs|
      invariant forall j :: 0 <= j < i ==> chs[j] == null
    {
      if chs[i] != null {
        return chs[i];
      }
    }
    return null;
  }
}
