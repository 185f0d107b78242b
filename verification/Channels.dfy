/** Go's buffered channels, as the request plane uses them: a bounded FIFO that is filled and
    drained in place, and that may be closed once. Each method is one atomic channel operation;
    blocking forms are modelled by their non-blocking outcome. */
module Channels {

  import opened Options

  class Channel<T> {
    const capacity: nat
    var buf: seq<T>
    var closed: bool

    constructor (capacity: nat)
      ensures this.capacity == capacity && buf == [] && !closed
    {
      this.capacity := capacity;
      buf, closed := [], false;
    }

    /** `select { case ch <- x: default: }`; sending on a closed channel panics in Go, so the
        caller must rule that out. */
    method TrySend(x: T) returns (ok: bool)
      requires !closed
      modifies this
      ensures ok <==> |old(buf)| < capacity
      ensures buf == if ok then old(buf) + [x] else old(buf)
      ensures closed == old(closed)
    {
      ok := |buf| < capacity;
      if ok {
        buf := buf + [x];
      }
    }

    /** `select { case x := <-ch: default: }` */
    method TryReceive() returns (x: Option<T>)
      modifies this
      ensures old(buf) == [] <==> x == None
      ensures x.Some? ==> old(buf) == [x.value] + buf
      ensures x == None ==> buf == old(buf)
      ensures closed == old(closed)
    {
      if buf == [] {
        return None;
      }
      x := Some(buf[0]);
      buf := buf[1..];
    }

    /** Closing a closed channel panics in Go, so the caller must rule that out. */
    method Close()
      requires !closed
      modifies this
      ensures closed && buf == old(buf)
    {
      closed := true;
    }
  }
}
