/**
 * A `sync.Pool` of byte buffers, as trail/trail.go, cmd/avalanched/main.go and
 * cmd/chasmd/main.go each keep one. A buffer made by the pool's `New` is empty;
 * a buffer handed back by `Put` keeps whatever bytes it holds.
 *
 * `Get` hands out the buffer most recently put back, or a new empty one when
 * none is pooled.
 */
module BufferPool {
  import opened Bytes

  class Pool {
    /** The contents of the pooled buffers, the most recently returned last. */
    var free: seq<ByteString>

    constructor ()
      ensures free == []
    {
      free := [];
    }

    /** Every pooled buffer is empty, so whatever `Get` returns is empty. */
    predicate AllEmpty()
      reads this
    {
      forall i :: 0 <= i < |free| ==> free[i] == []
    }

    method Get() returns (b: ByteString)
      modifies this
      ensures old(free) == [] ==> b == [] && free == []
      ensures old(free) != [] ==> b == old(free)[|old(free)| - 1] && free == old(free)[..|old(free)| - 1]
      ensures old(AllEmpty()) ==> b == [] && AllEmpty()
    {
      if free == [] {
        b := [];
      } else {
        b := free[|free| - 1];
        free := free[..|free| - 1];
      }
    }

    method Put(b: ByteString)
      modifies this
      ensures free == old(free) + [b]
      ensures old(AllEmpty()) && b == [] ==> AllEmpty()
    {
      free := free + [b];
    }
  }
}
