/**
 * The trail accumulator (trail/trail.go): lines are appended to one open
 * buffer; `Flush` queues that buffer for the writers and takes a fresh one
 * from the pool; each writer takes queued buffers in order, hands their bytes
 * on and returns the buffer to the pool.
 *
 * The writers' goroutines are modelled by `Deliver`, one turn of a writer's
 * loop, which the caller interleaves with the other operations; the payload
 * channel is the sequence `payloads`, bounded by the number of writers.
 */
module Trails {
  import opened Bytes
  import opened RiverField
  import River
  import opened BufferPool

  class Trail {
    /** The open buffer, `t.buf`. */
    var buf: ByteString
    /** Buffers flushed and not yet taken by a writer, oldest first. */
    var payloads: seq<ByteString>
    /** The channel's capacity: the number of writers. */
    const capacity: nat
    /** Whether `Close` has closed the payload channel. */
    var closed: bool
    const pool: Pool
    /** The payloads the writers have handed on, in the order they took them. */
    var delivered: seq<ByteString>
    /** Every line written so far, concatenated in order. */
    ghost var written: ByteString

    /**
     * Nothing written is lost or reordered: what was delivered, then what is
     * queued, then the open buffer, is exactly what was written.
     */
    ghost predicate Ordered()
      reads this
    {
      |payloads| <= capacity && Flatten(delivered + payloads) + buf == written
    }

    /**
     * `Ordered`, with every pooled buffer empty, so that the buffer `Flush`
     * opens starts empty and the order is kept across a flush.
     */
    ghost predicate Valid()
      reads this, pool
    {
      pool.AllEmpty() && Ordered()
    }

    /** `New(ws)`: a queue with room for one buffer per writer, and an open buffer from the pool. */
    constructor (writers: nat, pool: Pool)
      modifies pool
      ensures capacity == writers && this.pool == pool
      ensures payloads == [] && delivered == [] && !closed && written == []
      ensures old(pool.free) == [] ==> buf == [] && pool.free == []
      ensures old(pool.free) != [] ==>
                buf == old(pool.free)[|old(pool.free)| - 1] && pool.free == old(pool.free)[..|old(pool.free)| - 1]
      ensures old(pool.AllEmpty()) ==> Valid()
    {
      capacity := writers;
      this.pool := pool;
      payloads := [];
      delivered := [];
      closed := false;
      written := [];
      buf := [];
      new;
      buf := pool.Get();
    }

    /** Appends the encoded line to the open buffer; nothing is queued. Like the
        source, it does not refuse a write after `Close`. */
    method WriteLine(seriesKey: ByteString, fields: seq<Field>, time: Int64)
      modifies this
      ensures buf == old(buf) + River.Line(seriesKey, fields, time)
      ensures written == old(written) + River.Line(seriesKey, fields, time)
      ensures payloads == old(payloads) && delivered == old(delivered) && closed == old(closed)
      ensures old(Valid()) ==> Valid()
    {
      var w := new River.Writer.InMemory(buf);
      var err := River.WriteLine(w, seriesKey, fields, time);
      assert err == None;
      buf := w.written;
      written := written + River.Line(seriesKey, fields, time);
    }

    /** Queues the open buffer, even an empty one, behind the others, then opens one from the pool. */
    method Flush()
      requires !closed && |payloads| < capacity
      modifies this, pool
      ensures payloads == old(payloads) + [old(buf)]
      ensures old(pool.free) == [] ==> buf == [] && pool.free == []
      ensures old(pool.free) != [] ==>
                buf == old(pool.free)[|old(pool.free)| - 1] && pool.free == old(pool.free)[..|old(pool.free)| - 1]
      ensures delivered == old(delivered) && written == old(written) && closed == old(closed)
      ensures old(Valid()) ==> Valid() && buf == []
    {
      payloads := payloads + [buf];
      buf := pool.Get();
      FlattenAppend(delivered + old(payloads), [old(buf)]);
      assert delivered + payloads == (delivered + old(payloads)) + [old(buf)];
    }

    /**
     * One turn of a writer's loop as written: it takes the oldest queued
     * buffer, hands its bytes on, and returns the buffer to the pool as it
     * is, still holding those bytes.
     */
    method Deliver()
      requires payloads != []
      modifies this, pool
      ensures delivered == old(delivered) + [old(payloads)[0]] && payloads == old(payloads)[1..]
      ensures pool.free == old(pool.free) + [old(payloads)[0]]
      ensures buf == old(buf) && written == old(written) && closed == old(closed)
      ensures old(Ordered()) ==> Ordered()
    {
      var b := payloads[0];
      assert old(payloads) == [b] + payloads[1..];
      payloads := payloads[1..];
      delivered := delivered + [b];
      assert delivered + payloads == old(delivered) + old(payloads);
      pool.Put(b);
    }

    /**
     * One turn of a writer's loop with the buffer reset before it goes back
     * to the pool, so that the pool hands out only empty buffers.
     */
    method DeliverAndReset()
      requires payloads != []
      modifies this, pool
      ensures delivered == old(delivered) + [old(payloads)[0]] && payloads == old(payloads)[1..]
      ensures pool.free == old(pool.free) + [[]]
      ensures buf == old(buf) && written == old(written) && closed == old(closed)
      ensures old(Valid()) ==> Valid()
    {
      var b := payloads[0];
      assert old(payloads) == [b] + payloads[1..];
      payloads := payloads[1..];
      delivered := delivered + [b];
      assert delivered + payloads == old(delivered) + old(payloads);
      b := [];
      pool.Put(b);
    }

    /**
     * `Close`: flushes, closes the queue and waits for the writers, which
     * take every remaining payload in order and return each buffer to the
     * pool as it is, still holding its bytes. Afterwards every line written
     * has been delivered, in order.
     */
    method Close()
      requires !closed && |payloads| < capacity
      modifies this, pool
      ensures closed && payloads == []
      ensures delivered == old(delivered) + old(payloads) + [old(buf)]
      ensures old(pool.free) == [] ==> buf == [] && pool.free == old(payloads) + [old(buf)]
      ensures old(pool.free) != [] ==>
                buf == old(pool.free)[|old(pool.free)| - 1]
                && pool.free == old(pool.free)[..|old(pool.free)| - 1] + old(payloads) + [old(buf)]
      ensures written == old(written)
      ensures old(Valid()) ==> buf == [] && Ordered() && Flatten(delivered) == written
    {
      Flush();
      closed := true;
      ghost var before := delivered;
      ghost var pooled := pool.free;
      ghost var openBuf := buf;
      ghost var all := delivered + payloads;
      while payloads != []
        invariant delivered + payloads == all
        invariant |before| <= |delivered| && delivered[..|before|] == before
        invariant pool.free == pooled + delivered[|before|..]
        invariant buf == openBuf
        invariant closed && written == old(written)
        invariant old(Valid()) ==> Ordered()
        decreases |payloads|
      {
        ghost var d := delivered;
        Deliver();
        assert delivered[|before|..] == d[|before|..] + [delivered[|delivered| - 1]];
      }
      assert delivered == all;
    }
  }
}
