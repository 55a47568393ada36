/**
 * The load generator's daemon (cmd/avalanched/main.go): `scan` cuts the input
 * lines into batches for the writer workers, each worker's turn
 * (`processBatches`) hands one batch to the target server and records one
 * stats line about the write, and `flushStats` sends the collected stats
 * lines to the stats server.
 *
 * The daemon's package state is the class `Daemon`: the buffer pool, the
 * batch channel as the queue `batches`, and the stats buffer `statBuf`. The
 * two line-protocol writers are logs of what they were handed.
 */
module Avalanched {
  import opened Bytes
  import opened RiverField
  import River
  import opened BufferPool
  import opened Batching

  /** The buffers `scan` sends: each batch of lines, each line followed by a newline. */
  function Framings(chunks: seq<seq<ByteString>>): (r: seq<ByteString>)
    ensures |r| == |chunks|
  {
    seq(|chunks|, i requires 0 <= i < |chunks| => Framed(chunks[i]))
  }

  function Batches(lines: seq<ByteString>, linesPerBatch: int): (r: seq<ByteString>)
  {
    Framings(Chunks(lines, linesPerBatch))
  }

  lemma {:induction false} FlattenFramings(chunks: seq<seq<ByteString>>)
    ensures Flatten(Framings(chunks)) == Framed(Concat(chunks))
    decreases |chunks|
  {
    if chunks != [] {
      var init := chunks[..|chunks| - 1];
      var last := chunks[|chunks| - 1];
      assert chunks == init + [last];
      ConcatAppend(init, [last]);
      assert Concat([last]) == last;
      FramedAppend(Concat(init), last);
      assert Framings(chunks)[..|chunks| - 1] == Framings(init);
      FlattenFramings(init);
    }
  }

  /** The batches sent, back to back, are every input line followed by a newline, in order. */
  lemma BatchesFlatten(lines: seq<ByteString>, linesPerBatch: int)
    ensures Flatten(Batches(lines, linesPerBatch)) == Framed(lines)
  {
    FlattenFramings(Chunks(lines, linesPerBatch));
    ChunksConcat(lines, linesPerBatch);
  }

  /**
   * No batch is empty. For input lines that hold no newline (as the scanner
   * delivers them), every batch but the last holds exactly `linesPerBatch`
   * lines (one with a smaller setting), and the last between one and that.
   */
  lemma BatchSizes(lines: seq<ByteString>, linesPerBatch: int)
    ensures lines != [] <==> Batches(lines, linesPerBatch) != []
    ensures forall i :: 0 <= i < |Batches(lines, linesPerBatch)| ==> Batches(lines, linesPerBatch)[i] != []
    ensures (forall j :: 0 <= j < |lines| ==> '\n' !in lines[j]) ==>
              (forall i :: 0 <= i < |Batches(lines, linesPerBatch)| ==>
                 1 <= Count(Batches(lines, linesPerBatch)[i], '\n') <= Width(linesPerBatch))
              && (forall i :: 0 <= i < |Batches(lines, linesPerBatch)| - 1 ==>
                    Count(Batches(lines, linesPerBatch)[i], '\n') == Width(linesPerBatch))
  {
    var cs := Chunks(lines, linesPerBatch);
    var bs := Batches(lines, linesPerBatch);
    ChunksSizes(lines, linesPerBatch);
    forall i | 0 <= i < |bs|
      ensures bs[i] != []
    {
      assert bs[i] == Framed(cs[i]);
      assert bs[i][|bs[i]| - 1] == '\n';
    }
    if forall j :: 0 <= j < |lines| ==> '\n' !in lines[j] {
      ChunksMembers(lines, linesPerBatch);
      forall i | 0 <= i < |bs|
        ensures Count(bs[i], '\n') == |cs[i]|
      {
        forall j | 0 <= j < |cs[i]|
          ensures '\n' !in cs[i][j]
        {
          var x := cs[i][j];
          assert x in cs[i];
          assert x in lines;
          var jj :| 0 <= jj < |lines| && lines[jj] == x;
        }
        FramedNewlines(cs[i]);
      }
    }
  }

  /** With `linesPerBatch` at most 1, each line is sent as a batch of its own. */
  lemma BatchesOfOne(lines: seq<ByteString>, linesPerBatch: int)
    requires linesPerBatch <= 1
    ensures Batches(lines, linesPerBatch) == seq(|lines|, i requires 0 <= i < |lines| => lines[i] + ['\n'])
  {
    ChunksOfOne(lines, linesPerBatch);
    forall i | 0 <= i < |lines|
      ensures Framed([lines[i]]) == lines[i] + ['\n']
    {
      var one: seq<ByteString> := [lines[i]];
      assert one[..0] == [];
    }
  }

  /** The fields of one stats line, in the order `processBatches` lists them. */
  function StatFields(latNs: Int64, ok: bool, payloadBytes: Int64): (r: seq<Field>)
    ensures |r| == 3 && River.Kinds(r) == [IntKind, BoolKind, IntKind]
    ensures r[0].name == "latNs" && r[1].name == "ok" && r[2].name == "payloadBytes"
  {
    [Int("latNs", latNs), Bool("ok", ok), Int("payloadBytes", payloadBytes)]
  }

  /** The stats line recorded for one write. */
  function StatLine(statsKey: ByteString, latNs: Int64, ok: bool, payloadBytes: Int64, ts: Int64): ByteString
  {
    River.Line(statsKey, StatFields(latNs, ok, payloadBytes), ts)
  }

  /** The stats field names hold neither a `=` nor a `,`. */
  lemma StatNamesPlain()
    ensures '=' !in "latNs" && ',' !in "latNs"
    ensures '=' !in "ok" && ',' !in "ok"
    ensures '=' !in "payloadBytes" && ',' !in "payloadBytes"
  {
  }

  /** Each stats field renders without a separator of its own. */
  lemma StatFieldsPlain(latNs: Int64, ok: bool, payloadBytes: Int64)
    ensures forall i :: 0 <= i < 3 ==>
              '=' !in StatFields(latNs, ok, payloadBytes)[i].name && ',' !in Render(StatFields(latNs, ok, payloadBytes)[i])
  {
    StatNamesPlain();
    River.IntRenderExcludes("latNs", latNs, ',');
    BoolRendering("ok", ok);
    River.IntRenderExcludes("payloadBytes", payloadBytes, ',');
  }

  /**
   * A stats line reads back as a point of the stats series holding the
   * latency, the outcome and the payload size, stamped with the time.
   */
  lemma StatLineReadsBack(statsKey: ByteString, latNs: Int64, ok: bool, payloadBytes: Int64, ts: Int64)
    requires ' ' !in statsKey
    ensures River.ParsePoint(StatLine(statsKey, latNs, ok, payloadBytes, ts), [IntKind, BoolKind, IntKind])
            == Some(River.Point(statsKey, StatFields(latNs, ok, payloadBytes), ts))
  {
    StatFieldsPlain(latNs, ok, payloadBytes);
    River.PointRoundTrip(statsKey, StatFields(latNs, ok, payloadBytes), ts);
  }

  class Daemon {
    const pool: Pool
    /** The batch channel: batches sent by `scan` and not yet taken by a worker, oldest first. */
    var batches: seq<ByteString>
    /** `statBuf`: stats lines recorded and not yet flushed. */
    var statBuf: ByteString
    /** What the target server's writer was handed, in order. */
    var sent: seq<ByteString>
    /** What the stats server's writer was handed, in order. */
    var statsSent: seq<ByteString>
    /** The input lines read so far. */
    ghost var scanned: seq<ByteString>
    /** Every stats line recorded so far, concatenated in order. */
    ghost var statLines: ByteString

    /**
     * Nothing is lost or reordered: the batches handed to the target and
     * those still queued are the input read so far, framed; the stats
     * flushed and those still buffered are every stats line recorded. Every
     * buffer in the pool is empty, since each is reset before it is returned.
     */
    ghost predicate Valid()
      reads this, pool
    {
      pool.AllEmpty()
      && Flatten(sent + batches) == Framed(scanned)
      && Flatten(statsSent) + statBuf == statLines
    }

    /** The package state at start-up: `statBuf` is taken from a new pool. */
    constructor ()
      ensures batches == [] && sent == [] && statsSent == [] && statBuf == []
      ensures scanned == [] && statLines == []
      ensures Valid()
    {
      batches := [];
      sent := [];
      statsSent := [];
      scanned := [];
      statLines := [];
      statBuf := [];
      pool := new Pool();
      new;
      statBuf := pool.Get();
    }

    /**
     * `scan`: appends each input line and a newline to the open buffer, and
     * sends the buffer as soon as it holds `linesPerBatch` lines; a last,
     * partly filled buffer is sent at the end of the input, an empty one
     * is not.
     */
    method Scan(linesPerBatch: int, input: seq<ByteString>)
      requires Valid()
      modifies this, pool
      ensures batches == old(batches) + Batches(input, linesPerBatch)
      ensures scanned == old(scanned) + input
      ensures sent == old(sent) && statBuf == old(statBuf) && statsSent == old(statsSent) && statLines == old(statLines)
      ensures Valid()
    {
      var buf, n := ScanFullBatches(linesPerBatch, input);
      ScanTail(old(batches), batches, input, buf, n, linesPerBatch);
      if n > 0 {
        batches := batches + [buf];
      }
      ScanKeepsOrder(sent, old(batches), scanned, input, linesPerBatch);
      scanned := scanned + input;
    }

    /** Sends the open buffer on the batch channel and takes the next one from the pool. */
    method SendBatch(b: ByteString) returns (next: ByteString)
      requires pool.AllEmpty()
      modifies this, pool
      ensures batches == old(batches) + [b] && next == [] && pool.AllEmpty()
      ensures sent == old(sent) && statBuf == old(statBuf) && statsSent == old(statsSent)
      ensures scanned == old(scanned) && statLines == old(statLines)
    {
      batches := batches + [b];
      next := pool.Get();
    }

    /**
     * The reading loop of `scan`: every time the open buffer holds
     * `linesPerBatch` lines it is sent and a buffer from the pool takes its
     * place. It leaves the last `n` lines, fewer than a batch, in `buf`.
     */
    method ScanFullBatches(linesPerBatch: int, input: seq<ByteString>) returns (buf: ByteString, n: nat)
      requires pool.AllEmpty()
      modifies this, pool
      ensures n < Width(linesPerBatch) && n <= |input| && Whole(|input| - n, linesPerBatch)
      ensures buf == Framed(input[|input| - n..])
      ensures batches == old(batches) + Batches(input[..|input| - n], linesPerBatch)
      ensures pool.AllEmpty()
      ensures sent == old(sent) && statBuf == old(statBuf) && statsSent == old(statsSent)
      ensures scanned == old(scanned) && statLines == old(statLines)
    {
      buf := pool.Get();
      n := 0;
      ghost var done: nat := 0;
      for i := 0 to |input|
        invariant done + n == i && n < Width(linesPerBatch) && Whole(done, linesPerBatch)
        invariant buf == Framed(input[done..i])
        invariant batches == old(batches) + Batches(input[..done], linesPerBatch)
        invariant pool.AllEmpty()
        invariant sent == old(sent) && statBuf == old(statBuf) && statsSent == old(statsSent)
        invariant scanned == old(scanned) && statLines == old(statLines)
      {
        buf, n, done := ScanOne(linesPerBatch, input, i, old(batches), buf, n, done);
      }
      assert input[|input| - n..|input|] == input[|input| - n..];
    }

    /** One turn of the reading loop: the line goes into the buffer, and a full buffer is sent. */
    method ScanOne(linesPerBatch: int, input: seq<ByteString>, i: nat, ghost start: seq<ByteString>,
                   buf: ByteString, n: nat, ghost done: nat)
        returns (buf': ByteString, n': nat, ghost done': nat)
      requires i < |input| && done + n == i && n < Width(linesPerBatch) && Whole(done, linesPerBatch)
      requires buf == Framed(input[done..i])
      requires batches == start + Batches(input[..done], linesPerBatch)
      requires pool.AllEmpty()
      modifies this, pool
      ensures done' + n' == i + 1 && n' < Width(linesPerBatch) && Whole(done', linesPerBatch)
      ensures buf' == Framed(input[done'..i + 1])
      ensures batches == start + Batches(input[..done'], linesPerBatch)
      ensures pool.AllEmpty()
      ensures sent == old(sent) && statBuf == old(statBuf) && statsSent == old(statsSent)
      ensures scanned == old(scanned) && statLines == old(statLines)
    {
      FramedSnoc(input, done, i);
      buf' := buf + input[i] + ['\n'];
      n' := n + 1;
      done' := done;
      if n' >= linesPerBatch {
        SendFull(input, done, n', linesPerBatch);
        buf' := SendBatch(buf');
        assert batches == start + (Batches(input[..done], linesPerBatch) + [Framed(input[done..i + 1])]);
        n' := 0;
        done' := i + 1;
      }
    }

    /**
     * A worker's turn (`processBatches`): it hands the oldest batch to the
     * target's writer, records one stats line for the write, and returns the
     * batch, reset, to the pool. The writer's reported latency and outcome
     * and the clock's reading come in as arguments; a Go length is an `int`,
     * so it fits an `int64`.
     */
    method ProcessBatch(statsKey: ByteString, latNs: Int64, writeErr: Option<ByteString>, ts: Int64)
      requires batches != [] && |batches[0]| <= Int64Max
      requires Valid()
      modifies this, pool
      ensures sent == old(sent) + [old(batches)[0]] && batches == old(batches)[1..]
      ensures statBuf == old(statBuf) + StatLine(statsKey, latNs, writeErr.None?, |old(batches)[0]|, ts)
      ensures statLines == old(statLines) + StatLine(statsKey, latNs, writeErr.None?, |old(batches)[0]|, ts)
      ensures pool.free == old(pool.free) + [[]]
      ensures statsSent == old(statsSent) && scanned == old(scanned)
      ensures Valid()
    {
      var batch := batches[0];
      assert old(batches) == [batch] + batches[1..];
      batches := batches[1..];
      sent := sent + [batch];
      assert sent + batches == old(sent) + old(batches);

      RecordStat(statsKey, StatFields(latNs, writeErr.None?, |batch|), ts);
      batch := [];
      pool.Put(batch);
    }

    /** Appends one encoded stats line to `statBuf`, under the stats lock. */
    method RecordStat(statsKey: ByteString, fields: seq<Field>, ts: Int64)
      modifies this
      ensures statBuf == old(statBuf) + River.Line(statsKey, fields, ts)
      ensures statLines == old(statLines) + River.Line(statsKey, fields, ts)
      ensures batches == old(batches) && sent == old(sent) && statsSent == old(statsSent) && scanned == old(scanned)
      ensures old(Flatten(statsSent) + statBuf == statLines) ==> Flatten(statsSent) + statBuf == statLines
    {
      var w := new River.Writer.InMemory(statBuf);
      var err := River.WriteLine(w, statsKey, fields, ts);
      assert err == None;
      statBuf := w.written;
      statLines := statLines + River.Line(statsKey, fields, ts);
      assert Flatten(statsSent) + statBuf == (Flatten(statsSent) + old(statBuf)) + River.Line(statsKey, fields, ts);
    }

    /**
     * `flushStats`: with nothing recorded it does nothing; otherwise it takes
     * a new stats buffer from the pool, hands the old one's bytes to the
     * stats writer, and returns the old buffer, reset, to the pool.
     */
    method FlushStats()
      requires Valid()
      modifies this, pool
      ensures old(statBuf) == [] ==> unchanged(this) && unchanged(pool)
      ensures old(statBuf) != [] ==>
                statsSent == old(statsSent) + [old(statBuf)] && statBuf == []
                && pool.free == (if old(pool.free) == [] then [[]] else old(pool.free))
      ensures batches == old(batches) && sent == old(sent) && scanned == old(scanned) && statLines == old(statLines)
      ensures Valid()
    {
      if |statBuf| == 0 {
        return;
      }
      var buf := statBuf;
      statBuf := pool.Get();
      statsSent := statsSent + [buf];
      FlattenAppend(old(statsSent), [buf]);
      assert Flatten([buf]) == Flatten([buf][..0]) + buf;
      buf := [];
      pool.Put(buf);
      assert old(pool.free) != [] ==> old(pool.free) == old(pool.free)[..|old(pool.free)| - 1] + [[]];
    }
  }

  lemma FramedSnoc(input: seq<ByteString>, lo: nat, hi: nat)
    requires lo <= hi < |input|
    ensures Framed(input[lo..hi + 1]) == Framed(input[lo..hi]) + input[hi] + ['\n']
  {
    assert input[lo..hi + 1][..hi - lo] == input[lo..hi];
  }

  /** Queuing the batches of more input keeps the queue in step with the input read. */
  lemma ScanKeepsOrder(sent: seq<ByteString>, queued: seq<ByteString>, scanned: seq<ByteString>,
                       input: seq<ByteString>, linesPerBatch: int)
    requires Flatten(sent + queued) == Framed(scanned)
    ensures Flatten(sent + (queued + Batches(input, linesPerBatch))) == Framed(scanned + input)
  {
    BatchesFlatten(input, linesPerBatch);
    AppendKeepsOrder(sent, queued, scanned, input, Batches(input, linesPerBatch));
  }

  /** Queuing buffers that hold the framed new input keeps the queue in step with the input read. */
  lemma AppendKeepsOrder(sent: seq<ByteString>, queued: seq<ByteString>, scanned: seq<ByteString>,
                         input: seq<ByteString>, bs: seq<ByteString>)
    requires Flatten(sent + queued) == Framed(scanned)
    requires Flatten(bs) == Framed(input)
    ensures Flatten(sent + (queued + bs)) == Framed(scanned + input)
  {
    AppendAssoc(sent, queued, bs);
    FlattenAppend(sent + queued, bs);
    FramedAppend(scanned, input);
  }

  /** The send when the open buffer reaches the batch size: `input[start..start + n]` is the next batch. */
  lemma SendFull(input: seq<ByteString>, start: nat, n: nat, linesPerBatch: int)
    requires 1 <= n && n >= linesPerBatch && n <= Width(linesPerBatch)
    requires start + n <= |input| && Whole(start, linesPerBatch)
    ensures Batches(input[..start + n], linesPerBatch)
            == Batches(input[..start], linesPerBatch) + [Framed(input[start..start + n])]
    ensures Whole(start + n, linesPerBatch)
  {
    assert n == Width(linesPerBatch);
    WholeGrows(start, linesPerBatch);
    ChunksSnoc(input, start, n, linesPerBatch);
    FramingsSnoc(Chunks(input[..start], linesPerBatch), input[start..start + n]);
  }

  /** After the loop, sending the open buffer if it holds lines completes the batches of the input. */
  lemma ScanTail(start: seq<ByteString>, queued: seq<ByteString>, input: seq<ByteString>,
                 buf: ByteString, n: nat, linesPerBatch: int)
    requires n < Width(linesPerBatch) && n <= |input| && Whole(|input| - n, linesPerBatch)
    requires buf == Framed(input[|input| - n..])
    requires queued == start + Batches(input[..|input| - n], linesPerBatch)
    ensures (if n > 0 then queued + [buf] else queued) == start + Batches(input, linesPerBatch)
  {
    if n > 0 {
      SendTail(input, n, linesPerBatch);
    } else {
      assert input[..|input|] == input;
    }
  }

  /** The send at the end of the input: the last `n` lines are the last batch. */
  lemma SendTail(input: seq<ByteString>, n: nat, linesPerBatch: int)
    requires 1 <= n < Width(linesPerBatch) && n <= |input|
    requires Whole(|input| - n, linesPerBatch)
    ensures Batches(input, linesPerBatch)
            == Batches(input[..|input| - n], linesPerBatch) + [Framed(input[|input| - n..])]
  {
    ChunksSnoc(input, |input| - n, n, linesPerBatch);
    assert input[..|input|] == input;
    assert input[|input| - n..|input|] == input[|input| - n..];
    FramingsSnoc(Chunks(input[..|input| - n], linesPerBatch), input[|input| - n..]);
  }

  /** One more batch adds its framed lines as one more buffer. */
  lemma FramingsSnoc(chunks: seq<seq<ByteString>>, run: seq<ByteString>)
    ensures Framings(chunks + [run]) == Framings(chunks) + [Framed(run)]
  {
  }
}
