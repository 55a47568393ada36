/**
 * The fake server's daemon (cmd/chasmd/main.go): the collector encodes one
 * stats line per record the server reports, cuts the lines into payloads of
 * `BatchSize` records for the stats workers, and closes the payload channel
 * when the server's stats end; each stats worker (`report`) hands a payload
 * on and returns its buffer, reset, to the pool.
 *
 * The daemon's state is the class `Daemon`: the buffer pool, the payload
 * channel as the queue `payloads`, and the stats writers as the log
 * `reported` of what they were handed.
 */
module Chasmd {
  import opened Bytes
  import opened RiverField
  import River
  import opened BufferPool
  import opened Batching

  /** One stats record from the server, as the collector reads it. */
  datatype StatsRecord = StatsRecord(bytesAccepted: Uint64, ingestLatency: Int64, linesAccepted: Uint64, time: Int64)

  /** The record's fields, in the collector's order. */
  function RecordFields(r: StatsRecord): seq<Field>
  {
    [ Int("bytes", Uint64ToInt64(r.bytesAccepted)),
      Int("ingestLatNs", r.ingestLatency),
      Int("lines", Uint64ToInt64(r.linesAccepted)) ]
  }

  /**
   * Three integer fields, `bytes`, `ingestLatNs` and `lines`. The counters
   * are converted with `int64(...)`: one at or above 2^63 is written as a
   * negative value.
   */
  lemma RecordFieldsShape(r: StatsRecord)
    ensures |RecordFields(r)| == 3 && River.Kinds(RecordFields(r)) == [IntKind, IntKind, IntKind]
    ensures RecordFields(r)[0].name == "bytes" && RecordFields(r)[1].name == "ingestLatNs" && RecordFields(r)[2].name == "lines"
    ensures RecordFields(r)[0].Int? && RecordFields(r)[1].Int? && RecordFields(r)[2].Int?
    ensures RecordFields(r)[1].intValue == r.ingestLatency
    ensures r.bytesAccepted <= Int64Max ==> RecordFields(r)[0].intValue == r.bytesAccepted
    ensures r.linesAccepted <= Int64Max ==> RecordFields(r)[2].intValue == r.linesAccepted
    ensures r.bytesAccepted > Int64Max ==>
              RecordFields(r)[0].intValue < 0 && RecordFields(r)[0].intValue + 0x1_0000_0000_0000_0000 == r.bytesAccepted
    ensures r.linesAccepted > Int64Max ==>
              RecordFields(r)[2].intValue < 0 && RecordFields(r)[2].intValue + 0x1_0000_0000_0000_0000 == r.linesAccepted
  {
  }

  /** The stats line written for one record, stamped with the record's time. */
  function RecordLine(seriesKey: ByteString, r: StatsRecord): ByteString
  {
    River.Line(seriesKey, RecordFields(r), r.time)
  }

  /** The stats line of each record, in order. */
  function LinesOf(seriesKey: ByteString, records: seq<StatsRecord>): (r: seq<ByteString>)
    ensures |r| == |records|
  {
    seq(|records|, i requires 0 <= i < |records| => RecordLine(seriesKey, records[i]))
  }

  /** The stats lines of a run of records, back to back. */
  function RecordLines(seriesKey: ByteString, records: seq<StatsRecord>): ByteString
  {
    Flatten(LinesOf(seriesKey, records))
  }

  /** Each batch of lines, back to back. */
  function Flattens(chunks: seq<seq<ByteString>>): (r: seq<ByteString>)
    ensures |r| == |chunks|
  {
    seq(|chunks|, i requires 0 <= i < |chunks| => Flatten(chunks[i]))
  }

  /** The payloads the collector sends for a run of encoded lines. */
  function Payloads(lines: seq<ByteString>, batchSize: int): (r: seq<ByteString>)
  {
    Flattens(Chunks(lines, batchSize))
  }

  lemma FlattenSnoc(lines: seq<ByteString>, lo: nat, hi: nat)
    requires lo <= hi < |lines|
    ensures Flatten(lines[lo..hi + 1]) == Flatten(lines[lo..hi]) + lines[hi]
  {
    assert lines[lo..hi + 1][..hi - lo] == lines[lo..hi];
  }

  lemma {:induction false} FlattenChunks(chunks: seq<seq<ByteString>>)
    ensures Flatten(Flattens(chunks)) == Flatten(Concat(chunks))
    decreases |chunks|
  {
    var parts := Flattens(chunks);
    if chunks != [] {
      var init := chunks[..|chunks| - 1];
      var last := chunks[|chunks| - 1];
      assert chunks == init + [last];
      ConcatAppend(init, [last]);
      assert Concat([last]) == last;
      FlattenAppend(Concat(init), last);
      assert parts[..|chunks| - 1] == Flattens(init);
      FlattenChunks(init);
    }
  }

  /** The payloads, back to back, are the lines, in order. */
  lemma PayloadsFlatten(lines: seq<ByteString>, batchSize: int)
    ensures Flatten(Payloads(lines, batchSize)) == Flatten(lines)
  {
    FlattenChunks(Chunks(lines, batchSize));
    ChunksConcat(lines, batchSize);
  }

  /** No field of a stats line holds a newline. */
  lemma RecordFieldsNoNewline(r: StatsRecord)
    ensures '\n' !in River.FieldsText(RecordFields(r))
  {
    River.IntFieldsExclude(RecordFields(r), '\n');
  }

  /** A stats line holds one newline, its last byte, when the series key holds none. */
  lemma RecordLineNewlines(seriesKey: ByteString, r: StatsRecord)
    requires '\n' !in seriesKey
    ensures Count(RecordLine(seriesKey, r), '\n') == 1
  {
    RecordFieldsNoNewline(r);
    River.LineShape(seriesKey, RecordFields(r), r.time);
  }

  lemma {:induction false} FlattenNewlines(lines: seq<ByteString>)
    requires forall i :: 0 <= i < |lines| ==> Count(lines[i], '\n') == 1
    ensures Count(Flatten(lines), '\n') == |lines|
    decreases |lines|
  {
    if lines != [] {
      CountAppend(Flatten(lines[..|lines| - 1]), lines[|lines| - 1], '\n');
      FlattenNewlines(lines[..|lines| - 1]);
    }
  }

  /**
   * Payload sizes: for a series key without a newline, every payload but
   * the last holds exactly `BatchSize` lines (one with a smaller setting),
   * and the last between one and that; there is a payload exactly when
   * there was a record.
   */
  lemma PayloadSizes(seriesKey: ByteString, records: seq<StatsRecord>, batchSize: int)
    requires '\n' !in seriesKey
    ensures records != [] <==> Payloads(LinesOf(seriesKey, records), batchSize) != []
    ensures forall i :: 0 <= i < |Payloads(LinesOf(seriesKey, records), batchSize)| ==>
              1 <= Count(Payloads(LinesOf(seriesKey, records), batchSize)[i], '\n') <= Width(batchSize)
    ensures forall i :: 0 <= i < |Payloads(LinesOf(seriesKey, records), batchSize)| - 1 ==>
              Count(Payloads(LinesOf(seriesKey, records), batchSize)[i], '\n') == Width(batchSize)
  {
    var lines := LinesOf(seriesKey, records);
    var cs := Chunks(lines, batchSize);
    var ps := Payloads(lines, batchSize);
    ChunksSizes(lines, batchSize);
    ChunksMembers(lines, batchSize);
    forall i | 0 <= i < |ps|
      ensures Count(ps[i], '\n') == |cs[i]|
    {
      forall j | 0 <= j < |cs[i]|
        ensures Count(cs[i][j], '\n') == 1
      {
        var x := cs[i][j];
        assert x in cs[i];
        assert x in lines;
        var k :| 0 <= k < |lines| && lines[k] == x;
        RecordLineNewlines(seriesKey, records[k]);
      }
      FlattenNewlines(cs[i]);
    }
  }

  /** With `BatchSize` at most 1, every record's line is a payload of its own. */
  lemma PayloadsOfOne(seriesKey: ByteString, records: seq<StatsRecord>, batchSize: int)
    requires batchSize <= 1
    ensures Payloads(LinesOf(seriesKey, records), batchSize) == LinesOf(seriesKey, records)
  {
    var lines := LinesOf(seriesKey, records);
    ChunksOfOne(lines, batchSize);
    forall i | 0 <= i < |lines|
      ensures Flatten([lines[i]]) == lines[i]
    {
      var one: seq<ByteString> := [lines[i]];
      assert one[..0] == [];
    }
  }

  /** Every stats line reads back as the record's point of the stats series. */
  lemma RecordLineReadsBack(seriesKey: ByteString, r: StatsRecord)
    requires ' ' !in seriesKey
    ensures River.ParsePoint(RecordLine(seriesKey, r), [IntKind, IntKind, IntKind])
            == Some(River.Point(seriesKey, RecordFields(r), r.time))
  {
    var f := RecordFields(r);
    RecordFieldsShape(r);
    RecordNamesPlain();
    River.IntRenderExcludes("bytes", f[0].intValue, ',');
    River.IntRenderExcludes("ingestLatNs", f[1].intValue, ',');
    River.IntRenderExcludes("lines", f[2].intValue, ',');
    River.PointRoundTrip(seriesKey, f, r.time);
  }

  lemma RecordNamesPlain()
    ensures '=' !in "bytes" && ',' !in "bytes"
    ensures '=' !in "ingestLatNs" && ',' !in "ingestLatNs"
    ensures '=' !in "lines" && ',' !in "lines"
  {
  }

  /**
   * The daemon after start-up: `stats.workers` must be positive, and the
   * payload channel then has room for one payload per worker. A
   * non-positive setting stops the program (`null` here).
   */
  method Start(seriesKey: ByteString, batchSize: int, numWorkers: int) returns (d: Daemon?)
    ensures d == null <==> numWorkers <= 0
    ensures d != null ==>
              fresh(d) && d.capacity == numWorkers && d.seriesKey == seriesKey && d.batchSize == batchSize
              && d.payloads == [] && d.reported == [] && !d.closed && d.statLines == [] && d.Valid()
  {
    if numWorkers <= 0 {
      return null;
    }
    d := new Daemon(seriesKey, batchSize, numWorkers);
  }

  /** The send when the open buffer reaches `batchSize` lines: `lines[start..start + n]` is the next payload. */
  lemma SendFull(lines: seq<ByteString>, start: nat, n: nat, batchSize: int)
    requires 1 <= n && n >= batchSize && n <= Width(batchSize)
    requires start + n <= |lines| && Whole(start, batchSize)
    ensures Payloads(lines[..start + n], batchSize) == Payloads(lines[..start], batchSize) + [Flatten(lines[start..start + n])]
    ensures Whole(start + n, batchSize)
  {
    assert n == Width(batchSize);
    WholeGrows(start, batchSize);
    ChunksSnoc(lines, start, n, batchSize);
    FlattensSnoc(Chunks(lines[..start], batchSize), lines[start..start + n]);
  }

  /** The send when the records end: the last `n` lines are the last payload. */
  lemma SendTail(lines: seq<ByteString>, n: nat, batchSize: int)
    requires 1 <= n < Width(batchSize) && n <= |lines|
    requires Whole(|lines| - n, batchSize)
    ensures Payloads(lines, batchSize) == Payloads(lines[..|lines| - n], batchSize) + [Flatten(lines[|lines| - n..])]
  {
    ChunksSnoc(lines, |lines| - n, n, batchSize);
    assert lines[..|lines|] == lines;
    assert lines[|lines| - n..|lines|] == lines[|lines| - n..];
    FlattensSnoc(Chunks(lines[..|lines| - n], batchSize), lines[|lines| - n..]);
  }

  /** One more batch adds its lines, back to back, as one more payload. */
  lemma FlattensSnoc(chunks: seq<seq<ByteString>>, run: seq<ByteString>)
    ensures Flattens(chunks + [run]) == Flattens(chunks) + [Flatten(run)]
  {
  }

  /** After the loop, the partly filled buffer, if any, completes the payloads of all the lines. */
  lemma CollectTail(start: seq<ByteString>, queued: seq<ByteString>, lines: seq<ByteString>,
                    buf: ByteString, n: nat, batchSize: int)
    requires n < Width(batchSize) && n <= |lines| && Whole(|lines| - n, batchSize)
    requires buf == Flatten(lines[|lines| - n..])
    requires queued == start + Payloads(lines[..|lines| - n], batchSize)
    ensures (if n > 0 then queued + [buf] else queued) == start + Payloads(lines, batchSize)
  {
    if n > 0 {
      SendTail(lines, n, batchSize);
    } else {
      assert lines[..|lines|] == lines;
    }
  }

  /** Queuing the payloads of more lines keeps the queue in step with the lines written. */
  lemma CollectKeepsOrder(reported: seq<ByteString>, queued: seq<ByteString>, written: ByteString,
                          lines: seq<ByteString>, batchSize: int)
    requires Flatten(reported + queued) == written
    ensures Flatten(reported + (queued + Payloads(lines, batchSize))) == written + Flatten(lines)
  {
    var ps := Payloads(lines, batchSize);
    AppendAssoc(reported, queued, ps);
    FlattenAppend(reported + queued, ps);
    PayloadsFlatten(lines, batchSize);
  }

  class Daemon {
    const seriesKey: ByteString
    const batchSize: int
    /** The payload channel's capacity, `stats.workers`. */
    const capacity: nat
    const pool: Pool
    /** The payload channel: payloads sent and not yet taken by a worker, oldest first. */
    var payloads: seq<ByteString>
    /** Whether the collector has closed the payload channel. */
    var closed: bool
    /** What the stats writers were handed, in the order the workers took it. */
    var reported: seq<ByteString>
    /** Every stats line the collector has written, concatenated in order. */
    ghost var statLines: ByteString

    /**
     * Nothing is lost or reordered: what was reported, then what is queued,
     * is every stats line written. Every pooled buffer is empty, since each
     * is reset before it is returned.
     */
    ghost predicate Valid()
      reads this, pool
    {
      pool.AllEmpty() && Flatten(reported + payloads) == statLines
    }

    constructor (seriesKey: ByteString, batchSize: int, numWorkers: nat)
      ensures this.seriesKey == seriesKey && this.batchSize == batchSize && capacity == numWorkers
      ensures payloads == [] && reported == [] && !closed && statLines == [] && Valid()
    {
      this.seriesKey := seriesKey;
      this.batchSize := batchSize;
      capacity := numWorkers;
      pool := new Pool();
      payloads := [];
      closed := false;
      reported := [];
      statLines := [];
    }

    /**
     * `collectServerStats`: writes each record's line to the open buffer,
     * sends the buffer as soon as it holds `BatchSize` lines, sends a last,
     * partly filled buffer when the records end, and closes the channel.
     */
    method Collect(records: seq<StatsRecord>)
      requires !closed && Valid()
      modifies this, pool
      ensures payloads == old(payloads) + Payloads(LinesOf(seriesKey, records), batchSize)
      ensures statLines == old(statLines) + RecordLines(seriesKey, records)
      ensures closed && reported == old(reported)
      ensures Valid()
    {
      CollectLines(records, LinesOf(seriesKey, records));
    }

    /** `Collect`, given the lines the records encode to. */
    method CollectLines(records: seq<StatsRecord>, ghost lines: seq<ByteString>)
      requires |lines| == |records|
      requires forall j {:trigger records[j]} :: 0 <= j < |records| ==> lines[j] == RecordLine(seriesKey, records[j])
      requires !closed && Valid()
      modifies this, pool
      ensures payloads == old(payloads) + Payloads(lines, batchSize)
      ensures statLines == old(statLines) + Flatten(lines)
      ensures closed && reported == old(reported)
      ensures Valid()
    {
      var buf, n := CollectFullBatches(records, lines);
      CollectTail(old(payloads), payloads, lines, buf, n, batchSize);
      if n > 0 {
        payloads := payloads + [buf];
      }
      closed := true;
      CollectKeepsOrder(reported, old(payloads), statLines, lines, batchSize);
      statLines := statLines + Flatten(lines);
    }

    /**
     * The loop of `collectServerStats`: every time the open buffer holds
     * `BatchSize` lines it is sent and a buffer from the pool takes its
     * place. It leaves the last `n` lines, fewer than a batch, in `buf`.
     */
    method CollectFullBatches(records: seq<StatsRecord>, ghost lines: seq<ByteString>) returns (buf: ByteString, n: nat)
      requires |lines| == |records|
      requires forall j {:trigger records[j]} :: 0 <= j < |records| ==> lines[j] == RecordLine(seriesKey, records[j])
      requires pool.AllEmpty()
      modifies this, pool
      ensures n < Width(batchSize) && n <= |lines| && Whole(|lines| - n, batchSize)
      ensures buf == Flatten(lines[|lines| - n..])
      ensures payloads == old(payloads) + Payloads(lines[..|lines| - n], batchSize)
      ensures pool.AllEmpty()
      ensures closed == old(closed) && reported == old(reported) && statLines == old(statLines)
    {
      buf := pool.Get();
      n := 0;
      ghost var done: nat := 0;
      for i := 0 to |records|
        invariant done + n == i && n < Width(batchSize) && Whole(done, batchSize)
        invariant buf == Flatten(lines[done..i])
        invariant payloads == old(payloads) + Payloads(lines[..done], batchSize)
        invariant pool.AllEmpty()
        invariant closed == old(closed) && reported == old(reported) && statLines == old(statLines)
      {
        buf, n, done := CollectOne(records, lines, i, old(payloads), buf, n, done);
      }
      assert lines[|lines| - n..|lines|] == lines[|lines| - n..];
    }

    /** One turn of the loop: the record's line is written, and a full buffer is sent. */
    method CollectOne(records: seq<StatsRecord>, ghost lines: seq<ByteString>, i: nat, ghost start: seq<ByteString>,
                      buf: ByteString, n: nat, ghost done: nat)
        returns (buf': ByteString, n': nat, ghost done': nat)
      requires |lines| == |records|
      requires forall j {:trigger records[j]} :: 0 <= j < |records| ==> lines[j] == RecordLine(seriesKey, records[j])
      requires i < |lines| && done + n == i && n < Width(batchSize) && Whole(done, batchSize)
      requires buf == Flatten(lines[done..i])
      requires payloads == start + Payloads(lines[..done], batchSize)
      requires pool.AllEmpty()
      modifies this, pool
      ensures done' + n' == i + 1 && n' < Width(batchSize) && Whole(done', batchSize)
      ensures buf' == Flatten(lines[done'..i + 1])
      ensures payloads == start + Payloads(lines[..done'], batchSize)
      ensures pool.AllEmpty()
      ensures closed == old(closed) && reported == old(reported) && statLines == old(statLines)
    {
      FlattenSnoc(lines, done, i);
      buf' := WriteRecord(buf, records[i]);
      n' := n + 1;
      done' := done;
      if n' >= batchSize {
        SendFull(lines, done, n', batchSize);
        buf' := SendPayload(buf');
        assert payloads == start + (Payloads(lines[..done], batchSize) + [Flatten(lines[done..i + 1])]);
        n' := 0;
        done' := i + 1;
      }
    }

    /**
     * Writes one record's line to a buffer; a buffer's write cannot fail, so
     * the error `river.WriteLine` could return is discarded.
     */
    method WriteRecord(buf: ByteString, r: StatsRecord) returns (next: ByteString)
      ensures next == buf + RecordLine(seriesKey, r)
    {
      var w := new River.Writer.InMemory(buf);
      var err := River.WriteLine(w, seriesKey, RecordFields(r), r.time);
      next := w.written;
    }

    /** Sends the open buffer on the payload channel and takes the next one from the pool. */
    method SendPayload(b: ByteString) returns (next: ByteString)
      requires pool.AllEmpty()
      modifies this, pool
      ensures payloads == old(payloads) + [b] && next == [] && pool.AllEmpty()
      ensures closed == old(closed) && reported == old(reported) && statLines == old(statLines)
    {
      payloads := payloads + [b];
      next := pool.Get();
    }

    /**
     * One turn of a stats worker (`report`): it hands the oldest payload to
     * its writer, then resets the buffer and returns it to the pool.
     */
    method Report()
      requires payloads != [] && Valid()
      modifies this, pool
      ensures reported == old(reported) + [old(payloads)[0]] && payloads == old(payloads)[1..]
      ensures pool.free == old(pool.free) + [[]]
      ensures closed == old(closed) && statLines == old(statLines)
      ensures Valid()
    {
      var buf := payloads[0];
      assert old(payloads) == [buf] + payloads[1..];
      payloads := payloads[1..];
      reported := reported + [buf];
      assert reported + payloads == old(reported) + old(payloads);
      buf := [];
      pool.Put(buf);
    }

    /**
     * The workers after the channel is closed: they take every remaining
     * payload in order, after which every stats line written has been
     * reported, in order.
     */
    method Drain()
      requires closed && Valid()
      modifies this, pool
      ensures payloads == [] && reported == old(reported) + old(payloads)
      ensures closed && statLines == old(statLines)
      ensures Valid() && Flatten(reported) == statLines
    {
      while payloads != []
        invariant reported + payloads == old(reported) + old(payloads)
        invariant closed && statLines == old(statLines)
        invariant Valid()
        decreases |payloads|
      {
        Report();
      }
      assert reported == reported + payloads;
    }
  }
}
