/**
 * Runs of the trail accumulator: the flush test of trail/trail_test.go, a
 * batch of lines followed by one flush, and the recycled-buffer resend that
 * the writers' loop (trail/trail.go `process`) allows.
 */
module TrailScenarios {
  import opened Bytes
  import Decimal
  import opened RiverField
  import River
  import opened BufferPool
  import opened Trails

  /** The arguments of one `WriteLine` call. */
  datatype Entry = Entry(seriesKey: ByteString, fields: seq<Field>, time: Int64)

  function LineOf(e: Entry): ByteString
  {
    River.Line(e.seriesKey, e.fields, e.time)
  }

  /** The encoded lines of a run of entries, concatenated in order. */
  function Lines(entries: seq<Entry>): (r: ByteString)
    ensures entries == [] ==> r == []
  {
    if entries == [] then [] else Lines(entries[..|entries| - 1]) + LineOf(entries[|entries| - 1])
  }

  lemma LinesSnoc(entries: seq<Entry>, i: nat)
    requires i < |entries|
    ensures Lines(entries[..i + 1]) == Lines(entries[..i]) + LineOf(entries[i])
  {
    assert entries[..i + 1][..i] == entries[..i];
  }

  /** A run of `WriteLine` calls: the lines are appended in call order and nothing is queued. */
  method WriteAll(t: Trail, entries: seq<Entry>)
    requires !t.closed
    modifies t
    ensures t.buf == old(t.buf) + Lines(entries)
    ensures t.written == old(t.written) + Lines(entries)
    ensures t.payloads == old(t.payloads) && t.delivered == old(t.delivered) && !t.closed
    ensures old(t.Valid()) ==> t.Valid()
  {
    for i := 0 to |entries|
      invariant t.buf == old(t.buf) + Lines(entries[..i])
      invariant t.written == old(t.written) + Lines(entries[..i])
      invariant t.payloads == old(t.payloads) && t.delivered == old(t.delivered) && !t.closed
      invariant old(t.Valid()) ==> t.Valid()
    {
      var e := entries[i];
      t.WriteLine(e.seriesKey, e.fields, e.time);
      LinesSnoc(entries, i);
      AppendAssoc(old(t.buf), Lines(entries[..i]), LineOf(e));
      AppendAssoc(old(t.written), Lines(entries[..i]), LineOf(e));
    }
    assert entries[..|entries|] == entries;
  }

  /**
   * A run of `WriteLine` calls followed by one `Flush`: the queued payload is
   * whatever the open buffer held, then every line in call order, and
   * nothing reaches the queue before the flush.
   */
  method WriteThenFlush(t: Trail, entries: seq<Entry>)
    requires !t.closed && |t.payloads| < t.capacity
    modifies t, t.pool
    ensures t.payloads == old(t.payloads) + [old(t.buf) + Lines(entries)]
    ensures t.delivered == old(t.delivered) && t.written == old(t.written) + Lines(entries)
    ensures old(t.Valid()) ==> t.Valid() && t.buf == []
  {
    WriteAll(t, entries);
    t.Flush();
  }

  const TestKey: ByteString := "cpu,host=h1"
  const TestFields: seq<Field> := [Int("usage", 99)]
  const TestTime: Int64 := 123
  /** `cpu,host=h1 usage=99i 123` and a newline, spelled part by part. */
  const TestLine: ByteString := TestKey + " " + "usage=99i" + " " + "123" + "\n"

  lemma TestLineText()
    ensures River.Line(TestKey, TestFields, TestTime) == TestLine
  {
    assert Decimal.Text(99) == "99" by {
      Decimal.DigitsSnoc(9, 9);
    }
    assert Decimal.Text(123) == "123" by {
      Decimal.DigitsSnoc(1, 2);
      Decimal.DigitsSnoc(12, 3);
    }
    assert River.FieldsText(TestFields) == "usage=99i" by {
      River.FieldsTextSnoc(TestFields, 0);
      assert TestFields[..0] == [];
      assert TestFields[..1] == TestFields;
    }
  }

  /**
   * The flush test: one writer, one line. Before the flush nothing is
   * queued; after it the writer receives exactly the encoded line.
   */
  method FlushExample() returns (received: seq<ByteString>)
    ensures received == [TestLine]
  {
    var pool := new Pool();
    var t := new Trail(1, pool);
    assert t.buf == [] && t.payloads == [];
    t.WriteLine(TestKey, TestFields, TestTime);
    assert t.payloads == [];
    assert t.buf == River.Line(TestKey, TestFields, TestTime);
    t.Flush();
    assert t.payloads == [River.Line(TestKey, TestFields, TestTime)];
    t.Deliver();
    received := t.delivered;
    TestLineText();
  }

  /**
   * One line, a flush and a writer's turn as written: the payload is the
   * open buffer with the line after it, the flush opens the buffer the pool
   * returned last, and the delivered buffer goes back to the pool unreset.
   */
  method RoundAsWritten(t: Trail, e: Entry)
    requires !t.closed && t.payloads == [] && t.capacity >= 1
    modifies t, t.pool
    ensures t.delivered == old(t.delivered) + [old(t.buf) + LineOf(e)]
    ensures old(t.pool.free) == [] ==> t.buf == [] && t.pool.free == [old(t.buf) + LineOf(e)]
    ensures old(t.pool.free) != [] ==>
              t.buf == old(t.pool.free)[|old(t.pool.free)| - 1]
              && t.pool.free == old(t.pool.free)[..|old(t.pool.free)| - 1] + [old(t.buf) + LineOf(e)]
    ensures !t.closed && t.payloads == []
  {
    t.WriteLine(e.seriesKey, e.fields, e.time);
    t.Flush();
    t.Deliver();
  }

  /**
   * The writers' loop as written returns a delivered buffer to the pool
   * without resetting it. The next `Flush` after that takes the buffer back
   * as the open buffer, so its old line is sent a second time, in front of
   * the new one.
   */
  method Resend(e1: Entry, e2: Entry, e3: Entry) returns (received: seq<ByteString>)
    ensures received == [LineOf(e1), LineOf(e2), LineOf(e1) + LineOf(e3)]
  {
    var pool := new Pool();
    var t := new Trail(1, pool);
    assert t.buf == [] && pool.free == [] && t.delivered == [] && t.pool == pool;
    RoundAsWritten(t, e1);
    assert [] + LineOf(e1) == LineOf(e1);
    assert t.buf == [] && pool.free == [LineOf(e1)] && t.delivered == [LineOf(e1)];
    RoundAsWritten(t, e2);
    assert [] + LineOf(e2) == LineOf(e2);
    assert t.buf == LineOf(e1) && t.delivered == [LineOf(e1), LineOf(e2)];
    RoundAsWritten(t, e3);
    received := t.delivered;
  }

  /** One line, a flush and a writer's turn with the buffer reset: the line is delivered alone. */
  method RoundWithReset(t: Trail, e: Entry)
    requires !t.closed && t.payloads == [] && t.capacity >= 1 && t.buf == [] && t.pool.AllEmpty()
    modifies t, t.pool
    ensures t.delivered == old(t.delivered) + [LineOf(e)]
    ensures !t.closed && t.payloads == [] && t.buf == [] && t.pool.AllEmpty()
  {
    t.WriteLine(e.seriesKey, e.fields, e.time);
    assert t.buf == LineOf(e);
    t.Flush();
    assert t.payloads == [LineOf(e)];
    t.DeliverAndReset();
  }

  /** The same run with each buffer reset before it returns to the pool: every line is sent once. */
  method NoResend(e1: Entry, e2: Entry, e3: Entry) returns (received: seq<ByteString>)
    ensures received == [LineOf(e1), LineOf(e2), LineOf(e3)]
  {
    var pool := new Pool();
    var t := new Trail(1, pool);
    RoundWithReset(t, e1);
    RoundWithReset(t, e2);
    RoundWithReset(t, e3);
    received := t.delivered;
  }
}
