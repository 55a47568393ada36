/**
 * Runs of the write handler: the request table of chasm/server_test.go and
 * the repeated batch writes of benchmark_test.go.
 */
module ChasmScenarios {
  import opened Bytes
  import opened Chasm

  const TestBody: ByteString := "m f=1"

  /**
   * The request table: `POST /write?db=x` is accepted, `POST /write` without
   * a database is refused with 400, `GET /write?db=x` with 405; all three are
   * counted, and only the accepted body's five bytes and zero newlines.
   */
  method HTTPWriteTable() returns (statuses: seq<nat>, stats: Stats)
    ensures statuses == [StatusNoContent, StatusBadRequest, StatusMethodNotAllowed]
    ensures stats == Stats(3, 5, 0)
  {
    var s := new Server();
    var r1 := s.Handle(Request(WritePath, "POST", [("db", "x")], TestBody));
    assert Count(TestBody, LineDelimiter) == 0;
    var r2 := s.Handle(Request(WritePath, "POST", [], TestBody));
    var r3 := s.Handle(Request(WritePath, "GET", [("db", "x")], []));
    statuses := [r1.status, r2.status, r3.status];
    stats := s.HTTPStats();
  }

  /** `n` copies of one line; `Framed` adds each copy's newline, giving the text `bytes.Repeat` builds. */
  function Repeat(line: ByteString, n: nat): (r: seq<ByteString>)
    ensures |r| == n && forall i :: 0 <= i < n ==> r[i] == line
  {
    seq(n, _ => line)
  }

  /**
   * The benchmark loop: `n` accepted writes of the same batch of
   * `numLines` lines add `n` times the batch's bytes and lines.
   */
  method RepeatedWrites(s: Server, line: ByteString, numLines: nat, n: nat)
    requires LineDelimiter !in line
    modifies s
    ensures s.httpRequestsAccepted == old(s.httpRequestsAccepted) + n
    ensures s.httpBytesAccepted == old(s.httpBytesAccepted) + n * |Framed(Repeat(line, numLines))|
    ensures s.httpLinesAccepted == old(s.httpLinesAccepted) + n * numLines
  {
    var lines := Framed(Repeat(line, numLines));
    var req := Request(WritePath, "POST", [(DbKey, "d")], lines);
    FramedBodyLines(req, Repeat(line, numLines));
    assert NamesDatabase(req);
    for i := 0 to n
      invariant s.httpRequestsAccepted == old(s.httpRequestsAccepted) + i
      invariant s.httpBytesAccepted == old(s.httpBytesAccepted) + i * |lines|
      invariant s.httpLinesAccepted == old(s.httpLinesAccepted) + i * numLines
    {
      var resp := s.Handle(req);
      assert (i + 1) * |lines| == i * |lines| + |lines|;
      assert (i + 1) * numLines == i * numLines + numLines;
    }
  }
}
