/**
 * The fake InfluxDB server's write handler (chasm/server.go): it accepts
 * `POST /write?db=<name>` with 204 No Content and counts the bytes and lines
 * of the body; it answers 404 for any other path, 405 for any other method
 * on `/write`, and 400 with a short message when the `db` parameter is
 * missing or empty (status codes as in sections 15.3.5, 15.5.1, 15.5.5 and
 * 15.5.6 of RFC 9110). Every request, whatever its answer, is counted.
 */
module Chasm {
  import opened Bytes

  const StatusNoContent: nat := 204
  const StatusBadRequest: nat := 400
  const StatusNotFound: nat := 404
  const StatusMethodNotAllowed: nat := 405

  const WritePath: ByteString := "/write"
  const DbKey: ByteString := "db"
  const MissingDbMessage: ByteString := "database is required"
  const LineDelimiter: Byte := '\n'

  /** The parts of an HTTP request the handler looks at. */
  datatype Request = Request(path: ByteString, httpMethod: ByteString, queryArgs: seq<(ByteString, ByteString)>, body: ByteString)

  datatype Response = Response(status: nat, body: ByteString)

  /** The counters `HTTPStats` reports. */
  datatype Stats = Stats(requestsAccepted: nat, bytesAccepted: nat, linesAccepted: nat)

  /** `args.PeekBytes(key)`: the value of the first argument named `key`, or nothing. */
  function Peek(args: seq<(ByteString, ByteString)>, key: ByteString): (v: ByteString)
    ensures (forall i :: 0 <= i < |args| ==> args[i].0 != key) ==> v == []
    ensures forall i :: 0 <= i < |args| && args[i].0 == key && (forall j :: 0 <= j < i ==> args[j].0 != key) ==>
              v == args[i].1
  {
    if args == [] then []
    else if args[0].0 == key then args[0].1
    else
      assert forall i :: 1 <= i < |args| ==> args[1..][i - 1] == args[i];
      Peek(args[1..], key)
  }

  predicate IsPost(req: Request) {
    req.httpMethod == "POST"
  }

  /** A database was named: the `db` argument is present and not empty. */
  predicate NamesDatabase(req: Request) {
    |Peek(req.queryArgs, DbKey)| != 0
  }

  /**
   * The handler's answer. The path is checked first, then the method, then
   * the database, so each status is given exactly when every earlier check
   * passed and its own failed.
   */
  function Decide(req: Request): (r: Response)
    ensures r.status == StatusNotFound <==> req.path != WritePath
    ensures r.status == StatusMethodNotAllowed <==> req.path == WritePath && !IsPost(req)
    ensures r.status == StatusBadRequest <==> req.path == WritePath && IsPost(req) && !NamesDatabase(req)
    ensures r.status == StatusNoContent <==> req.path == WritePath && IsPost(req) && NamesDatabase(req)
    ensures r.body == (if r.status == StatusBadRequest then MissingDbMessage else [])
  {
    if req.path != WritePath then Response(StatusNotFound, [])
    else if !IsPost(req) then Response(StatusMethodNotAllowed, [])
    else if !NamesDatabase(req) then Response(StatusBadRequest, MissingDbMessage)
    else Response(StatusNoContent, [])
  }

  /** What an accepted request adds to the bytes and lines counters. */
  function Accepted(req: Request): (r: (nat, nat))
    ensures r.0 == |req.body|
    ensures r.1 <= |req.body| && (r.1 == 0 <==> LineDelimiter !in req.body)
  {
    (|req.body|, Count(req.body, LineDelimiter))
  }

  /** Counters never decrease. */
  predicate Grown(before: Stats, after: Stats) {
    before.requestsAccepted <= after.requestsAccepted
    && before.bytesAccepted <= after.bytesAccepted
    && before.linesAccepted <= after.linesAccepted
  }

  class Server {
    var httpRequestsAccepted: nat
    var httpLinesAccepted: nat
    var httpBytesAccepted: nat

    constructor ()
      ensures HTTPStats() == Stats(0, 0, 0)
    {
      httpRequestsAccepted := 0;
      httpLinesAccepted := 0;
      httpBytesAccepted := 0;
    }

    function HTTPStats(): (s: Stats)
      reads this
    {
      Stats(httpRequestsAccepted, httpBytesAccepted, httpLinesAccepted)
    }

    /**
     * `fasthttpHandler`: counts the request, answers by `Decide`, and adds
     * the body's bytes and newlines to the counters only when it accepts
     * the write.
     */
    method Handle(req: Request) returns (resp: Response)
      modifies this
      ensures resp == Decide(req)
      ensures httpRequestsAccepted == old(httpRequestsAccepted) + 1
      ensures resp.status == StatusNoContent ==>
                httpBytesAccepted == old(httpBytesAccepted) + Accepted(req).0
                && httpLinesAccepted == old(httpLinesAccepted) + Accepted(req).1
      ensures resp.status != StatusNoContent ==>
                httpBytesAccepted == old(httpBytesAccepted) && httpLinesAccepted == old(httpLinesAccepted)
      ensures Grown(old(HTTPStats()), HTTPStats())
    {
      httpRequestsAccepted := httpRequestsAccepted + 1;
      if req.path != WritePath {
        return Response(StatusNotFound, []);
      }

      if req.httpMethod != "POST" {
        return Response(StatusMethodNotAllowed, []);
      }

      var db := Peek(req.queryArgs, DbKey);
      if |db| == 0 {
        return Response(StatusBadRequest, MissingDbMessage);
      }

      var body := req.body;
      httpBytesAccepted := httpBytesAccepted + |body|;
      httpLinesAccepted := httpLinesAccepted + Count(body, LineDelimiter);
      return Response(StatusNoContent, []);
    }
  }

  /**
   * A body made of newline-terminated lines, none holding a newline of its
   * own, counts as exactly that many lines.
   */
  lemma FramedBodyLines(req: Request, lines: seq<ByteString>)
    requires req.body == Framed(lines)
    requires forall i :: 0 <= i < |lines| ==> LineDelimiter !in lines[i]
    ensures Accepted(req).1 == |lines|
  {
    FramedNewlines(lines);
  }
}
