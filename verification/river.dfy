/**
 * Line assembly (river/river.go `WriteLine`): one line-protocol line is
 *
 *     <series key> SP <field>{,<field>} SP <decimal timestamp> LF
 *
 * assembled in a local buffer and then copied to the destination writer, the
 * only step that can fail.
 */
module River {
  import opened Bytes
  import Decimal
  import opened RiverField
  import SeriesKeys

  /**
   * An `io.Writer` destination. Each write hands over the bytes it takes (all
   * of them, or at most `limit`), appends those to what the destination
   * holds, and reports the destination's `fault`, if any. `InMemory` is a
   * `bytes.Buffer`, which takes everything and never fails.
   */
  class Writer {
    var written: ByteString
    /** The most bytes one write takes, or `None` for no limit. */
    const limit: Option<nat>
    /** The error every write reports, or `None`. */
    const fault: Option<ByteString>

    constructor InMemory(contents: ByteString)
      ensures written == contents && limit == None && fault == None
    {
      written := contents;
      limit := None;
      fault := None;
    }

    /** A destination that takes at most `accepted` bytes of a write and then fails with `why`. */
    constructor Failing(why: ByteString, accepted: nat)
      ensures written == [] && limit == Some(accepted) && fault == Some(why)
    {
      written := [];
      limit := Some(accepted);
      fault := Some(why);
    }

    /**
     * A destination that takes at most `accepted` bytes of a write and reports
     * no error, against the `io.Writer` contract; `io.Copy` catches it.
     */
    constructor Short(accepted: nat)
      ensures written == [] && limit == Some(accepted) && fault == None
    {
      written := [];
      limit := Some(accepted);
      fault := None;
    }

    /** How many bytes of a write of `len` bytes the destination takes. */
    function Taken(len: nat): (n: nat)
      ensures n <= len
      ensures limit.None? ==> n == len
      ensures limit.Some? ==> n == len || n == limit.value < len
    {
      match limit
      case None => len
      case Some(k) => if k < len then k else len
    }

    /** `Write(p)`: returns how many bytes were taken, which are appended, and the fault. */
    method Write(p: ByteString) returns (n: nat, err: Option<ByteString>)
      modifies this
      ensures n == Taken(|p|) && err == fault
      ensures written == old(written) + p[..n]
    {
      n := Taken(|p|);
      written := written + p[..n];
      err := fault;
    }
  }

  /** The renderings of the fields, in the caller's order. */
  function Renders(fields: seq<Field>): (r: seq<ByteString>)
    ensures |r| == |fields|
  {
    seq(|fields|, i requires 0 <= i < |fields| => Render(fields[i]))
  }

  /** The field section: the renderings with a comma between consecutive ones. */
  function FieldsText(fields: seq<Field>): ByteString
  {
    Join(Renders(fields), ',')
  }

  /** The line `WriteLine` produces. */
  function Line(seriesKey: ByteString, fields: seq<Field>, time: Int64): (r: ByteString)
  {
    seriesKey + [' '] + FieldsText(fields) + [' '] + Decimal.Text(time) + ['\n']
  }

  const WriteErrorPrefix: ByteString := "Error writing line: "
  /** The text of `io.ErrShortWrite`. */
  const ShortWriteMessage: ByteString := "short write"

  /**
   * `WriteLine`: assembles the line in a fresh buffer, then copies it to `w`
   * with `io.Copy`. The destination receives the part of the line it takes.
   * The error is the destination's own, or a short write when it took less
   * than the whole line without one; either way it is prefixed.
   */
  method WriteLine(w: Writer, seriesKey: ByteString, fields: seq<Field>, time: Int64) returns (err: Option<ByteString>)
    modifies w
    ensures w.written == old(w.written) + Line(seriesKey, fields, time)[..w.Taken(|Line(seriesKey, fields, time)|)]
    ensures err == if w.fault.Some? then Some(WriteErrorPrefix + w.fault.value)
                   else if w.Taken(|Line(seriesKey, fields, time)|) < |Line(seriesKey, fields, time)| then Some(WriteErrorPrefix + ShortWriteMessage)
                   else None
    ensures err == None ==> w.written == old(w.written) + Line(seriesKey, fields, time)
    ensures w.fault == None ==> (err == None <==> w.written == old(w.written) + Line(seriesKey, fields, time))
  {
    var line := AssembleLine(seriesKey, fields, time);
    var n, copyErr := w.Write(line);
    assert line[..|line|] == line;
    if copyErr.Some? {
      return Some(WriteErrorPrefix + copyErr.value);
    }
    if n != |line| {
      return Some(WriteErrorPrefix + ShortWriteMessage);
    }
    return None;
  }

  /** The assembly half of `WriteLine`: the line built in a fresh buffer. */
  method AssembleLine(seriesKey: ByteString, fields: seq<Field>, time: Int64) returns (line: ByteString)
    ensures line == Line(seriesKey, fields, time)
  {
    var buf := new Buffer();
    buf.Write(seriesKey);
    buf.WriteByte(' ');
    WriteFields(buf, fields);
    buf.WriteByte(' ');

    var tsBuf := Decimal.Text(time);
    tsBuf := tsBuf + ['\n'];
    buf.Write(tsBuf);
    LineParts3(seriesKey, fields, time);
    line := buf.data;
  }

  /** The field loop of `WriteLine`: each field after a comma, except the first. */
  method WriteFields(buf: Buffer, fields: seq<Field>)
    modifies buf
    ensures buf.data == old(buf.data) + FieldsText(fields)
  {
    for i := 0 to |fields|
      invariant buf.data == old(buf.data) + FieldsText(fields[..i])
    {
      WriteField(buf, fields, i, old(buf.data));
    }
    assert fields[..|fields|] == fields;
  }

  /** One turn of the field loop: the comma (unless first) and the field at `i`. */
  method WriteField(buf: Buffer, fields: seq<Field>, i: nat, ghost before: ByteString)
    requires i < |fields| && buf.data == before + FieldsText(fields[..i])
    modifies buf
    ensures buf.data == before + FieldsText(fields[..i + 1])
  {
    ghost var prev := FieldsText(fields[..i]);
    ghost var sep: ByteString := if i == 0 then [] else [','];
    FieldsTextSnoc(fields, i);
    if i != 0 {
      buf.WriteByte(',');
    }
    ghost var mid := buf.data;
    assert mid == before + prev + sep;
    WriteToBuf(fields[i], buf);
    AppendAssoc(before, prev + sep, Render(fields[i]));
    AppendAssoc(before, prev, sep);
  }

  lemma LineParts3(seriesKey: ByteString, fields: seq<Field>, time: Int64)
    ensures Line(seriesKey, fields, time)
         == (seriesKey + [' ']) + FieldsText(fields) + [' '] + (Decimal.Text(time) + ['\n'])
  {
  }

  /** One more field extends the field section by a comma (unless it is the first) and its rendering. */
  lemma FieldsTextSnoc(fields: seq<Field>, i: nat)
    requires i < |fields|
    ensures FieldsText(fields[..i + 1])
         == FieldsText(fields[..i]) + (if i == 0 then [] else [',']) + Render(fields[i])
  {
    var rs := Renders(fields[..i + 1]);
    assert rs[..i] == Renders(fields[..i]);
    if i == 0 {
      assert fields[..0] == [];
    }
  }

  /**
   * The shape of a line: it starts with the series key and a space, ends with
   * the decimal timestamp and a newline, and an empty field list leaves two
   * spaces side by side.
   */
  lemma LineShape(seriesKey: ByteString, fields: seq<Field>, time: Int64)
    ensures |Line(seriesKey, fields, time)| > |seriesKey| + 1
    ensures Line(seriesKey, fields, time)[..|seriesKey| + 1] == seriesKey + [' ']
    ensures Line(seriesKey, fields, time)[|Line(seriesKey, fields, time)| - 1] == '\n'
    ensures fields == [] ==> Line(seriesKey, fields, time) == seriesKey + "  " + Decimal.Text(time) + "\n"
    ensures '\n' !in FieldsText(fields) && '\n' !in seriesKey ==> Count(Line(seriesKey, fields, time), '\n') == 1
  {
    var f := FieldsText(fields);
    var t := Decimal.Text(time);
    var l := Line(seriesKey, fields, time);
    var head := seriesKey + [' '];
    var body := head + f + [' '] + t;
    assert l == body + ['\n'];
    assert l[..|head|] == head;
    if fields == [] {
      assert f == [];
      assert l == seriesKey + "  " + t + "\n";
    }
    if '\n' !in f && '\n' !in seriesKey {
      NotInTimestamp(time, '\n');
      assert '\n' !in body;
      CountAppend(body, ['\n'], '\n');
    }
  }

  /** The decimal text of a timestamp holds only digits and a leading minus sign. */
  lemma NotInTimestamp(time: int, b: Byte)
    requires b != '-' && !Decimal.IsDigit(b)
    ensures b !in Decimal.Text(time)
  {
    var t := Decimal.Text(time);
    Decimal.TextDigits(time);
    forall i | 0 <= i < |t|
      ensures t[i] != b
    {
      if i > 0 || time >= 0 {
        assert Decimal.IsDigit(t[i]);
      }
    }
  }

  /** An integer field's rendering holds no byte outside its name, `=`, the digits, `-` and `i`. */
  lemma IntRenderExcludes(name: ByteString, v: Int64, b: Byte)
    requires b !in name && b != '=' && b != 'i' && b != '-' && !Decimal.IsDigit(b)
    ensures b !in Render(Int(name, v))
  {
    NotInTimestamp(v, b);
    assert Render(Int(name, v)) == name + ['='] + Decimal.Text(v) + ['i'];
  }

  /** A field section of integer fields holds no byte outside the names, `=`, `,`, the digits, `-` and `i`. */
  lemma IntFieldsExclude(fields: seq<Field>, b: Byte)
    requires forall i :: 0 <= i < |fields| ==> fields[i].Int? && b !in fields[i].name
    requires b != '=' && b != 'i' && b != '-' && b != ',' && !Decimal.IsDigit(b)
    ensures b !in FieldsText(fields)
  {
    var parts := Renders(fields);
    forall i | 0 <= i < |parts|
      ensures b !in parts[i]
    {
      IntRenderExcludes(fields[i].name, fields[i].intValue, b);
    }
    JoinExcludes(parts, ',', b);
  }

  /**
   * Fields keep the caller's order, with a comma only between consecutive
   * fields: splitting the field section at commas gives each rendering back.
   */
  lemma FieldsInOrder(fields: seq<Field>)
    requires |fields| >= 1
    requires forall i :: 0 <= i < |fields| ==> ',' !in Render(fields[i])
    ensures Split(FieldsText(fields), ',') == Renders(fields)
    ensures Count(FieldsText(fields), ',') == |fields| - 1
  {
    SplitJoin(Renders(fields), ',');
    JoinCommaCount(Renders(fields));
  }

  lemma {:induction false} JoinCommaCount(parts: seq<ByteString>)
    requires |parts| >= 1
    requires forall i :: 0 <= i < |parts| ==> ',' !in parts[i]
    ensures Count(Join(parts, ','), ',') == |parts| - 1
    decreases |parts|
  {
    if |parts| > 1 {
      var init := parts[..|parts| - 1];
      JoinCommaCount(init);
      CountAppend(Join(init, ','), [','], ',');
      CountAppend(Join(init, ',') + [','], parts[|parts| - 1], ',');
    }
  }

  /** The three space-separated sections of a line, the last read as a number. */
  datatype LineParts = LineParts(seriesKey: ByteString, fieldsText: ByteString, time: int)

  /** Reads a line back: series key up to the first space, timestamp after the last. */
  function ParseLine(line: ByteString): Option<LineParts>
  {
    if |line| == 0 || line[|line| - 1] != '\n' then None
    else ParseBody(line[..|line| - 1])
  }

  function ParseBody(body: ByteString): Option<LineParts>
  {
    match (IndexOf(body, ' '), LastIndexOf(body, ' '))
    case (Some(i), Some(j)) =>
      if i < j then
        match Decimal.Parse(body[j + 1..])
        case Some(t) => Some(LineParts(body[..i], body[i + 1..j], t))
        case None => None
      else None
    case _ => None
  }

  /** A line whose series key holds no space reads back as its key, field section and timestamp. */
  lemma LineRoundTrip(seriesKey: ByteString, fields: seq<Field>, time: Int64)
    requires ' ' !in seriesKey
    ensures ParseLine(Line(seriesKey, fields, time)) == Some(LineParts(seriesKey, FieldsText(fields), time))
  {
    var f := FieldsText(fields);
    var t := Decimal.Text(time);
    var body := seriesKey + [' '] + f + [' '] + t;
    var line := Line(seriesKey, fields, time);
    assert line == body + ['\n'];
    assert line[..|line| - 1] == body;
    NotInTimestamp(time, ' ');
    Decimal.TextRoundTrip(time);
    BodyRoundTrip(seriesKey, f, t, time);
  }

  /**
   * The body of a line splits at its first and last spaces back into its
   * parts, when neither the series key nor the timestamp holds a space.
   */
  lemma BodyRoundTrip(seriesKey: ByteString, f: ByteString, t: ByteString, time: int)
    requires ' ' !in seriesKey && ' ' !in t
    requires Decimal.Parse(t) == Some(time)
    ensures ParseBody(seriesKey + [' '] + f + [' '] + t) == Some(LineParts(seriesKey, f, time))
  {
    var x := seriesKey + [' '] + f;
    assert x + [' '] + t == seriesKey + [' '] + (f + [' '] + t);
    IndexAfterPrefix(seriesKey, ' ', f + [' '] + t);
    LastIndexBeforeSuffix(x, ' ', t);
    ParseBodyAt(seriesKey, f, t, time);
  }

  /** A body whose first space ends the series key and whose last space starts the timestamp. */
  lemma ParseBodyAt(seriesKey: ByteString, f: ByteString, t: ByteString, time: int)
    requires IndexOf(seriesKey + [' '] + f + [' '] + t, ' ') == Some(|seriesKey|)
    requires LastIndexOf(seriesKey + [' '] + f + [' '] + t, ' ') == Some(|seriesKey| + 1 + |f|)
    requires Decimal.Parse(t) == Some(time)
    ensures ParseBody(seriesKey + [' '] + f + [' '] + t) == Some(LineParts(seriesKey, f, time))
  {
    BodySlices(seriesKey, f, t);
  }

  /** The three parts of a body sit between its separating spaces. */
  lemma BodySlices(seriesKey: ByteString, f: ByteString, t: ByteString)
    ensures var body, i, j := seriesKey + [' '] + f + [' '] + t, |seriesKey|, |seriesKey| + 1 + |f|;
      body[..i] == seriesKey && body[i + 1..j] == f && body[j + 1..] == t
  {
    var x := seriesKey + [' '] + f;
    var body := x + [' '] + t;
    assert body[..|x|] == x;
    assert x[|seriesKey| + 1..] == f;
  }

  /** A point: what one call of `WriteLine` encodes. */
  datatype Point = Point(seriesKey: ByteString, fields: seq<Field>, time: int)

  /** Decodes field texts, each as the kind given for its position. */
  function DecodeFields(kinds: seq<Kind>, texts: seq<ByteString>): Option<seq<Field>>
    requires |kinds| == |texts|
  {
    if kinds == [] then Some([])
    else
      var n := |kinds| - 1;
      match (DecodeFields(kinds[..n], texts[..n]), Decode(kinds[n], texts[n]))
      case (Some(fs), Some(f)) => Some(fs + [f])
      case _ => None
  }

  /** Reads a whole line back as a point, given the kind of each field. */
  function ParsePoint(line: ByteString, kinds: seq<Kind>): Option<Point>
  {
    match ParseLine(line)
    case None => None
    case Some(parts) =>
      var texts := Split(parts.fieldsText, ',');
      if |texts| != |kinds| then None
      else
        match DecodeFields(kinds, texts)
        case None => None
        case Some(fs) => Some(Point(parts.seriesKey, fs, parts.time))
  }

  function Kinds(fields: seq<Field>): (r: seq<Kind>)
    ensures |r| == |fields|
  {
    seq(|fields|, i requires 0 <= i < |fields| => KindOf(fields[i]))
  }

  /** Decoding one more field text extends the decoded fields by that field. */
  lemma DecodeFieldsSnoc(kinds: seq<Kind>, texts: seq<ByteString>, fs: seq<Field>, f: Field)
    requires |kinds| == |texts| >= 1
    requires DecodeFields(kinds[..|kinds| - 1], texts[..|kinds| - 1]) == Some(fs)
    requires Decode(kinds[|kinds| - 1], texts[|kinds| - 1]) == Some(f)
    ensures DecodeFields(kinds, texts) == Some(fs + [f])
  {
  }

  lemma {:induction false} DecodeRenders(fields: seq<Field>)
    requires forall i :: 0 <= i < |fields| ==> '=' !in fields[i].name
    ensures DecodeFields(Kinds(fields), Renders(fields)) == Some(fields)
    decreases |fields|
  {
    if fields != [] {
      var n := |fields| - 1;
      var init, last := fields[..n], fields[n];
      assert fields == init + [last];
      var ks, rs := Kinds(fields), Renders(fields);
      assert ks[..n] == Kinds(init);
      assert rs[..n] == Renders(init);
      DecodeRenders(init);
      DecodeRender(last);
      DecodeFieldsSnoc(ks, rs, init, last);
    }
  }

  /**
   * Encoding a point and splitting the line at spaces, commas and `=` gives
   * back the series key, every field (its kind known) and the timestamp,
   * provided the key holds no space and no name or value holds a separator.
   */
  lemma PointRoundTrip(seriesKey: ByteString, fields: seq<Field>, time: Int64)
    requires ' ' !in seriesKey
    requires |fields| >= 1
    requires forall i :: 0 <= i < |fields| ==> '=' !in fields[i].name && ',' !in Render(fields[i])
    ensures ParsePoint(Line(seriesKey, fields, time), Kinds(fields)) == Some(Point(seriesKey, fields, time))
  {
    LineRoundTrip(seriesKey, fields, time);
    FieldsInOrder(fields);
    DecodeRenders(fields);
  }
}
