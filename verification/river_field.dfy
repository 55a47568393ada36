/**
 * The four field kinds of the line protocol (river/field.go) and the
 * `bytes.Buffer` they are rendered into.
 *
 * Each field renders as `name=value`: a boolean as `T` or `F`, an integer as
 * its decimal text followed by `i`, a float as its shortest `'f'`-format
 * text, a string verbatim. Nothing is quoted or escaped.
 */
module RiverField {
  import opened Bytes
  import Decimal

  /** A growable byte buffer (`bytes.Buffer`); writes to it never fail. */
  class Buffer {
    var data: ByteString

    constructor ()
      ensures data == []
    {
      data := [];
    }

    method Write(p: ByteString)
      modifies this
      ensures data == old(data) + p
    {
      data := data + p;
    }

    method WriteByte(c: Byte)
      modifies this
      ensures data == old(data) + [c]
    {
      data := data + [c];
    }
  }

  /**
   * A float64 value, represented by the text `strconv.AppendFloat(nil, v, 'f', -1, 64)`
   * gives for it; floating-point formatting itself is not part of this model.
   */
  datatype Float64 = Float64(text: ByteString)

  datatype Field =
    | Bool(name: ByteString, boolValue: bool)
    | Int(name: ByteString, intValue: Int64)
    | Float(name: ByteString, floatValue: Float64)
    | String(name: ByteString, stringValue: ByteString)

  /** The bytes that follow `name=` for a field. */
  function ValueText(f: Field): ByteString
  {
    match f
    case Bool(_, v) => if v then "T" else "F"
    case Int(_, v) => Decimal.Text(v) + "i"
    case Float(_, v) => v.text
    case String(_, v) => v
  }

  /** What `writeToBuf` appends for a field. */
  function Render(f: Field): ByteString
  {
    f.name + ['='] + ValueText(f)
  }

  /** `writeToBuf`: appends the rendered field to `buf`, leaving what was there before. */
  method WriteToBuf(f: Field, buf: Buffer)
    modifies buf
    ensures buf.data == old(buf.data) + Render(f)
  {
    match f
    case Bool(name, v) =>
      buf.Write(name);
      if v {
        buf.Write("=T");
      } else {
        buf.Write("=F");
      }
      RenderAfter(old(buf.data), f, if v then "=T" else "=F");
    case Int(name, v) =>
      buf.Write(name);
      var iBuf: ByteString := ['='];
      iBuf := iBuf + Decimal.Text(v);
      iBuf := iBuf + ['i'];
      buf.Write(iBuf);
      RenderAfter(old(buf.data), f, iBuf);
    case Float(name, v) =>
      buf.Write(name);
      buf.WriteByte('=');
      buf.Write(v.text);
      RenderAfter(old(buf.data), f, ['='] + v.text);
    case String(name, v) =>
      buf.Write(name);
      buf.WriteByte('=');
      buf.Write(v);
      RenderAfter(old(buf.data), f, ['='] + v);
  }

  /** Writing the name and then `=` with the value's text appends the rendering. */
  lemma RenderAfter(before: ByteString, f: Field, rest: ByteString)
    requires rest == ['='] + ValueText(f)
    ensures before + f.name + rest == before + Render(f)
  {
    assert Render(f) == f.name + rest;
  }

  /** A boolean renders as `name=T` or `name=F`, nothing else. */
  lemma BoolRendering(name: ByteString, v: bool)
    ensures Render(Bool(name, v)) == name + (if v then "=T" else "=F")
    ensures |Render(Bool(name, v))| == |name| + 2
  {
    assert Render(Bool(name, v)) == name + ['='] + (if v then "T" else "F");
  }

  /**
   * An integer renders as `name=`, a decimal text of at most 19 digits after
   * an optional `-` that reads back as the value, then `i`.
   */
  lemma IntRendering(name: ByteString, v: Int64)
    ensures exists t :: Render(Int(name, v)) == name + ['='] + t + ['i']
                        && |t| <= 20 && Decimal.Parse(t) == Some(v as int)
  {
    var t := Decimal.Text(v);
    Decimal.Int64TextLength(v);
    Decimal.TextRoundTrip(v);
    assert Render(Int(name, v)) == name + ['='] + t + ['i'];
  }

  /** A string renders verbatim, with no quoting or escaping. */
  lemma StringRendering(name: ByteString, v: ByteString)
    ensures Render(String(name, v)) == name + ['='] + v
    ensures |Render(String(name, v))| == |name| + 1 + |v|
  {
  }

  /** Which variant a field is: the information a reader must know to decode it. */
  datatype Kind = BoolKind | IntKind | FloatKind | StringKind

  function KindOf(f: Field): Kind
  {
    match f
    case Bool(_, _) => BoolKind
    case Int(_, _) => IntKind
    case Float(_, _) => FloatKind
    case String(_, _) => StringKind
  }

  /** Reads `name=value` back as a field of the given kind: the inverse of `Render`. */
  function Decode(kind: Kind, text: ByteString): Option<Field>
  {
    match IndexOf(text, '=')
    case None => None
    case Some(i) =>
      var name := text[..i];
      var v := text[i + 1..];
      match kind
      case BoolKind =>
        if v == "T" then Some(Bool(name, true))
        else if v == "F" then Some(Bool(name, false))
        else None
      case IntKind =>
        if |v| >= 1 && v[|v| - 1] == 'i' then
          match Decimal.Parse(v[..|v| - 1])
          case Some(n) => if Int64Min <= n <= Int64Max then Some(Int(name, n)) else None
          case None => None
        else None
      case FloatKind => Some(Float(name, Float64(v)))
      case StringKind => Some(String(name, v))
  }

  /** A field whose name holds no `=` is recovered from its rendering. */
  lemma DecodeRender(f: Field)
    requires '=' !in f.name
    ensures Decode(KindOf(f), Render(f)) == Some(f)
  {
    var r := Render(f);
    IndexAfterPrefix(f.name, '=', ValueText(f));
    assert r[..|f.name|] == f.name;
    var v := r[|f.name| + 1..];
    assert v == ValueText(f);
    match f
    case Bool(_, _) =>
    case Int(_, n) =>
      assert v[..|v| - 1] == Decimal.Text(n);
      Decimal.TextRoundTrip(n);
    case Float(_, _) =>
    case String(_, _) =>
  }
}
