/**
 * Byte strings and fixed-width integers shared by every part of the model.
 *
 * A byte is written as a character below 256, so that ASCII protocol text can
 * be written as a string literal; comparing two such characters compares the
 * bytes they stand for.
 */
module Bytes {

  type Byte = c: char | c as int < 256

  /** A Go `[]byte` (or `string`, which Go compares byte by byte). */
  type ByteString = seq<Byte>

  const Int64Min: int := -0x8000_0000_0000_0000
  const Int64Max: int := 0x7fff_ffff_ffff_ffff
  const Uint64Max: int := 0xffff_ffff_ffff_ffff

  /** Go's `int64`. */
  type Int64 = x: int | Int64Min <= x <= Int64Max

  /** Go's `uint64`. */
  type Uint64 = x: int | 0 <= x <= Uint64Max

  /** Go's conversion `int64(u)` of a `uint64`: two's complement reinterpretation. */
  function Uint64ToInt64(u: Uint64): (r: Int64)
    ensures 0 <= u <= Int64Max ==> r == u
    ensures Int64Max < u ==> r < 0 && r + 0x1_0000_0000_0000_0000 == u
  {
    if u <= Int64Max then u else u - 0x1_0000_0000_0000_0000
  }

  datatype Option<T> = None | Some(value: T)

  /** `bytes.Count(s, []byte{b})`: the number of occurrences of the byte `b`. */
  function Count(s: ByteString, b: Byte): (n: nat)
    ensures n <= |s|
    ensures n == 0 <==> b !in s
  {
    if s == [] then 0 else Count(s[..|s| - 1], b) + (if s[|s| - 1] == b then 1 else 0)
  }

  lemma {:induction false} CountAppend(s: ByteString, t: ByteString, b: Byte)
    ensures Count(s + t, b) == Count(s, b) + Count(t, b)
    decreases |t|
  {
    if t == [] {
      assert s + t == s;
    } else {
      var t' := t[..|t| - 1];
      assert (s + t)[..|s + t| - 1] == s + t';
      CountAppend(s, t', b);
    }
  }

  /** The concatenation of a sequence of byte strings, in order. */
  lemma AppendAssoc<T>(a: seq<T>, b: seq<T>, c: seq<T>)
    ensures a + (b + c) == (a + b) + c
  {
  }

  function Flatten(ss: seq<ByteString>): (r: ByteString)
    ensures ss == [] ==> r == []
  {
    if ss == [] then [] else Flatten(ss[..|ss| - 1]) + ss[|ss| - 1]
  }

  lemma {:induction false} FlattenAppend(ss: seq<ByteString>, ts: seq<ByteString>)
    ensures Flatten(ss + ts) == Flatten(ss) + Flatten(ts)
    decreases |ts|
  {
    if ts == [] {
      assert ss + ts == ss;
    } else {
      var ts' := ts[..|ts| - 1];
      assert (ss + ts)[..|ss + ts| - 1] == ss + ts';
      FlattenAppend(ss, ts');
    }
  }

  /** The bytes of each line followed by a newline, as bufio-scanned input is re-framed. */
  function Framed(lines: seq<ByteString>): (r: ByteString)
  {
    if lines == [] then [] else Framed(lines[..|lines| - 1]) + lines[|lines| - 1] + ['\n']
  }

  lemma {:induction false} FramedAppend(xs: seq<ByteString>, ys: seq<ByteString>)
    ensures Framed(xs + ys) == Framed(xs) + Framed(ys)
    decreases |ys|
  {
    if ys == [] {
      assert xs + ys == xs;
    } else {
      var ys' := ys[..|ys| - 1];
      assert (xs + ys)[..|xs + ys| - 1] == xs + ys';
      FramedAppend(xs, ys');
    }
  }

  /** A framed run of lines that hold no newline has exactly one newline per line. */
  lemma {:induction false} FramedNewlines(lines: seq<ByteString>)
    requires forall i :: 0 <= i < |lines| ==> '\n' !in lines[i]
    ensures Count(Framed(lines), '\n') == |lines|
    decreases |lines|
  {
    if lines != [] {
      var init := lines[..|lines| - 1];
      var last := lines[|lines| - 1];
      FramedNewlines(init);
      CountAppend(Framed(init), last, '\n');
      CountAppend(Framed(init) + last, ['\n'], '\n');
    }
  }

  /** The position of the first `b` in `s` (`bytes.IndexByte`). */
  function IndexOf(s: ByteString, b: Byte): (r: Option<nat>)
    ensures r.Some? ==> r.value < |s|
  {
    if s == [] then None
    else if s[0] == b then Some(0)
    else match IndexOf(s[1..], b)
      case None => None
      case Some(i) => Some(i + 1)
  }

  /** `IndexOf` finds nothing exactly when there is no `b`, and otherwise the first one. */
  lemma {:induction false} IndexOfSpec(s: ByteString, b: Byte)
    ensures IndexOf(s, b).None? <==> b !in s
    ensures IndexOf(s, b).Some? ==> s[IndexOf(s, b).value] == b && b !in s[..IndexOf(s, b).value]
    decreases |s|
  {
    if s != [] && s[0] != b {
      IndexOfSpec(s[1..], b);
      assert s == [s[0]] + s[1..];
      if IndexOf(s[1..], b).Some? {
        var i := IndexOf(s[1..], b).value;
        assert s[..i + 1] == [s[0]] + s[1..][..i];
      }
    }
  }

  /** The position of the last `b` in `s` (`bytes.LastIndexByte`). */
  function LastIndexOf(s: ByteString, b: Byte): (r: Option<nat>)
    ensures r.Some? ==> r.value < |s|
  {
    if s == [] then None
    else if s[|s| - 1] == b then Some(|s| - 1)
    else LastIndexOf(s[..|s| - 1], b)
  }

  /** `LastIndexOf` finds nothing exactly when there is no `b`, and otherwise the last one. */
  lemma {:induction false} LastIndexOfSpec(s: ByteString, b: Byte)
    ensures LastIndexOf(s, b).None? <==> b !in s
    ensures LastIndexOf(s, b).Some? ==> s[LastIndexOf(s, b).value] == b && b !in s[LastIndexOf(s, b).value + 1..]
    decreases |s|
  {
    if s != [] && s[|s| - 1] != b {
      var init := s[..|s| - 1];
      LastIndexOfSpec(init, b);
      assert s == init + [s[|s| - 1]];
      if LastIndexOf(init, b).Some? {
        var i := LastIndexOf(init, b).value;
        assert s[i + 1..] == init[i + 1..] + [s[|s| - 1]];
      }
    }
  }

  /** The first `b` after a prefix that has none is the one right after that prefix. */
  lemma IndexAfterPrefix(a: ByteString, b: Byte, c: ByteString)
    requires b !in a
    ensures IndexOf(a + [b] + c, b) == Some(|a|)
  {
    var s := a + [b] + c;
    IndexOfSpec(s, b);
    assert s[|a|] == b;
    assert s[..|a|] == a;
  }

  /** The last `b` before a suffix that has none is the one right before that suffix. */
  lemma LastIndexBeforeSuffix(a: ByteString, b: Byte, c: ByteString)
    requires b !in c
    ensures LastIndexOf(a + [b] + c, b) == Some(|a|)
  {
    var s := a + [b] + c;
    LastIndexOfSpec(s, b);
    assert s[|a|] == b;
    assert s[|a| + 1..] == c;
  }

  /** The parts with `sep` between consecutive ones (`bytes.Join`). */
  function Join(parts: seq<ByteString>, sep: Byte): (r: ByteString)
  {
    if |parts| == 0 then []
    else if |parts| == 1 then parts[0]
    else Join(parts[..|parts| - 1], sep) + [sep] + parts[|parts| - 1]
  }

  /** Splits at every `sep` (`bytes.Split`). */
  function Split(s: ByteString, sep: Byte): (r: seq<ByteString>)
    ensures |r| >= 1
    decreases |s|
  {
    match IndexOf(s, sep)
    case None => [s]
    case Some(i) => [s[..i]] + Split(s[i + 1..], sep)
  }

  lemma {:induction false} JoinCons(p: ByteString, rest: seq<ByteString>, sep: Byte)
    requires |rest| >= 1
    ensures Join([p] + rest, sep) == p + [sep] + Join(rest, sep)
    decreases |rest|
  {
    if |rest| > 1 {
      var init := rest[..|rest| - 1];
      assert ([p] + rest)[..|rest|] == [p] + init;
      JoinCons(p, init, sep);
    } else {
      assert [p] + rest == [p, rest[0]];
    }
  }

  /** Joining parts that hold no separator and splitting again gives the parts back. */
  lemma {:induction false} SplitJoin(parts: seq<ByteString>, sep: Byte)
    requires |parts| >= 1
    requires forall i :: 0 <= i < |parts| ==> sep !in parts[i]
    ensures Split(Join(parts, sep), sep) == parts
    decreases |parts|
  {
    if |parts| > 1 {
      var rest := parts[1..];
      assert parts == [parts[0]] + rest;
      JoinCons(parts[0], rest, sep);
      IndexAfterPrefix(parts[0], sep, Join(rest, sep));
      var s := Join(parts, sep);
      assert s[..|parts[0]|] == parts[0];
      assert s[|parts[0]| + 1..] == Join(rest, sep);
      SplitJoin(rest, sep);
    } else {
      IndexOfSpec(parts[0], sep);
    }
  }

  /** A byte that is not the separator and in no part is not in the join. */
  lemma {:induction false} JoinExcludes(parts: seq<ByteString>, sep: Byte, b: Byte)
    requires b != sep
    requires forall i :: 0 <= i < |parts| ==> b !in parts[i]
    ensures b !in Join(parts, sep)
    decreases |parts|
  {
    if |parts| > 1 {
      JoinExcludes(parts[..|parts| - 1], sep, b);
    }
  }

  function TotalLength(parts: seq<ByteString>): nat
  {
    if parts == [] then 0 else TotalLength(parts[..|parts| - 1]) + |parts[|parts| - 1]|
  }

  /** A join is as long as its parts plus one separator between each pair. */
  lemma {:induction false} JoinLength(parts: seq<ByteString>, sep: Byte)
    requires |parts| >= 1
    ensures |Join(parts, sep)| == TotalLength(parts) + |parts| - 1
    decreases |parts|
  {
    if |parts| > 1 {
      var init := parts[..|parts| - 1];
      JoinLength(init, sep);
    } else {
      assert parts[..0] == [];
    }
  }
}
