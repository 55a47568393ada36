/**
 * The byte-wise order Go uses to compare strings, `sort.Strings`, and the
 * ascending enumeration of a finite set of keys.
 */
module Order {
  import opened Bytes

  /** Go's `a < b` on strings: lexicographic on bytes, a proper prefix first. */
  predicate Less(a: ByteString, b: ByteString)
    decreases |a|
  {
    if a == [] then b != []
    else if b == [] then false
    else if a[0] != b[0] then a[0] < b[0]
    else Less(a[1..], b[1..])
  }

  predicate LessEq(a: ByteString, b: ByteString) {
    a == b || Less(a, b)
  }

  lemma {:induction false} LessIrreflexive(a: ByteString)
    ensures !Less(a, a)
    decreases |a|
  {
    if a != [] {
      LessIrreflexive(a[1..]);
    }
  }

  lemma {:induction false} LessAsymmetric(a: ByteString, b: ByteString)
    ensures !(Less(a, b) && Less(b, a))
    decreases |a|
  {
    if a != [] && b != [] && a[0] == b[0] {
      LessAsymmetric(a[1..], b[1..]);
    }
  }

  lemma {:induction false} LessTransitive(a: ByteString, b: ByteString, c: ByteString)
    requires Less(a, b) && Less(b, c)
    ensures Less(a, c)
    decreases |a|
  {
    if a != [] && a[0] == b[0] && b[0] == c[0] {
      LessTransitive(a[1..], b[1..], c[1..]);
    }
  }

  lemma {:induction false} LessTotal(a: ByteString, b: ByteString)
    ensures a == b || Less(a, b) || Less(b, a)
    decreases |a|
  {
    if a != [] && b != [] && a[0] == b[0] {
      LessTotal(a[1..], b[1..]);
      if a[1..] == b[1..] {
        assert a == [a[0]] + a[1..] && b == [b[0]] + b[1..];
      }
    }
  }

  lemma LessEqTransitive(a: ByteString, b: ByteString, c: ByteString)
    requires LessEq(a, b) && LessEq(b, c)
    ensures LessEq(a, c)
  {
    if Less(a, b) && Less(b, c) {
      LessTransitive(a, b, c);
    }
  }

  lemma LessEqAntisymmetric(a: ByteString, b: ByteString)
    requires LessEq(a, b) && LessEq(b, a)
    ensures a == b
  {
    LessAsymmetric(a, b);
  }

  /** Non-decreasing, as `sort.Strings` leaves a slice. */
  ghost predicate Ascending(s: seq<ByteString>) {
    forall p, q :: 0 <= p < q < |s| ==> LessEq(s[p], s[q])
  }

  /** Increasing: ascending with no two equal entries. */
  ghost predicate StrictlyAscending(s: seq<ByteString>) {
    forall p, q :: 0 <= p < q < |s| ==> Less(s[p], s[q])
  }

  /**
   * `sort.Strings`: sorts the slice in place into ascending byte order.
   * The model sorts by insertion, moving each element left by adjacent swaps.
   */
  method SortStrings(a: array<ByteString>)
    modifies a
    ensures Ascending(a[..])
    ensures multiset(a[..]) == old(multiset(a[..]))
  {
    var i := 0;
    while i < a.Length
      invariant 0 <= i <= a.Length
      invariant Ascending(a[..i])
      invariant multiset(a[..]) == old(multiset(a[..]))
    {
      InsertLast(a, i);
      i := i + 1;
    }
    assert a[..a.Length] == a[..];
  }

  /** Exchanges two neighbouring entries. */
  method SwapDown(a: array<ByteString>, j: int)
    requires 0 < j < a.Length
    modifies a
    ensures a[j - 1] == old(a[j]) && a[j] == old(a[j - 1])
    ensures forall k :: 0 <= k < a.Length && k != j - 1 && k != j ==> a[k] == old(a[k])
    ensures multiset(a[..]) == old(multiset(a[..]))
  {
    a[j - 1], a[j] := a[j], a[j - 1];
  }

  /** One step of insertion sort: moves `a[i]` left into place within `a[..i+1]`. */
  method InsertLast(a: array<ByteString>, i: int)
    requires 0 <= i < a.Length
    requires Ascending(a[..i])
    modifies a
    ensures Ascending(a[..i + 1])
    ensures multiset(a[..]) == old(multiset(a[..]))
  {
    var j := i;
    while j > 0 && Less(a[j], a[j - 1])
      invariant 0 <= j <= i
      invariant multiset(a[..]) == old(multiset(a[..]))
      invariant forall p, q :: 0 <= p < q <= i && p != j && q != j ==> LessEq(a[p], a[q])
      invariant forall q :: j < q <= i ==> LessEq(a[j], a[q])
    {
      SwapDown(a, j);
      j := j - 1;
    }
    if j > 0 {
      LessTotal(a[j], a[j - 1]);
      forall p | 0 <= p < j
        ensures LessEq(a[p], a[j])
      {
        LessEqTransitive(a[p], a[j - 1], a[j]);
      }
    }
  }

  /** Two ascending arrangements of the same multiset of strings are the same sequence. */
  lemma {:induction false} AscendingUnique(s: seq<ByteString>, t: seq<ByteString>)
    requires Ascending(s) && Ascending(t)
    requires multiset(s) == multiset(t)
    ensures s == t
    decreases |s|
  {
    assert |s| == |multiset(s)| == |multiset(t)| == |t|;
    if s != [] {
      AscendingFirst(t, s[0]);
      AscendingFirst(s, t[0]);
      LessEqAntisymmetric(s[0], t[0]);
      TailMultiset(s);
      TailMultiset(t);
      AscendingUnique(s[1..], t[1..]);
      assert s == [s[0]] + s[1..] && t == [t[0]] + t[1..];
    }
  }

  /** The first element of an ascending sequence is at most any of its elements. */
  lemma AscendingFirst(s: seq<ByteString>, x: ByteString)
    requires Ascending(s) && x in multiset(s)
    ensures LessEq(s[0], x)
  {
    var k :| 0 <= k < |s| && s[k] == x;
    if k != 0 {
      assert LessEq(s[0], s[k]);
    }
  }

  lemma TailMultiset(s: seq<ByteString>)
    requires s != []
    ensures multiset(s[1..]) == multiset(s) - multiset{s[0]}
  {
    assert s == [s[0]] + s[1..];
  }

  ghost predicate IsLeast(m: ByteString, keys: set<ByteString>) {
    m in keys && forall x :: x in keys && x != m ==> Less(m, x)
  }

  lemma {:induction false} LeastExists(keys: set<ByteString>)
    requires keys != {}
    ensures exists m :: IsLeast(m, keys)
    decreases |keys|
  {
    var x :| x in keys;
    if keys != {x} {
      var rest := keys - {x};
      LeastExists(rest);
      var y :| IsLeast(y, rest);
      LessTotal(x, y);
      if Less(x, y) {
        forall z | z in keys && z != x
          ensures Less(x, z)
        {
          if z != y {
            LessTransitive(x, y, z);
          }
        }
        assert IsLeast(x, keys);
      } else {
        forall z | z in keys && z != y
          ensures Less(y, z)
        {
        }
        assert IsLeast(y, keys);
      }
    } else {
      assert IsLeast(x, keys);
    }
  }

  /** The smallest key of a non-empty set. */
  ghost function Least(keys: set<ByteString>): (m: ByteString)
    requires keys != {}
    ensures IsLeast(m, keys)
  {
    LeastExists(keys);
    var m :| IsLeast(m, keys);
    m
  }

  /** The keys of a set in ascending byte order: the order `sort.Strings` gives them. */
  ghost function SortedKeys(keys: set<ByteString>): (r: seq<ByteString>)
    ensures StrictlyAscending(r)
    ensures |r| == |keys|
    ensures forall k :: k in r <==> k in keys
    ensures multiset(r) == multiset(keys)
    decreases |keys|
  {
    if keys == {} then []
    else
      var m := Least(keys);
      var rest := SortedKeys(keys - {m});
      SortedKeysStep(keys, m, rest);
      [m] + rest
  }

  /** The least key followed by the others in ascending order is the whole set in ascending order. */
  lemma SortedKeysStep(keys: set<ByteString>, m: ByteString, rest: seq<ByteString>)
    requires IsLeast(m, keys)
    requires StrictlyAscending(rest) && multiset(rest) == multiset(keys - {m})
    ensures StrictlyAscending([m] + rest)
    ensures |[m] + rest| == |keys|
    ensures forall k :: k in [m] + rest <==> k in keys
    ensures multiset([m] + rest) == multiset(keys)
  {
    assert multiset(keys - {m}) + multiset{m} == multiset(keys);
    assert |multiset(rest)| == |keys - {m}|;
    forall q | 0 <= q < |rest|
      ensures rest[q] in keys && rest[q] != m
    {
      assert rest[q] in multiset(rest);
    }
    forall k
      ensures k in [m] + rest <==> k in keys
    {
      assert k in multiset([m] + rest) <==> k in multiset(keys);
    }
  }

  lemma StrictlyAscendingIsAscending(s: seq<ByteString>)
    requires StrictlyAscending(s)
    ensures Ascending(s)
  {
  }

  /**
   * An increasing enumeration of a key set is unique: whatever order the keys
   * were gathered in, sorting them yields `SortedKeys`.
   */
  lemma SortedKeysUnique(keys: set<ByteString>, s: seq<ByteString>)
    requires Ascending(s)
    requires multiset(s) == multiset(keys)
    ensures s == SortedKeys(keys)
  {
    AscendingUnique(s, SortedKeys(keys));
  }
}
