/**
 * The batching rule shared by the input scanner of cmd/avalanched/main.go and
 * the stats collector of cmd/chasmd/main.go: items are counted into the open
 * batch, which is sent as soon as the count reaches the batch size, and a
 * batch still holding items when the input ends is sent as the last one.
 *
 * Since the count is at least 1 when it is compared, a batch size of 1 or
 * less sends every item on its own.
 */
module Batching {

  /** The number of items in every batch but the last. */
  function Width(size: int): (w: nat)
    ensures w >= 1 && (size >= 1 ==> w == size)
  {
    if size < 1 then 1 else size
  }

  /** The batches a run of items is cut into, in order. */
  function Chunks<T>(xs: seq<T>, size: int): seq<seq<T>>
    decreases |xs|
  {
    if xs == [] then []
    else if |xs| <= Width(size) then [xs]
    else [xs[..Width(size)]] + Chunks(xs[Width(size)..], size)
  }

  /** The concatenation of a sequence of sequences. */
  function Concat<T>(xss: seq<seq<T>>): seq<T>
  {
    if xss == [] then [] else xss[0] + Concat(xss[1..])
  }

  lemma {:induction false} ConcatAppend<T>(xss: seq<seq<T>>, yss: seq<seq<T>>)
    ensures Concat(xss + yss) == Concat(xss) + Concat(yss)
    decreases |xss|
  {
    if xss == [] {
      assert xss + yss == yss;
    } else {
      assert (xss + yss)[1..] == xss[1..] + yss;
      ConcatAppend(xss[1..], yss);
    }
  }

  /** Nothing is lost, duplicated or reordered: the batches put back together are the input. */
  lemma {:induction false} ChunksConcat<T>(xs: seq<T>, size: int)
    ensures Concat(Chunks(xs, size)) == xs
    decreases |xs|
  {
    var w := Width(size);
    if xs != [] && |xs| > w {
      ChunksConcat(xs[w..], size);
      assert xs == xs[..w] + xs[w..];
    }
  }

  /**
   * No batch is empty; every batch but the last holds exactly the batch
   * size, and the last holds between one item and the batch size.
   */
  lemma {:induction false} ChunksSizes<T>(xs: seq<T>, size: int)
    ensures forall i :: 0 <= i < |Chunks(xs, size)| ==> 1 <= |Chunks(xs, size)[i]| <= Width(size)
    ensures forall i :: 0 <= i < |Chunks(xs, size)| - 1 ==> |Chunks(xs, size)[i]| == Width(size)
    ensures xs != [] <==> Chunks(xs, size) != []
    decreases |xs|
  {
    var w := Width(size);
    if xs != [] && |xs| > w {
      ChunksSizes(xs[w..], size);
      var rest := Chunks(xs[w..], size);
      assert Chunks(xs, size) == [xs[..w]] + rest;
    }
  }

  /** With a batch size of 1 or less, each item is a batch of its own. */
  lemma {:induction false} ChunksOfOne<T>(xs: seq<T>, size: int)
    requires size <= 1
    ensures Chunks(xs, size) == seq(|xs|, i requires 0 <= i < |xs| => [xs[i]])
    decreases |xs|
  {
    var singles := seq(|xs|, i requires 0 <= i < |xs| => [xs[i]]);
    if |xs| == 1 {
      assert xs == [xs[0]];
    } else if |xs| > 1 {
      ChunksOfOne(xs[1..], size);
      assert xs[..1] == [xs[0]];
      assert singles == [[xs[0]]] + seq(|xs| - 1, i requires 0 <= i < |xs| - 1 => [xs[1..][i]]);
    }
  }

  /** A run of `len` items fills whole batches. */
  predicate Whole(len: nat, size: int)
    decreases len
  {
    len == 0 || (len >= Width(size) && Whole(len - Width(size), size))
  }

  /** One more full batch keeps a run whole. */
  lemma {:induction false} WholeGrows(len: nat, size: int)
    requires Whole(len, size)
    ensures Whole(len + Width(size), size)
    decreases len
  {
    if len != 0 {
      WholeGrows(len - Width(size), size);
    }
  }

  /** Whole batches first: cutting them and what follows separately gives the same batches. */
  lemma {:induction false} ChunksAppend<T>(a: seq<T>, b: seq<T>, size: int)
    requires Whole(|a|, size)
    ensures Chunks(a + b, size) == Chunks(a, size) + Chunks(b, size)
    decreases |a|
  {
    var w := Width(size);
    if a == [] {
      assert a + b == b;
    } else if |a| == w {
      if b != [] {
        assert (a + b)[..w] == a && (a + b)[w..] == b;
      } else {
        assert a + b == a;
      }
    } else {
      assert (a + b)[..w] == a[..w];
      assert (a + b)[w..] == a[w..] + b;
      ChunksAppend(a[w..], b, size);
    }
  }

  /** A non-empty run of at most the batch size is one batch. */
  lemma OneChunk<T>(xs: seq<T>, size: int)
    requires 1 <= |xs| <= Width(size)
    ensures Chunks(xs, size) == [xs]
  {
  }

  /** Cutting a run of whole batches followed by one more batch of `n` items adds that batch. */
  lemma ChunksSnoc<T>(xs: seq<T>, start: nat, n: nat, size: int)
    requires 1 <= n <= Width(size) && start + n <= |xs| && Whole(start, size)
    ensures Chunks(xs[..start + n], size) == Chunks(xs[..start], size) + [xs[start..start + n]]
  {
    var front, run := xs[..start], xs[start..start + n];
    assert xs[..start + n] == front + run;
    ChunksAppend(front, run, size);
    OneChunk(run, size);
  }

  /** Every item of every batch is an item of the input. */
  lemma {:induction false} ChunksMembers<T>(xs: seq<T>, size: int)
    ensures forall i, x :: 0 <= i < |Chunks(xs, size)| && x in Chunks(xs, size)[i] ==> x in xs
    decreases |xs|
  {
    var w := Width(size);
    if xs != [] && |xs| > w {
      ChunksMembers(xs[w..], size);
      var cs := Chunks(xs, size);
      assert cs == [xs[..w]] + Chunks(xs[w..], size);
      forall i, x | 0 <= i < |cs| && x in cs[i]
        ensures x in xs
      {
        if i == 0 {
          assert x in xs[..w];
        } else {
          assert x in Chunks(xs[w..], size)[i - 1];
          assert x in xs[w..];
        }
      }
    }
  }
}
