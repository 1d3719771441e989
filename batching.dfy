/**
 * The batching both upload scripts share: `for i in range(0, n, size)`
 * takes `items[i : i + size]`, and the progress line counts
 * `(n + size - 1) // size` batches.
 */
module Batching {
  function Min(a: int, b: int): int { if a < b then a else b }

  /** Consecutive slices of `size`, the last possibly shorter. */
  function Batches<T>(s: seq<T>, size: nat): (r: seq<seq<T>>)
    requires size > 0
    ensures forall b :: 0 <= b < |r| ==> 0 < |r[b]| <= size
    decreases |s|
  {
    if s == [] then []
    else [s[..Min(size, |s|)]] + Batches(s[Min(size, |s|)..], size)
  }

  function Flatten<T>(parts: seq<seq<T>>): seq<T> {
    if parts == [] then [] else parts[0] + Flatten(parts[1..])
  }

  /** The batches, one after the other, are the whole list. */
  lemma {:induction false} BatchesConcat<T>(s: seq<T>, size: nat)
    requires size > 0
    ensures Flatten(Batches(s, size)) == s
    decreases |s|
  {
    if s != [] {
      BatchesConcat(s[Min(size, |s|)..], size);
      assert s[..Min(size, |s|)] + s[Min(size, |s|)..] == s;
    }
  }

  /** Every batch but the last is full: `c` batches hold more than `(c - 1) * size` items and at most `c * size`. */
  lemma {:induction false} BatchBounds<T>(s: seq<T>, size: nat)
    requires size > 0
    ensures s == [] <==> Batches(s, size) == []
    ensures s != [] ==> (|Batches(s, size)| - 1) * size < |s| <= |Batches(s, size)| * size
    decreases |s|
  {
    if |s| > size {
      var rest := s[size..];
      BatchBounds(rest, size);
      var c := |Batches(rest, size)|;
      assert |Batches(s, size)| == c + 1;
      assert (c + 1) * size == c * size + size;
      assert c * size == (c - 1) * size + size;
    }
  }

  /** For the two batch sizes the scripts use, the count is `(n + size - 1) // size`. */
  lemma BatchCount<T>(s: seq<T>, size: nat)
    requires size == 5 || size == 10
    ensures |Batches(s, size)| == (|s| + size - 1) / size
  {
    BatchBounds(s, size);
  }

  lemma {:induction false} ShiftByOne(b: nat, size: nat)
    requires b > 0
    ensures (b - 1) * size + size == b * size
  {
  }

  /** Past the first batch, the batches are those of the rest of the list. */
  lemma BatchesTail<T>(s: seq<T>, size: nat, b: nat)
    requires size > 0 && 0 < b < |Batches(s, size)|
    ensures |s| > size
    ensures b - 1 < |Batches(s[size..], size)|
    ensures Batches(s, size)[b] == Batches(s[size..], size)[b - 1]
  {
  }

  lemma SliceOfSuffix<T>(s: seq<T>, k: nat, x: nat, y: nat)
    requires k <= |s| && x <= y <= |s| - k
    ensures s[k..][x..y] == s[k + x..k + y]
  {
  }

  /** Batch `b` is the slice the loop takes at offset `b * size`. */
  lemma {:induction false} BatchAt<T>(s: seq<T>, size: nat, b: nat)
    requires size > 0 && b < |Batches(s, size)|
    ensures b * size < |s|
    ensures Batches(s, size)[b] == s[b * size..Min(b * size + size, |s|)]
    decreases |s|
  {
    if b > 0 {
      BatchesTail(s, size, b);
      var rest := s[size..];
      BatchAt(rest, size, b - 1);
      ShiftByOne(b, size);
      var o := (b - 1) * size;
      var hi := Min(o + size, |rest|);
      SliceOfSuffix(s, size, o, hi);
    }
  }

  /** An offset inside the list starts a batch. */
  lemma {:induction false} OffsetHasBatch<T>(s: seq<T>, size: nat, b: nat)
    requires size > 0 && b * size < |s|
    ensures b < |Batches(s, size)|
    decreases b
  {
    if b > 0 {
      ShiftByOne(b, size);
      assert |s| > size;
      assert Batches(s, size) == [s[..size]] + Batches(s[size..], size);
      OffsetHasBatch(s[size..], size, b - 1);
    }
  }

  /**
   * The loop's next slice: at offset `b * size` inside the list, the slice it
   * takes is batch `b`, and the next offset is `(b + 1) * size` unless the
   * list ends first.
   */
  lemma NextBatch<T>(s: seq<T>, size: nat, b: nat, i: nat)
    requires size > 0 && i < |s| && i == b * size
    ensures b < |Batches(s, size)|
    ensures s[i..Min(i + size, |s|)] == Batches(s, size)[b]
    ensures Min(i + size, |s|) < |s| ==> Min(i + size, |s|) == (b + 1) * size
  {
    OffsetHasBatch(s, size, b);
    BatchAt(s, size, b);
    ShiftByOne(b + 1, size);
  }
}
