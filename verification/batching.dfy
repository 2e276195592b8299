/**
 * How a file's documents are cut into bulk batches: the specification
 * the per-file buffer of the import scripts is proved against.
 */
module Batching {

  /** The batches laid end to end. */
  function Concat<T>(batches: seq<seq<T>>): (items: seq<T>) {
    if batches == [] then [] else batches[0] + Concat(batches[1..])
  }

  lemma AppendAssoc<T>(a: seq<T>, b: seq<T>, c: seq<T>)
    ensures (a + b) + c == a + (b + c)
  {
  }

  lemma {:induction false} ConcatAppend<T>(a: seq<seq<T>>, b: seq<seq<T>>)
    ensures Concat(a + b) == Concat(a) + Concat(b)
  {
    if a == [] {
      assert a + b == b;
    } else {
      assert (a + b)[1..] == a[1..] + b;
      ConcatAppend(a[1..], b);
    }
  }

  /** Every batch holds exactly `size` items. */
  predicate AllFull<T>(batches: seq<seq<T>>, size: nat) {
    forall i :: 0 <= i < |batches| ==> |batches[i]| == size
  }

  /** Every batch but the last holds exactly `size` items; the last holds 1 to `size`. */
  predicate WellBatched<T>(batches: seq<seq<T>>, size: nat) {
    (forall i :: 0 <= i < |batches| - 1 ==> |batches[i]| == size) &&
    (|batches| > 0 ==> 0 < |batches[|batches| - 1]| <= size)
  }

  lemma MulAtLeast(x: int, size: int)
    requires size > 0 && x >= 1
    ensures size * x >= size
  {
    if x > 1 {
      MulAtLeast(x - 1, size);
      assert size * x == size * (x - 1) + size;
    }
  }

  lemma DivUnique(n: int, size: int, q: int, r: int)
    requires size > 0 && 0 <= r < size && n == size * q + r
    ensures n / size == q
  {
    var a, b := n / size, n % size;
    assert size * (a - q) == r - b;
    if a - q >= 1 { MulAtLeast(a - q, size); }
    else if a - q <= -1 { MulAtLeast(q - a, size); }
  }

  lemma DivStep(n: nat, size: nat)
    requires size > 0
    ensures (n + size) / size == n / size + 1
  {
    DivUnique(n + size, size, n / size + 1, n % size);
  }

  /**
   * The batches a file of `items` is submitted in: full batches in order,
   * then the non-empty remainder.
   */
  function Chunks<T>(items: seq<T>, size: nat): (batches: seq<seq<T>>)
    requires size > 0
    decreases |items|
  {
    if |items| == 0 then []
    else if |items| <= size then [items]
    else [items[..size]] + Chunks(items[size..], size)
  }

  /** Laid end to end the chunks give back the items; all are full but the last, which is not empty. */
  lemma {:induction false} ChunksShape<T>(items: seq<T>, size: nat)
    requires size > 0
    ensures Concat(Chunks(items, size)) == items
    ensures WellBatched(Chunks(items, size), size)
    decreases |items|
  {
    if |items| == 0 {
    } else if |items| <= size {
      assert Concat([items]) == items + Concat([]);
    } else {
      var rest := Chunks(items[size..], size);
      ChunksShape(items[size..], size);
      assert Chunks(items, size) == [items[..size]] + rest;
      assert Concat([items[..size]] + rest) == items[..size] + Concat(rest);
      assert items == items[..size] + items[size..];
      var all := Chunks(items, size);
      forall i | 0 <= i < |all| - 1 ensures |all[i]| == size {
        if i > 0 { assert all[i] == rest[i - 1]; }
      }
    }
  }

  /** There are ceil(n / size) batches. */
  lemma {:induction false} ChunkCount<T>(items: seq<T>, size: nat)
    requires size > 0
    ensures |Chunks(items, size)| == (|items| + size - 1) / size
    decreases |items|
  {
    if |items| == 0 {
    } else if |items| <= size {
      DivUnique(|items| + size - 1, size, 1, |items| - 1);
    } else {
      var rest := Chunks(items[size..], size);
      ChunkCount(items[size..], size);
      assert Chunks(items, size) == [items[..size]] + rest;
      var n := |items| - 1;
      assert |rest| == n / size by {
        assert |items[size..]| + size - 1 == n;
      }
      DivStep(n, size);
      assert |items| + size - 1 == n + size;
    }
  }

  /** The batches of a well-batched sequence are its chunks: the chunking is the only such cut. */
  lemma {:induction false} ChunksUnique<T>(batches: seq<seq<T>>, size: nat)
    requires size > 0
    requires WellBatched(batches, size)
    ensures Chunks(Concat(batches), size) == batches
  {
    if |batches| == 1 {
      assert Concat(batches) == batches[0] + Concat(batches[1..]);
      assert batches == [batches[0]];
      assert Concat(batches) == batches[0];
    } else if |batches| > 1 {
      var rest := batches[1..];
      assert WellBatched(rest, size) by {
        forall i | 0 <= i < |rest| - 1 ensures |rest[i]| == size {
          assert rest[i] == batches[i + 1];
        }
      }
      ChunksUnique(rest, size);
      var items := Concat(batches);
      assert items == batches[0] + Concat(rest);
      assert |Concat(rest)| > 0 by {
        assert Concat(rest) == rest[0] + Concat(rest[1..]);
        assert |rest[0]| > 0 by {
          if |rest| == 1 { assert rest[0] == batches[|batches| - 1]; }
        }
      }
      assert items[..size] == batches[0];
      assert items[size..] == Concat(rest);
    }
  }

  /** Full batches followed by at most `size` buffered items: flushing the buffer completes the chunks. */
  lemma ChunksAfterFull<T>(full: seq<seq<T>>, buffered: seq<T>, size: nat)
    requires size > 0
    requires AllFull(full, size)
    requires |buffered| <= size
    ensures Chunks(Concat(full) + buffered, size) == full + (if buffered == [] then [] else [buffered])
  {
    if buffered == [] {
      assert Concat(full) + buffered == Concat(full);
      assert full + [] == full;
      assert WellBatched(full, size);
      ChunksUnique(full, size);
    } else {
      var batches := full + [buffered];
      ConcatAppend(full, [buffered]);
      assert Concat([buffered]) == buffered + Concat([]);
      assert Concat(batches) == Concat(full) + buffered;
      assert WellBatched(batches, size) by {
        forall i | 0 <= i < |batches| - 1 ensures |batches[i]| == size {
          assert batches[i] == full[i];
        }
        assert batches[|batches| - 1] == buffered;
      }
      ChunksUnique(batches, size);
    }
  }

  /**
   * The full batches that precede a remainder of fewer than `size` items:
   * what has been submitted when reading stops before end of stream.
   */
  function CompleteChunks<T>(items: seq<T>, size: nat): (batches: seq<seq<T>>)
    requires size > 0
    ensures AllFull(batches, size)
    ensures |Concat(batches)| <= |items| && Concat(batches) == items[..|Concat(batches)|]
    ensures |items| - |Concat(batches)| < size
    decreases |items|
  {
    if |items| < size then []
    else
      var rest := CompleteChunks(items[size..], size);
      assert Concat([items[..size]] + rest) == items[..size] + Concat(rest);
      [items[..size]] + rest
  }

  /** Full batches followed by fewer than `size` buffered items are the complete chunks of the whole. */
  lemma {:induction false} CompleteChunksUnique<T>(batches: seq<seq<T>>, buffered: seq<T>, size: nat)
    requires size > 0
    requires AllFull(batches, size)
    requires |buffered| < size
    ensures CompleteChunks(Concat(batches) + buffered, size) == batches
  {
    var items := Concat(batches) + buffered;
    if batches != [] {
      var rest := batches[1..];
      assert AllFull(rest, size) by {
        forall i | 0 <= i < |rest| ensures |rest[i]| == size { assert rest[i] == batches[i + 1]; }
      }
      CompleteChunksUnique(rest, buffered, size);
      assert items == batches[0] + (Concat(rest) + buffered);
      assert items[..size] == batches[0];
      assert items[size..] == Concat(rest) + buffered;
    }
  }
}
