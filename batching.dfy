/**
 * Cutting a run of generated records into consecutive insert batches, as the
 * bulk-insert loops of the user/todo seeding script do.
 */
module Batching {

  /** `items` cut front to back into batches of `size`; only the last may be shorter. */
  function Chunks<T>(items: seq<T>, size: nat): seq<seq<T>>
    requires size > 0
    decreases |items|
  {
    if items == [] then []
    else if |items| <= size then [items]
    else [items[..size]] + Chunks(items[size..], size)
  }

  /** The batches joined back together, in order. */
  function Flatten<T>(batches: seq<seq<T>>): seq<T>
  {
    if batches == [] then [] else batches[0] + Flatten(batches[1..])
  }

  /** The number of records in each batch. */
  function Sizes<T>(batches: seq<seq<T>>): seq<nat>
  {
    seq(|batches|, i requires 0 <= i < |batches| => |batches[i]|)
  }

  /** Joining the batches gives back every record, once, in the original order. */
  lemma {:induction false} FlattenChunks<T>(items: seq<T>, size: nat)
    requires size > 0
    ensures Flatten(Chunks(items, size)) == items
    decreases |items|
  {
    if |items| > size {
      FlattenChunks(items[size..], size);
      assert Chunks(items, size)[1..] == Chunks(items[size..], size);
    }
  }

  /** Every batch holds between 1 and `size` records, every batch but the last exactly `size`. */
  lemma {:induction false} ChunkSizes<T>(items: seq<T>, size: nat)
    requires size > 0
    ensures var c := Chunks(items, size);
            && (forall i :: 0 <= i < |c| ==> 1 <= |c[i]| <= size)
            && (forall i :: 0 <= i < |c| - 1 ==> |c[i]| == size)
    decreases |items|
  {
    if |items| > size {
      var rest := items[size..];
      ChunkSizes(rest, size);
      var c := Chunks(items, size);
      assert c[1..] == Chunks(rest, size);
      forall i | 1 <= i < |c|
        ensures 1 <= |c[i]| <= size && (i < |c| - 1 ==> |c[i]| == size)
      {
        assert c[i] == Chunks(rest, size)[i - 1];
      }
    }
  }

  /**
   * There are ceil(|items| / size) batches: enough to hold every record, and
   * one fewer would not be.
   */
  lemma {:induction false} ChunkCount<T>(items: seq<T>, size: nat)
    requires size > 0
    ensures var n := |Chunks(items, size)|;
            |items| <= n * size && (n > 0 ==> (n - 1) * size < |items|)
    decreases |items|
  {
    if |items| > size {
      var rest := items[size..];
      ChunkCount(rest, size);
      var n := |Chunks(rest, size)|;
      assert |Chunks(items, size)| == n + 1;
      assert (n + 1) * size == n * size + size;
    }
  }

  /** 2500 records in batches of 1000 make three inserts: 1000, 1000 and 500. */
  lemma ChunksOf2500By1000<T>(items: seq<T>)
    requires |items| == 2500
    ensures Sizes(Chunks(items, 1000)) == [1000, 1000, 500]
  {
    var c := Chunks(items, 1000);
    assert c == [items[..1000]] + Chunks(items[1000..], 1000);
    assert Chunks(items[1000..], 1000) == [items[1000..][..1000]] + Chunks(items[1000..][1000..], 1000);
    assert Chunks(items[1000..][1000..], 1000) == [items[1000..][1000..]];
  }

  /** When the records fill `k` batches exactly, the last batch is full too. */
  lemma {:induction false} FullLast<T>(items: seq<T>, size: nat, k: nat)
    requires size > 0 && |items| == k * size
    ensures forall b <- Chunks(items, size) :: |b| == size
    decreases k
  {
    if k > 1 {
      assert |items[size..]| == (k - 1) * size;
      FullLast(items[size..], size, k - 1);
      assert Chunks(items, size) == [items[..size]] + Chunks(items[size..], size);
    }
  }

  function Min(a: int, b: int): int
  {
    if a <= b then a else b
  }

  /** Joining one more batch at the end extends the join by that batch. */
  lemma {:induction false} FlattenSnoc<T>(batches: seq<seq<T>>, last: seq<T>)
    ensures Flatten(batches + [last]) == Flatten(batches) + last
    decreases |batches|
  {
    if batches == [] {
      assert [last][1..] == [];
    } else {
      assert (batches + [last])[1..] == batches[1..] + [last];
      FlattenSnoc(batches[1..], last);
    }
  }

  /**
   * Batch number `full` starts at record `full * size` and runs up to
   * `size` records further, or to the end.
   */
  lemma {:induction false} ChunkAt<T>(items: seq<T>, size: nat, full: nat)
    requires size > 0 && full < |Chunks(items, size)|
    ensures full * size < |items|
    ensures Chunks(items, size)[full] == items[full * size..Min(|items|, full * size + size)]
    decreases full
  {
    if full > 0 {
      var rest := items[size..];
      assert |items| > size;
      assert Chunks(items, size) == [items[..size]] + Chunks(rest, size);
      ChunkAt(rest, size, full - 1);
      var a := (full - 1) * size;
      assert a + size == full * size;
      var e := Min(|rest|, a + size);
      assert e + size == Min(|items|, full * size + size);
      DropSlice(items, size, a, e);
    }
  }

  lemma DropSlice<T>(items: seq<T>, size: nat, x: nat, y: nat)
    requires size <= |items| && x <= y <= |items| - size
    ensures items[size..][x..y] == items[size + x..size + y]
  {
  }

  /** The first `full` batches joined are the first `full * size` records, or all of them. */
  lemma {:induction false} FlattenTake<T>(items: seq<T>, size: nat, full: nat)
    requires size > 0 && full <= |Chunks(items, size)|
    ensures Flatten(Chunks(items, size)[..full]) == items[..Min(|items|, full * size)]
    decreases full
  {
    var c := Chunks(items, size);
    if full == 0 {
      assert c[..0] == [];
    } else {
      FlattenTake(items, size, full - 1);
      ChunkAt(items, size, full - 1);
      var p := (full - 1) * size;
      var q := Min(|items|, full * size);
      assert p + size == full * size;
      assert c[full - 1] == items[p..q];
      assert c[..full] == c[..full - 1] + [c[full - 1]];
      FlattenSnoc(c[..full - 1], c[full - 1]);
      assert items[..p] + items[p..q] == items[..q];
    }
  }

  /**
   * Once `full` batches are done, the next batch the inner loop takes, from
   * record `full * size` up to `size` records on, is batch number `full`, and
   * the records done after it are those of `full + 1` batches.
   */
  lemma NextBatch<T>(items: seq<T>, size: nat, full: nat, start: nat, batch: seq<T>)
    requires size > 0 && start == Min(|items|, full * size) && start < |items|
    requires batch == items[start..Min(|items|, start + size)]
    ensures full < |Chunks(items, size)| && Chunks(items, size)[full] == batch
    ensures start + |batch| == Min(|items|, (full + 1) * size)
  {
    var n := |Chunks(items, size)|;
    ChunkCount(items, size);
    if full >= n {
      MulMonotone(n, full, size);
      assert false;
    }
    ChunkAt(items, size, full);
    assert (full + 1) * size == full * size + size;
  }

  lemma MulMonotone(a: nat, b: nat, size: nat)
    requires a <= b
    ensures a * size <= b * size
  {
  }

  /** Once the batches done cover every record, every batch is done. */
  lemma AllChunksDone<T>(items: seq<T>, size: nat, full: nat)
    requires size > 0 && full <= |Chunks(items, size)| && |items| <= full * size
    ensures full == |Chunks(items, size)|
  {
    if full < |Chunks(items, size)| {
      ChunkAt(items, size, full);
    }
  }

  /** Logging batch number `full` after the first `full` batches logs the first `full + 1`. */
  lemma LogNext<T>(log: seq<seq<T>>, batches: seq<seq<T>>, full: nat)
    requires full < |batches|
    ensures (log + batches[..full]) + [batches[full]] == log + batches[..full + 1]
  {
    assert batches[..full + 1] == batches[..full] + [batches[full]];
  }

  /**
   * The inner loop of both bulk inserts: push the generator's next record
   * onto the batch while the batch has room and records remain.
   */
  method TakeBatch<T>(items: seq<T>, processed: nat, size: nat) returns (batch: seq<T>, next: nat)
    requires processed <= |items|
    ensures next == Min(|items|, processed + size)
    ensures batch == items[processed..next]
  {
    batch := [];
    next := processed;
    var i := 0;
    while i < size && next < |items|
      invariant processed <= next <= |items| && i == next - processed <= size
      invariant batch == items[processed..next]
    {
      batch := batch + [items[next]];
      next := next + 1;
      i := i + 1;
    }
  }
}
