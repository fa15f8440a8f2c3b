/** The bandwidth shaper: when each chunk is released, and the rate that follows. Sizes are bytes,
    times are milliseconds. */
module Bandwidth {

  datatype Chunk = Chunk(size: nat, arrival: int)

  /** The time a chunk takes at the given rate, rounded up to a whole millisecond. */
  function Duration(rate: nat, size: nat): (d: nat)
    requires rate > 0
    ensures size * 1000 <= rate * d < size * 1000 + rate
  {
    (size * 1000 + rate - 1) / rate
  }

  function Max(a: int, b: int): int { if a < b then b else a }

  /** The shaper's clock after the first `k` chunks. */
  function NextAt(rate: nat, first: int, chunks: seq<Chunk>, k: nat): int
    requires rate > 0 && k <= |chunks|
    decreases k, 0
  {
    if k == 0 then first else StartAt(rate, first, chunks, k - 1) + Duration(rate, chunks[k - 1].size)
  }

  /** The time chunk `k` is released. */
  function StartAt(rate: nat, first: int, chunks: seq<Chunk>, k: nat): int
    requires rate > 0 && k < |chunks|
    decreases k, 1
  {
    Max(chunks[k].arrival, NextAt(rate, first, chunks, k))
  }

  /** The bytes of chunks j .. k-1. */
  function Bytes(chunks: seq<Chunk>, j: nat, k: nat): nat
    requires j <= k <= |chunks|
  {
    if j == k then 0 else Bytes(chunks, j, k - 1) + chunks[k - 1].size
  }

  /** Their time on the line. */
  function Busy(rate: nat, chunks: seq<Chunk>, j: nat, k: nat): nat
    requires rate > 0 && j <= k <= |chunks|
  {
    if j == k then 0 else Busy(rate, chunks, j, k - 1) + Duration(rate, chunks[k - 1].size)
  }

  lemma Distribute(rate: nat, a: int, b: int)
    ensures rate * (a + b) == rate * a + rate * b
  {
  }

  lemma {:induction false} BusyCoversBytes(rate: nat, chunks: seq<Chunk>, j: nat, k: nat)
    requires rate > 0 && j <= k <= |chunks|
    ensures Bytes(chunks, j, k) * 1000 <= rate * Busy(rate, chunks, j, k)
    ensures rate * Busy(rate, chunks, j, k) <= Bytes(chunks, j, k) * 1000 + rate * (k - j)
    decreases k
  {
    if j < k {
      BusyCoversBytes(rate, chunks, j, k - 1);
      Distribute(rate, Busy(rate, chunks, j, k - 1), Duration(rate, chunks[k - 1].size));
      Distribute(rate, k - 1 - j, 1);
    }
  }

  /** A later chunk is released no earlier than all the chunks between have had their time. */
  lemma {:induction false} StartsSpread(rate: nat, first: int, chunks: seq<Chunk>, j: nat, k: nat)
    requires rate > 0 && j <= k < |chunks|
    ensures StartAt(rate, first, chunks, j) + Busy(rate, chunks, j, k) <= StartAt(rate, first, chunks, k)
    decreases k
  {
    if j < k { StartsSpread(rate, first, chunks, j, k - 1); }
  }

  /** The rate bound, for all chunk sizes and arrival times: release times never decrease, and the
      bytes of chunks j .. k-1 fit the rate over the time from chunk j's release to chunk k's. */
  lemma RateBound(rate: nat, first: int, chunks: seq<Chunk>, j: nat, k: nat)
    requires rate > 0 && j <= k < |chunks|
    ensures StartAt(rate, first, chunks, j) <= StartAt(rate, first, chunks, k)
    ensures Bytes(chunks, j, k) * 1000 <= rate * (StartAt(rate, first, chunks, k) - StartAt(rate, first, chunks, j))
  {
    StartsSpread(rate, first, chunks, j, k);
    BusyCoversBytes(rate, chunks, j, k);
    ScaleUp(rate, Busy(rate, chunks, j, k), StartAt(rate, first, chunks, k) - StartAt(rate, first, chunks, j));
  }

  lemma ScaleUp(rate: nat, a: int, b: int)
    requires a <= b
    ensures rate * a <= rate * b
  {
  }

  /** No more delay than the rate needs: a chunk is released at its own arrival, or when the chunks
      since some earlier arrival (or since the shaper began) have had exactly their time. */
  lemma {:induction false} DelayIsNeeded(rate: nat, first: int, chunks: seq<Chunk>, k: nat) returns (i: int)
    requires rate > 0 && k < |chunks|
    ensures -1 <= i <= k
    ensures StartAt(rate, first, chunks, k) == if i == -1 then first + Busy(rate, chunks, 0, k)
            else chunks[i].arrival + Busy(rate, chunks, i, k)
    ensures i == -1 ==> first >= chunks[0].arrival
  {
    if chunks[k].arrival >= NextAt(rate, first, chunks, k) {
      i := k;
    } else if k == 0 {
      i := -1;
    } else {
      i := DelayIsNeeded(rate, first, chunks, k - 1);
    }
  }

  /** The shaper of one direction of a connection. */
  class BandwidthTransform {
    const rate: int
    var nextAt: int
    var counted: nat
    ghost const first: int
    ghost var chunks: seq<Chunk>

    ghost predicate Valid()
      reads this
    {
      rate > 0 ==> nextAt == NextAt(rate, first, chunks, |chunks|)
    }

    constructor (rate: int, now: int)
      ensures Valid() && chunks == [] && counted == 0 && this.rate == rate && first == now
    {
      this.rate := rate;
      nextAt := now;
      counted := 0;
      first := now;
      chunks := [];
    }

    /** Count the bytes and schedule the chunk; an unlimited shaper passes it on at once. */
    method Transform(size: nat, now: int) returns (delay: int)
      requires Valid()
      modifies this
      ensures Valid() && counted == old(counted) + size
      ensures rate <= 0 ==> delay == 0 && nextAt == old(nextAt)
      ensures rate > 0 ==>
                && chunks == old(chunks) + [Chunk(size, now)]
                && delay >= 0 && now + delay == StartAt(rate, first, chunks, |chunks| - 1)
                && (delay == 0 <==> now >= old(nextAt))
    {
      counted := counted + size;
      if rate <= 0 { return 0; }
      var startAt := if now > nextAt then now else nextAt;
      var duration := Duration(rate, size);
      AppendKeepsTimes(rate, first, chunks, Chunk(size, now), |chunks|);
      nextAt := startAt + duration;
      chunks := chunks + [Chunk(size, now)];
      delay := if startAt - now > 0 then startAt - now else 0;
    }
  }

  /** Later chunks do not change when earlier ones are released. */
  lemma {:induction false} AppendKeepsTimes(rate: nat, first: int, chunks: seq<Chunk>, c: Chunk, k: nat)
    requires rate > 0 && k <= |chunks|
    ensures NextAt(rate, first, chunks + [c], k) == NextAt(rate, first, chunks, k)
  {
    if k > 0 { AppendKeepsTimes(rate, first, chunks, c, k - 1); }
  }
}
