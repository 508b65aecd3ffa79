/**
 * The list-chunking helper of the HSC release query client, which cuts a
 * list of queries into `num` contiguous batches. It steps a floating-point
 * accumulator `last` by `avg = len / num` and slices at `int(last)`; here
 * the accumulator is an exact real.
 */
module HscReleaseQuery {

  /** Python's `int()` on a float: truncation toward zero. */
  function PyInt(x: real): int
  {
    if x >= 0.0 then x.Floor else -((-x).Floor)
  }

  /** A Python slice index normalised into 0 .. n (negative indices count from the end). */
  function SliceIndex(i: int, n: nat): (j: nat)
    ensures j <= n
  {
    if i < 0 then (if n + i < 0 then 0 else n + i) else if i > n then n else i
  }

  /** Python's `s[lo:hi]`. */
  function PySlice<T>(s: seq<T>, lo: int, hi: int): seq<T>
  {
    var a := SliceIndex(lo, |s|);
    var b := SliceIndex(hi, |s|);
    if a < b then s[a..b] else []
  }

  /** The chunks laid end to end. */
  function Concat<T>(chunks: seq<seq<T>>): seq<T>
  {
    if chunks == [] then [] else Concat(chunks[..|chunks| - 1]) + chunks[|chunks| - 1]
  }

  /** Where chunk k starts when `len` items are cut into `num` chunks: floor(k * len / num). */
  function ChunkStart(len: nat, num: nat, k: nat): (b: nat)
    requires num > 0 && k <= num
    ensures b <= len
  {
    MulMono(k, num, len);
    DivMonotone(k * len, num * len, num);
    DivUnique(num * len, num, len, 0);
    k * len / num
  }

  /** The accumulator `last` after j steps of `avg = len / num`, in exact arithmetic. */
  function Accumulated(len: nat, num: nat, j: nat): real
    requires num > 0
  {
    ((j * len) as real) / (num as real)
  }

  /** Chunk k of the exact-arithmetic cut of `s` into `num` chunks. */
  function Chunk<T>(s: seq<T>, num: nat, k: nat): seq<T>
    requires num > 0 && k < num
  {
    ChunkStartMonotone(|s|, num, k);
    s[ChunkStart(|s|, num, k)..ChunkStart(|s|, num, k + 1)]
  }

  // ---------------------------------------------------------------------
  // Arithmetic facts

  lemma {:induction false} MulMono(a: int, b: int, n: nat)
    requires a <= b
    ensures a * n <= b * n
  {
    if n > 0 {
      MulMono(a, b, n - 1);
      assert a * n == a * (n - 1) + a;
      assert b * n == b * (n - 1) + b;
    }
  }

  /** a * n < (b + 1) * n forces a <= b. */
  lemma MulCancel(a: int, b: int, n: nat)
    requires a * n < (b + 1) * n
    ensures a <= b
  {
    if a > b {
      MulMono(b + 1, a, n);
      assert false;
    }
  }

  /** Euclidean division is determined by quotient and remainder. */
  lemma DivUnique(x: int, n: int, q: int, r: int)
    requires n > 0 && 0 <= r < n && x == q * n + r
    ensures x / n == q && x % n == r
  {
    var q', r' := x / n, x % n;
    assert x == q' * n + r';
    assert (q + 1) * n == q * n + n;
    assert (q' + 1) * n == q' * n + n;
    MulCancel(q', q, n);
    MulCancel(q, q', n);
  }

  lemma DivMonotone(x: int, y: int, n: int)
    requires n > 0 && x <= y
    ensures x / n <= y / n
  {
    var qx, qy := x / n, y / n;
    assert x == qx * n + x % n && y == qy * n + y % n;
    assert (qy + 1) * n == qy * n + n;
    MulCancel(qx, qy, n);
  }

  lemma ChunkStartMonotone(len: nat, num: nat, k: nat)
    requires num > 0 && k < num
    ensures ChunkStart(len, num, k) <= ChunkStart(len, num, k + 1) <= len
  {
    assert (k + 1) * len == k * len + len;
    DivMonotone(k * len, (k + 1) * len, num);
  }

  /** Truncating `a / n` computed in reals gives the integer quotient. */
  lemma FloorOfQuotient(a: nat, n: nat)
    requires n > 0
    ensures PyInt((a as real) / (n as real)) == a / n
  {
    var q, r := a / n, a % n;
    assert a == q * n + r;
    var x := (a as real) / (n as real);
    assert (a as real) == (q as real) * (n as real) + (r as real);
    assert x == (q as real) + (r as real) / (n as real);
  }

  /** One step of the accumulator: adding avg = len / num moves it from step j to step j + 1. */
  lemma AccumulatorStep(j: nat, len: nat, num: nat)
    requires num > 0
    ensures Accumulated(len, num, j) + (len as real) / (num as real) == Accumulated(len, num, j + 1)
  {
    assert (j + 1) * len == j * len + len;
  }

  /** The loop test `last < len` on the accumulator after j steps. */
  lemma AccumulatorBelowLength(j: nat, len: nat, num: nat)
    requires num > 0
    ensures Accumulated(len, num, j) < len as real <==> len > 0 && j < num
  {
    BelowLengthAsInt(j * len, len, num);
    if len > 0 && j < num {
      MulMono(j + 1, num, len);
      assert (j + 1) * len == j * len + len;
    } else if len > 0 {
      MulMono(num, j, len);
    }
  }

  /** `a / num < len` in reals is `a < num * len` in integers. */
  lemma BelowLengthAsInt(a: nat, len: nat, num: nat)
    requires num > 0
    ensures (a as real) / (num as real) < len as real <==> a < num * len
  {
    assert (num * len) as real == (num as real) * (len as real);
  }

  /**
   * One iteration of chunkNList at step j < num: the slice it takes is chunk
   * j, the prefix it has covered grows by that chunk, and the accumulator
   * moves on to step j + 1.
   */
  lemma StepAtAccumulator<T>(s: seq<T>, num: nat, j: nat)
    requires num > 0 && j < num
    ensures var last := Accumulated(|s|, num, j);
      var avg := (|s| as real) / (num as real);
      && last + avg == Accumulated(|s|, num, j + 1)
      && PySlice(s, PyInt(last), PyInt(last + avg)) == Chunk(s, num, j)
      && s[..ChunkStart(|s|, num, j + 1)] == s[..ChunkStart(|s|, num, j)] + Chunk(s, num, j)
  {
    AccumulatorStep(j, |s|, num);
    FloorOfQuotient(j * |s|, num);
    FloorOfQuotient((j + 1) * |s|, num);
    ChunkStartMonotone(|s|, num, j);
  }

  /** Appending one chunk extends the concatenation by it. */
  lemma ConcatSnoc<T>(chunks: seq<seq<T>>, c: seq<T>)
    ensures Concat(chunks + [c]) == Concat(chunks) + c
  {
    assert (chunks + [c])[..|chunks|] == chunks;
  }

  // ---------------------------------------------------------------------
  // chunkNList

  /**
   * chunkNList. `num` must be positive: zero divides by zero and a negative
   * count never ends on a non-empty list. The chunks abut, cover `s` in
   * order, and there are exactly `num` of them unless `s` is empty.
   */
  method ChunkNList<T>(s: seq<T>, num: nat) returns (out: seq<seq<T>>)
    requires num > 0
    ensures |out| == if |s| == 0 then 0 else num
    ensures forall k :: 0 <= k < |out| ==> out[k] == Chunk(s, num, k)
    ensures Concat(out) == s
  {
    var avg := (|s| as real) / (num as real);
    out := [];
    var last := 0.0;
    while last < |s| as real
      invariant |out| <= num
      invariant |s| == 0 ==> out == []
      invariant last == Accumulated(|s|, num, |out|)
      invariant forall k :: 0 <= k < |out| ==> out[k] == Chunk(s, num, k)
      invariant Concat(out) == s[..ChunkStart(|s|, num, |out|)]
      decreases num - |out|
    {
      AccumulatorBelowLength(|out|, |s|, num);
      StepAtAccumulator(s, num, |out|);
      ConcatSnoc(out, Chunk(s, num, |out|));
      out := out + [PySlice(s, PyInt(last), PyInt(last + avg))];
      last := last + avg;
    }
    AccumulatorBelowLength(|out|, |s|, num);
    DivUnique(num * |s|, num, |s|, 0);
  }

  /**
   * Every chunk holds floor(len / num) or ceil(len / num) items, so the cut
   * is as even as integer sizes allow.
   */
  lemma ChunkSizes<T>(s: seq<T>, num: nat, k: nat)
    requires num > 0 && k < num
    ensures var c := |Chunk(s, num, k)|;
      c == |s| / num || c == (|s| + num - 1) / num
  {
    ChunkStartMonotone(|s|, num, k);
    assert (k + 1) * |s| == k * |s| + |s|;
    QuotientOfSum(k * |s|, |s|, num);
  }

  /** ⌊(a + b) / n⌋ − ⌊a / n⌋ is ⌊b / n⌋ or ⌈b / n⌉. */
  lemma QuotientOfSum(a: nat, b: nat, n: nat)
    requires n > 0
    ensures (a + b) / n - a / n == b / n || (a + b) / n - a / n == (b + n - 1) / n
  {
    var q, r := a / n, a % n;
    var p, t := b / n, b % n;
    assert a == q * n + r && b == p * n + t;
    assert (q + p) * n == q * n + p * n;
    assert (q + p + 1) * n == q * n + p * n + n;
    if r + t < n {
      DivUnique(a + b, n, q + p, r + t);
    } else {
      DivUnique(a + b, n, q + p + 1, r + t - n);
    }
    if t == 0 {
      DivUnique(b + n - 1, n, p, n - 1);
    } else {
      assert (p + 1) * n == p * n + n;
      DivUnique(b + n - 1, n, p + 1, t - 1);
    }
  }

  /**
   * Consecutive chunks abut: chunk k ends at the index where chunk k + 1
   * begins, so together they are one contiguous slice, with no gap and no
   * overlap.
   */
  lemma ChunksAbut<T>(s: seq<T>, num: nat, k: nat)
    requires num > 0 && k + 1 < num
    ensures ChunkStart(|s|, num, k) <= ChunkStart(|s|, num, k + 2) <= |s|
    ensures Chunk(s, num, k) + Chunk(s, num, k + 1) ==
            s[ChunkStart(|s|, num, k)..ChunkStart(|s|, num, k + 2)]
  {
    ChunkStartMonotone(|s|, num, k);
    ChunkStartMonotone(|s|, num, k + 1);
  }
}
